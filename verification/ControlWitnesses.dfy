// Runs of the control plane, for any run ID, that end where its comments do not expect them to.
module ControlWitnesses {
  import opened Wrappers
  import opened Sums
  import opened ControlPlane
  import SessionDisplacement

  lemma Extend(acts: seq<Action>, s: System, a: Action) returns (longer: seq<Action>, t: System)
    requires After(New(), acts) == Some(s) && Enabled(s, a)
    ensures longer == acts + [a] && t == Next(s, a) && After(New(), longer) == Some(t)
  {
    longer, t := acts + [a], Next(s, a);
    assert longer[..|longer| - 1] == acts;
  }

  lemma OneLogin(r: RunId) returns (acts: seq<Action>, s: System)
    ensures After(New(), acts) == Some(s)
    ensures s.threads == [Registering(0), Head(0)]
    ensures s.g == Shared(map[], [Session(r, 0, false, false, 0, 0)], Stats(0, 0, 0, 0, 0), History(map[], map[]))
  {
    acts, s := Extend([], New(), Login(r, 0));
    assert s.threads == [Boot(0, 0), Head(0)] && s.g.sessions == [Session(r, 0, false, false, 0, 0)];
    acts, s := Extend(acts, s, Run(0, Plain));
    assert s.threads == [Registering(0), Head(0)];
  }

  // One login of run r, registered and serving.
  lemma OneServing(r: RunId) returns (acts: seq<Action>, s: System)
    ensures After(New(), acts) == Some(s)
    ensures s.threads == [Serving(0), Head(0)]
    ensures s.g
            == Shared(map[r := 0], [Session(r, 0, false, true, 0, 0)], Stats(0, 0, 0, 0, 0),
                History(map[r := 0], map[]))
  {
    acts, s := OneLogin(r);
    acts, s := Extend(acts, s, Run(0, Plain));
    assert s.threads == [Serving(0), Head(0)];
  }

  lemma Reconnecting(r: RunId) returns (acts: seq<Action>, s: System)
    ensures After(New(), acts) == Some(s)
    ensures s.threads == [Serving(0), Head(0), Registering(1), Head(1)]
    ensures s.g == Shared(map[r := 0], [Session(r, 0, false, true, 0, 0), Session(r, 0, false, false, 0, 0)],
                          Stats(0, 0, 0, 0, 0), History(map[r := 0], map[]))
  {
    acts, s := OneServing(r);
    acts, s := Extend(acts, s, Login(r, 0));
    assert s.threads == [Serving(0), Head(0), Boot(1, 0), Head(1)];
    acts, s := Extend(acts, s, Run(2, Plain));
    assert s.threads == [Serving(0), Head(0), Registering(1), Head(1)];
  }

  // A reconnect has displaced it.
  lemma Displaced(r: RunId) returns (acts: seq<Action>, s: System)
    ensures After(New(), acts) == Some(s)
    ensures s.threads == [Serving(0), Head(0), Serving(1), Head(1)]
    ensures s.g == Shared(map[r := 1], [Session(r, 0, true, true, 0, 0), Session(r, 0, false, true, 0, 0)],
                          Stats(0, 0, 0, 0, 0), History(map[r := 1], map[]))
  {
    acts, s := Reconnecting(r);
    acts, s := Extend(acts, s, Run(2, Plain));
    assert s.threads == [Serving(0), Head(0), Serving(1), Head(1)];
    assert s.g.sessions == [Session(r, 0, true, true, 0, 0), Session(r, 0, false, true, 0, 0)];
  }

  lemma DisplacedEnds(r: RunId) returns (acts: seq<Action>, s: System)
    ensures After(New(), acts) == Some(s)
    ensures s.threads == [Cancelling(0), Head(0), Serving(1), Head(1)]
    ensures s.g == Shared(map[r := 1], [Session(r, 0, true, true, 0, 0), Session(r, 0, false, true, 0, 0)],
                          Stats(0, 0, 0, 0, 0), History(map[r := 1], map[]))
  {
    acts, s := Displaced(r);
    acts, s := Extend(acts, s, Run(0, Plain));
    assert s.threads == [Cancelling(0), Head(0), Serving(1), Head(1)];
  }

  lemma DisplacedCancels(r: RunId) returns (acts: seq<Action>, s: System)
    ensures After(New(), acts) == Some(s)
    ensures s.threads == [Removing(0), Head(0), Serving(1), Head(1)]
    ensures s.g == Shared(map[r := 1], [Session(r, 0, true, true, 0, 0), Session(r, 0, false, true, 0, 0)],
                          Stats(0, 0, 0, 0, 0), History(map[r := 1], map[]))
  {
    acts, s := DisplacedEnds(r);
    acts, s := Extend(acts, s, Run(0, Plain));
    assert s.threads == [Removing(0), Head(0), Serving(1), Head(1)];
    assert s.g.sessions == [Session(r, 0, true, true, 0, 0), Session(r, 0, false, true, 0, 0)];
  }

  // The displaced session's own cleanup removes its successor's entry: session 1 is
  // serving and not cancelled, and no caller can find it.
  lemma DisplacedCleanupEvicts(r: RunId) returns (acts: seq<Action>, s: System)
    ensures After(New(), acts) == Some(s)
    ensures s.threads == [Cleaned(0), Head(0), Serving(1), Head(1)]
    ensures r !in s.g.entries && Stale(s.g.history, r) == 1
    ensures |s.g.sessions| == 2 && s.g.sessions[0].run == r && SessionDisplacement.IsLive(r, s.g.sessions[1]) == 1
    ensures s.g.stats == Stats(0, 0, 0, 0, 0)
  {
    acts, s := DisplacedCancels(r);
    acts, s := Extend(acts, s, Run(0, Plain));
    assert s.threads == [Cleaned(0), Head(0), Serving(1), Head(1)];
  }

  lemma Rejoining(r: RunId) returns (acts: seq<Action>, s: System)
    ensures After(New(), acts) == Some(s)
    ensures s.threads == [Cleaned(0), Head(0), Serving(1), Head(1), Registering(2), Head(2)]
    ensures r !in s.g.entries && Stale(s.g.history, r) == 1 && |s.g.sessions| == 3
    ensures SessionDisplacement.IsLive(r, s.g.sessions[1]) == 1
    ensures s.g.sessions[2] == Session(r, 0, false, false, 0, 0)
  {
    acts, s := DisplacedCleanupEvicts(r);
    acts, s := Extend(acts, s, Login(r, 0));
    assert s.threads == [Cleaned(0), Head(0), Serving(1), Head(1), Boot(2, 0), Head(2)];
    acts, s := Extend(acts, s, Run(4, Plain));
  }

  // The next reconnect then finds nothing to cancel: two live sessions for one run,
  // so the bound of one plus the stale Removes is reached.
  lemma TwoLiveSessions(r: RunId) returns (acts: seq<Action>, s: System)
    ensures After(New(), acts) == Some(s)
    ensures Total(SessionDisplacement.Live(r), s.g.sessions) == 1 + Stale(s.g.history, r) == 2
  {
    acts, s := Rejoining(r);
    acts, s := Extend(acts, s, Run(4, Plain));
    SessionDisplacement.Reachable(acts);
    assert SessionDisplacement.LiveOk(s.g, r);
    TotalAtLeastTwo(SessionDisplacement.Live(r), s.g.sessions, 1, 2);
  }

  lemma OneCancelled(r: RunId) returns (acts: seq<Action>, s: System)
    ensures After(New(), acts) == Some(s)
    ensures s.threads == [Removing(0), Head(0)]
    ensures s.g == Shared(map[r := 0], [Session(r, 0, true, true, 0, 0)], Stats(0, 0, 0, 0, 0),
                          History(map[r := 0], map[]))
  {
    acts, s := OneServing(r);
    acts, s := Extend(acts, s, Run(0, Plain));
    assert s.threads == [Cancelling(0), Head(0)];
    acts, s := Extend(acts, s, Run(0, Plain));
  }

  lemma OneCleaned(r: RunId) returns (acts: seq<Action>, s: System)
    ensures After(New(), acts) == Some(s)
    ensures s.threads == [Cleaned(0), Head(0)]
    ensures s.g == Shared(map[], [Session(r, 0, true, true, 0, 0)], Stats(0, 0, 0, 0, 0), History(map[r := 0], map[]))
  {
    acts, s := OneCancelled(r);
    acts, s := Extend(acts, s, Run(0, Plain));
  }

  // Nobody is displaced: the run's first session has removed its own entry before the next
  // one registers.
  lemma Succeeds(r: RunId) returns (acts: seq<Action>, s: System)
    ensures After(New(), acts) == Some(s)
    ensures s.threads == [Cleaned(0), Head(0), Serving(1), Head(1)]
    ensures s.g.entries == map[r := 1] && Stale(s.g.history, r) == 0
    ensures |s.g.sessions| == 2 && s.g.sessions[0].run == r && SessionDisplacement.IsLive(r, s.g.sessions[1]) == 1
  {
    acts, s := OneCleaned(r);
    acts, s := Extend(acts, s, Login(r, 0));
    assert s.threads == [Cleaned(0), Head(0), Boot(1, 0), Head(1)];
    acts, s := Extend(acts, s, Run(2, Plain));
    assert s.threads == [Cleaned(0), Head(0), Registering(1), Head(1)];
    acts, s := Extend(acts, s, Run(2, Plain));
  }

  // A caller has found the one session and is about to signal it.
  lemma SignalOffered(r: RunId) returns (acts: seq<Action>, s: System)
    ensures After(New(), acts) == Some(s)
    ensures s.threads == [Serving(0), Head(0), Offer(0)]
    ensures s.g
            == Shared(map[r := 0], [Session(r, 0, false, true, 0, 0)], Stats(1, 0, 0, 0, 0),
                History(map[r := 0], map[]))
  {
    acts, s := OneServing(r);
    acts, s := Extend(acts, s, Call(r));
    assert s.threads == [Serving(0), Head(0), Lookup(r)];
    acts, s := Extend(acts, s, Run(2, Plain));
    assert s.threads == [Serving(0), Head(0), CountRequested(0)];
    acts, s := Extend(acts, s, Run(2, Plain));
    assert s.threads == [Serving(0), Head(0), Offer(0)];
  }

  lemma SignalSent(r: RunId) returns (acts: seq<Action>, s: System)
    ensures After(New(), acts) == Some(s)
    ensures s.threads == [Serving(0), Head(0), CountEnqueued(0)]
    ensures s.g
            == Shared(map[r := 0], [Session(r, 1, false, true, 0, 0)], Stats(1, 0, 0, 0, 0),
                History(map[r := 0], map[]))
  {
    acts, s := SignalOffered(r);
    acts, s := Extend(acts, s, Run(2, Plain));
    assert s.threads == [Serving(0), Head(0), CountEnqueued(0)];
  }

  // The signal is queued and counted.
  lemma SignalQueued(r: RunId) returns (acts: seq<Action>, s: System)
    ensures After(New(), acts) == Some(s)
    ensures s.threads == [Serving(0), Head(0), CallerDone]
    ensures s.g
            == Shared(map[r := 0], [Session(r, 1, false, true, 0, 0)], Stats(1, 1, 0, 0, 1),
                History(map[r := 0], map[]))
  {
    acts, s := SignalSent(r);
    acts, s := Extend(acts, s, Run(2, Plain));
    assert s.threads == [Serving(0), Head(0), CountInflight(0)];
    acts, s := Extend(acts, s, Run(2, Plain));
    assert s.threads == [Serving(0), Head(0), CallerDone];
  }

  lemma SessionCancelled(r: RunId) returns (acts: seq<Action>, s: System)
    ensures After(New(), acts) == Some(s)
    ensures s.threads == [Removing(0), Head(0), CallerDone]
    ensures s.g
            == Shared(map[r := 0], [Session(r, 1, true, true, 0, 0)], Stats(1, 1, 0, 0, 1), History(map[r := 0], map[]))
  {
    acts, s := SignalQueued(r);
    acts, s := Extend(acts, s, Run(0, Plain));
    assert s.threads == [Cancelling(0), Head(0), CallerDone];
    acts, s := Extend(acts, s, Run(0, Plain));
    assert s.threads == [Removing(0), Head(0), CallerDone] && s.g.sessions == [Session(r, 1, true, true, 0, 0)];
  }

  lemma SessionCleaned(r: RunId) returns (acts: seq<Action>, s: System)
    ensures After(New(), acts) == Some(s)
    ensures s.threads == [Cleaned(0), Head(0), CallerDone]
    ensures s.g.sessions == [Session(r, 1, true, true, 0, 0)] && s.g.stats.inflight == 1
  {
    acts, s := SessionCancelled(r);
    acts, s := Extend(acts, s, Run(0, Plain));
  }

  predicate Finished(p: Pc) {
    p.Cleaned? || p.WriterExited? || p.CallerDone?
  }

  lemma NothingEnabled(s: System, a: Action)
    requires a.Run? && forall p | p in s.threads :: Finished(p)
    ensures !Enabled(s, a)
  {
    if a.i < |s.threads| {
      assert Finished(s.threads[a.i]);
    }
  }

  // The session ends before its writer takes the signal: every goroutine is finished
  // and `inflight` stays at 1.
  lemma InflightNeverDrains(r: RunId) returns (acts: seq<Action>, s: System)
    ensures After(New(), acts) == Some(s)
    ensures s.threads == [Cleaned(0), WriterExited(0), CallerDone]
    ensures s.g.stats.inflight == 1
    ensures forall a: Action | a.Run? :: !Enabled(s, a)
  {
    acts, s := SessionCleaned(r);
    acts, s := Extend(acts, s, Run(1, Plain));
    assert s.threads == [Cleaned(0), WriterExited(0), CallerDone];
    forall a: Action | a.Run? ensures !Enabled(s, a) {
      NothingEnabled(s, a);
    }
  }
}
