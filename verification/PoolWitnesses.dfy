// Runs of the pool that its comments do not expect: two workers at once, and a send on a
// closed channel.
module PoolWitnesses {
  import opened Wrappers
  import opened PoolMachine

  lemma Extend(acts: seq<Action>, s: Pool, a: Action) returns (longer: seq<Action>, t: Pool)
    requires After(New([1]), acts) == Some(s) && Enabled(s, a)
    ensures longer == acts + [a] && t == Next(s, a) && After(New([1]), longer) == Some(t)
  {
    longer, t := acts + [a], Next(s, a);
    assert longer[..|longer| - 1] == acts;
  }

  // ---- Put and Close -----------------------------------------------------------------

  // A Put has passed its check and a Close is about to begin.
  lemma PutAndCloseMeet() returns (acts: seq<Action>, s: Pool)
    ensures After(New([1]), acts) == Some(s)
    ensures s.threads == [PutSend(7), CloseEnter] && s.g.gate == Gate(false, false, Fresh, false)
  {
    acts, s := Extend([], New([1]), Spawn(PutCheck(7)));
    assert s.threads == [PutCheck(7)];
    acts, s := Extend(acts, s, Spawn(CloseEnter));
    assert s.threads == [PutCheck(7), CloseEnter];
    acts, s := Extend(acts, s, Run(0));
  }

  lemma CloseOvertakesPut() returns (acts: seq<Action>, s: Pool)
    ensures After(New([1]), acts) == Some(s)
    ensures s.threads == [PutSend(7), Drain] && s.g.gate == Gate(true, true, Running, false)
  {
    acts, s := PutAndCloseMeet();
    acts, s := Extend(acts, s, Run(1));
    assert s.threads == [PutSend(7), CloseMark];
    acts, s := Extend(acts, s, Run(1));
    assert s.threads == [PutSend(7), CloseChan];
    acts, s := Extend(acts, s, Run(1));
  }

  // The race is real: Put checks, Close closes the channel, Put sends.
  lemma FaultReachable() returns (acts: seq<Action>, s: Pool)
    ensures After(New([1]), acts) == Some(s) && s.g.gate.fault
  {
    acts, s := CloseOvertakesPut();
    acts, s := Extend(acts, s, Run(0));
  }

  // ---- Put, then Get ------------------------------------------------------------------

  lemma PutBuffers() returns (acts: seq<Action>, s: Pool)
    ensures After(New([1]), acts) == Some(s)
    ensures s.threads == [PutDone] && s.g.buf == [7]
    ensures s.g.refill == Refill(false, 0, 0, 0) && s.g.gets == Gets(0, 0, 0)
    ensures s.g.gate == Gate(false, false, Fresh, false)
  {
    acts, s := Extend([], New([1]), Spawn(PutCheck(7)));
    assert s.threads == [PutCheck(7)];
    acts, s := Extend(acts, s, Run(0));
    assert s.threads == [PutSend(7)];
    acts, s := Extend(acts, s, Run(0));
  }

  lemma GetFinds() returns (acts: seq<Action>, s: Pool)
    ensures After(New([1]), acts) == Some(s)
    ensures s.threads == [PutDone, AddDemand(1, Deliver(7))] && s.g.buf == []
    ensures s.g.refill == Refill(false, 0, 0, 0) && s.g.gets == Gets(1, 0, 0) && !s.g.gate.fault
  {
    acts, s := PutBuffers();
    acts, s := Extend(acts, s, Spawn(GetCheck));
    assert s.threads == [PutDone, GetCheck];
    acts, s := Extend(acts, s, Run(1));
    assert s.threads == [PutDone, GetFast];
    acts, s := Extend(acts, s, Run(1));
    assert s.threads == [PutDone, HitBump(7)];
    acts, s := Extend(acts, s, Run(1));
  }

  // A Put and then a Get: the Get returns the connection, counts a hit, and has a worker
  // started that will ask for one more.
  lemma PutThenGet() returns (acts: seq<Action>, s: Pool)
    ensures After(New([1]), acts) == Some(s)
    ensures s.threads == [PutDone, Got(7), Swap] && s.g.buf == []
    ensures s.g.gets == Gets(1, 0, 0) && s.g.refill == Refill(true, 1, 1, 0)
  {
    acts, s := GetFinds();
    acts, s := Extend(acts, s, Run(1));
    assert s.threads == [PutDone, AddPending(1, Deliver(7))];
    acts, s := Extend(acts, s, Run(1));
    assert s.threads == [PutDone, TryClaim(Deliver(7))];
    acts, s := Extend(acts, s, Run(1));
    assert s.threads == [PutDone, Launch(Deliver(7))];
    acts, s := Extend(acts, s, Run(1));
  }

  // ---- two workers --------------------------------------------------------------------

  // Open, nothing buffered, nobody refilling.
  predicate Dry(s: Pool, hasOwner: bool, pending: nat) {
    && s.g.buf == [] && s.g.gate == Gate(false, false, Fresh, false)
    && s.g.refill.refilling == hasOwner && s.g.refill.pending == pending && s.g.capacity == 1
  }

  // The last goroutine is a Get; it misses and asks for a burst of two.
  lemma Misses(acts0: seq<Action>, s0: Pool) returns (acts: seq<Action>, s: Pool)
    requires After(New([1]), acts0) == Some(s0) && Dry(s0, false, 0)
    ensures After(New([1]), acts) == Some(s) && Dry(s, false, 0)
    ensures s.threads == s0.threads + [AddDemand(2, Block)]
  {
    var i := |s0.threads|;
    acts, s := Extend(acts0, s0, Spawn(GetCheck));
    acts, s := Extend(acts, s, Run(i));
    assert s.threads == s0.threads + [GetFast];
    acts, s := Extend(acts, s, Run(i));
    assert s.threads == s0.threads + [MissBump];
    acts, s := Extend(acts, s, Run(i));
  }

  // ... which starts a worker.
  lemma Launches(acts0: seq<Action>, s0: Pool) returns (acts: seq<Action>, s: Pool)
    requires After(New([1]), acts0) == Some(s0) && Dry(s0, false, 0)
    ensures After(New([1]), acts) == Some(s) && Dry(s, true, 2)
    ensures s.threads == s0.threads + [GetWait, Swap]
  {
    var i := |s0.threads|;
    acts, s := Misses(acts0, s0);
    acts, s := Extend(acts, s, Run(i));
    assert s.threads == s0.threads + [AddPending(2, Block)];
    acts, s := Extend(acts, s, Run(i));
    assert s.threads == s0.threads + [TryClaim(Block)];
    acts, s := Extend(acts, s, Run(i));
    assert s.threads == s0.threads + [Launch(Block)];
    acts, s := Extend(acts, s, Run(i));
  }

  // A worker serves one unit.
  lemma ServesOne(acts0: seq<Action>, s0: Pool, i: nat, left: nat) returns (acts: seq<Action>, s: Pool)
    requires After(New([1]), acts0) == Some(s0) && Dry(s0, true, 0)
    requires i < |s0.threads| && s0.threads[i] == Serve(left)
    ensures After(New([1]), acts) == Some(s) && Dry(s, true, 0)
    ensures s.threads == s0.threads[i := if left <= 1 then Swap else Serve(left - 1)]
  {
    acts, s := Extend(acts0, s0, Run(i));
    assert s.threads == s0.threads[i := InFn(left)];
    acts, s := Extend(acts, s, Run(i));
    assert s.threads == s0.threads[i := CountSent(left)];
    acts, s := Extend(acts, s, Run(i));
  }

  // The first worker is past Store(false).
  lemma Released() returns (acts: seq<Action>, s: Pool)
    ensures After(New([1]), acts) == Some(s) && Dry(s, false, 0)
    ensures s.threads == [GetWait, Recheck]
  {
    acts, s := Launches([], New([1]));
    acts, s := Extend(acts, s, Run(1));
    assert s.threads == [GetWait, Serve(2)];
    acts, s := ServesOne(acts, s, 1, 2);
    acts, s := ServesOne(acts, s, 1, 1);
    acts, s := Extend(acts, s, Run(1));
    assert s.threads == [GetWait, Release];
    acts, s := Extend(acts, s, Run(1));
  }

  // Two workers exist: the old one before its re-check, the new one the owner.
  lemma TwoWorkers() returns (acts: seq<Action>, s: Pool)
    ensures After(New([1]), acts) == Some(s)
    ensures s.threads == [GetWait, Recheck, GetWait, Swap] && s.g.refill.refilling
  {
    acts, s := Released();
    acts, s := Launches(acts, s);
  }
}
