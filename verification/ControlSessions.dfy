// The control path of internal/server as its callers see it: the controlManager's map,
// the refill callers of handle.go, the login goroutine from bootstrap to cleanup and the
// session's writer, each written operation by operation.
//
// Between any two operations of a goroutine every other goroutine may act; that is method
// Yield. What each method is proved to do is to take its goroutine through ControlPlane,
// so what SignalAccounting and SessionDisplacement prove of every schedule holds of the
// object's state.
module ControlSessions {
  import opened Wrappers
  import opened Batching
  import opened Sums
  import M = ControlPlane
  import A = SignalAccounting
  import D = SessionDisplacement

  datatype Outcome = NoEntry | Enqueued | Gone | Blocked

  datatype Ready = Signal | Done | Otherwise | Nothing

  // Where a turn of the writer's loop leaves it.
  datatype Turned = Onward | Exited | Waiting

  // An operation of goroutine `me`.
  function IsOwn(me: nat): M.Action -> int {
    (a: M.Action) => OwnStep(me, a)
  }

  function OwnStep(me: nat, a: M.Action): int {
    if a.Run? && a.i == me then 1 else 0
  }

  lemma Logged(acts: seq<M.Action>, s: M.System, a: M.Action)
    requires M.After(M.New(), acts) == Some(s) && M.Enabled(s, a)
    ensures M.After(M.New(), acts + [a]) == Some(M.Next(s, a))
  {
    assert (acts + [a])[..|acts|] == acts;
  }

  lemma OnlyGrows(s: M.System, a: M.Action)
    requires M.Enabled(s, a)
    ensures |M.Next(s, a).g.sessions| >= |s.g.sessions| && |M.Next(s, a).threads| >= |s.threads|
    ensures forall i | 0 <= i < |s.threads| && !(a.Run? && a.i == i) :: M.Next(s, a).threads[i] == s.threads[i]
  {
  }

  lemma LoginLogged(acts: seq<M.Action>, s: M.System, run: M.RunId, poolCount: int, left: nat, t: M.System)
    requires M.After(M.New(), acts) == Some(s) && left == if poolCount > 0 then poolCount else 0
    requires t.g == s.g.(sessions := s.g.sessions + [M.Session(run, 0, false, false, 0, left)])
    requires t.threads == s.threads + [M.Boot(|s.g.sessions|, left), M.Head(|s.g.sessions|)]
    ensures M.After(M.New(), acts + [M.Login(run, poolCount)]) == Some(t)
  {
    Logged(acts, s, M.Login(run, poolCount));
  }

  class Server {
    // controlManager.entries, every login's channels and context, ReqWorkConnStats.
    var entries: map<M.RunId, nat>
    var sessions: seq<M.Session>
    var stats: M.Stats

    // What the scheduler knows, the observers, and the schedule so far.
    var threads: seq<M.Pc>
    var history: M.History
    ghost var acts: seq<M.Action>

    constructor ()
      ensures Valid() && threads == []
    {
      entries, sessions, stats := map[], [], M.Stats(0, 0, 0, 0, 0);
      threads, history, acts := [], M.History(map[], map[]), [];
    }

    function View(): M.Shared
      reads this
    {
      M.Shared(entries, sessions, stats, history)
    }

    function State(): M.System
      reads this
    {
      M.System(View(), threads)
    }

    ghost predicate Valid()
      reads this
    {
      M.After(M.New(), acts) == Some(State())
    }

    // Goroutine `me` is about to execute p.
    ghost predicate At(me: nat, p: M.Pc)
      reads this
    {
      Valid() && me < |threads| && threads[me] == p && M.InRange(View(), p)
    }

    // ---- the scheduler ------------------------------------------------------------

    method Interfere(me: nat, a: M.Action)
      requires me < |threads| && At(me, threads[me])
      modifies this
      ensures Took(IsOwn(me), old(acts), acts, 0)
      ensures At(me, old(threads[me]))
    {
      var s := State();
      if M.Enabled(s, a) && !(a.Run? && a.i == me) {
        Logged(acts, s, a);
        TookOne(IsOwn(me), acts, a);
        OnlyGrows(s, a);
        var next := M.Next(s, a);
        entries, sessions, stats := next.g.entries, next.g.sessions, next.g.stats;
        threads, history, acts := next.threads, next.g.history, acts + [a];
      }
    }

    // Any number of operations of the other goroutines, new calls and logins among them.
    method Yield(me: nat)
      requires me < |threads| && At(me, threads[me])
      modifies this
      ensures Took(IsOwn(me), old(acts), acts, 0)
      ensures At(me, old(threads[me]))
    {
      var some: int := *;
      for n := 0 to if some > 0 then some else 0
        invariant At(me, old(threads[me])) && Took(IsOwn(me), old(acts), acts, 0)
      {
        var a: M.Action := *;
        Interfere(me, a);
      }
    }

    // Goroutine `me` has done the operation it was about to do.
    method Commit(me: nat, c: M.Choice, p: M.Pc, ghost was: M.System)
      requires M.After(M.New(), acts) == Some(was) && threads == was.threads
      requires M.Enabled(was, M.Run(me, c)) && M.Move(was.g, was.threads[me], c) == (View(), p)
      requires M.InRange(View(), p)
      modifies this
      ensures Took(IsOwn(me), old(acts), acts, 1)
      ensures At(me, p)
    {
      Logged(acts, was, M.Run(me, c));
      TookOne(IsOwn(me), acts, M.Run(me, c));
      threads := threads[me := p];
      acts := acts + [M.Run(me, c)];
      Yield(me);
    }

    // ---- a session's reqCh --------------------------------------------------------------

    method Give(k: nat)
      requires k < |sessions|
      modifies this`sessions
      ensures View() == M.SetQueued(old(View()), k, old(sessions[k].queued) + 1)
    {
      sessions := sessions[k := sessions[k].(queued := sessions[k].queued + 1)];
    }

    method Take(k: nat)
      requires k < |sessions| && sessions[k].queued > 0
      modifies this`sessions
      ensures View() == M.TakeSignal(old(View()), k)
    {
      var x := sessions[k];
      sessions := sessions[k := x.(queued := x.queued - 1, taken := x.taken + 1)];
    }

    // ---- refill callers --------------------------------------------------------------

    // Where two cases of SendReqWorkConn's select are ready, either may be taken; where
    // none is, the caller stays blocked.
    method SendReqWorkConn(me: nat, k: nat) returns (r: Outcome)
      requires At(me, M.Offer(k))
      modifies this
      ensures At(me, match r case Enqueued => M.CountEnqueued(k) case Gone => M.CountDropped(k) case _ => M.Offer(k))
      ensures Took(IsOwn(me), old(acts), acts, if r.Blocked? then 0 else 1) && !r.NoEntry?
      ensures var was := old(sessions[k]);
              match r
              case Enqueued => was.queued < REQ_CH_SIZE
              case Gone => was.cancelled
              case _ => was.queued >= REQ_CH_SIZE && !was.cancelled
    {
      ghost var was := State();
      var preferDone: bool := *;
      var room := sessions[k].queued < REQ_CH_SIZE;
      if sessions[k].cancelled && (preferDone || !room) {
        r := Gone;
        Commit(me, M.Done, M.CountDropped(k), was);
      } else if room {
        r := Enqueued;
        Give(k);
        Commit(me, M.Plain, M.CountEnqueued(k), was);
      } else {
        r := Blocked;
      }
    }

    method GetEntry(me: nat, run: M.RunId) returns (k: Option<nat>)
      requires At(me, M.Lookup(run))
      modifies this
      ensures Took(IsOwn(me), old(acts), acts, 1)
      ensures k == if run in old(entries) then Some(old(entries[run])) else None
      ensures At(me, match k case Some(e) => M.CountRequested(e) case None => M.CallerDone)
    {
      ghost var was := State();
      if run in entries {
        EntryInRange(this, run);
        k := Some(entries[run]);
        Commit(me, M.Plain, M.CountRequested(k.value), was);
      } else {
        k := None;
        Commit(me, M.Plain, M.CallerDone, was);
      }
    }

    method AddRequested(me: nat, k: nat)
      requires At(me, M.CountRequested(k))
      modifies this
      ensures Took(IsOwn(me), old(acts), acts, 1)
      ensures At(me, M.Offer(k))
    {
      ghost var was := State();
      stats := stats.(requested := stats.requested + 1);
      Commit(me, M.Plain, M.Offer(k), was);
    }

    method AddEnqueued(me: nat, k: nat)
      requires At(me, M.CountEnqueued(k))
      modifies this
      ensures Took(IsOwn(me), old(acts), acts, 1)
      ensures At(me, M.CountInflight(k))
    {
      ghost var was := State();
      stats := stats.(enqueued := stats.enqueued + 1);
      Commit(me, M.Plain, M.CountInflight(k), was);
    }

    method AddInflight(me: nat, k: nat)
      requires At(me, M.CountInflight(k))
      modifies this
      ensures Took(IsOwn(me), old(acts), acts, 1)
      ensures At(me, M.CallerDone)
    {
      ghost var was := State();
      stats := stats.(inflight := stats.inflight + 1);
      Commit(me, M.Plain, M.CallerDone, was);
    }

    method AddDropped(me: nat, k: nat)
      requires At(me, M.CountDropped(k))
      modifies this
      ensures Took(IsOwn(me), old(acts), acts, 1)
      ensures At(me, M.CallerDone)
    {
      ghost var was := State();
      stats := stats.(dropped := stats.dropped + 1);
      Commit(me, M.Plain, M.CallerDone, was);
    }

    method Call(run: M.RunId) returns (me: nat)
      requires Valid()
      modifies this
      ensures Took(IsOwn(me), old(acts), acts, 0) && me == |old(threads)|
      ensures At(me, M.Lookup(run))
    {
      me := |threads|;
      Logged(acts, State(), M.Call(run));
      TookOne(IsOwn(me), acts, M.Call(run));
      threads, acts := threads + [M.Lookup(run)], acts + [M.Call(run)];
      Yield(me);
    }

    // ReqWorkConnFunc's closure once the entry is found: the signal is counted as requested
    // and then offered; enqueued and in flight, or dropped, unless the queue blocks it.
    method Signal(me: nat, k: nat) returns (r: Outcome)
      requires At(me, M.CountRequested(k))
      modifies this
      ensures At(me, if r.Blocked? then M.Offer(k) else M.CallerDone) && !r.NoEntry?
      ensures Took(IsOwn(me), old(acts), acts, match r case Enqueued => 4 case Gone => 3 case _ => 1)
    {
      AddRequested(me, k);
      r := SendReqWorkConn(me, k);
      if r.Enqueued? {
        CountSignal(me, k);
      } else if r.Gone? {
        AddDropped(me, k);
      }
    }

    method CountSignal(me: nat, k: nat)
      requires At(me, M.CountEnqueued(k))
      modifies this
      ensures Took(IsOwn(me), old(acts), acts, 2)
      ensures At(me, M.CallerDone)
    {
      AddEnqueued(me, k);
      AddInflight(me, k);
    }

    // ReqWorkConnFunc's closure, with the way it ended.
    method ReqWorkConn(run: M.RunId) returns (r: Outcome, me: nat)
      requires Valid()
      modifies this
      ensures me == |old(threads)| < |threads|
      ensures At(me, threads[me]) && if r.Blocked? then threads[me].Offer? else threads[me].CallerDone?
      ensures Took(IsOwn(me), old(acts), acts,
                   match r case NoEntry => 1 case Enqueued => 5 case Gone => 4 case Blocked => 2)
    {
      me := Call(run);
      var entry := GetEntry(me, run);
      if entry.Some? {
        r := Signal(me, entry.value);
      } else {
        r := NoEntry;
      }
    }

    // ---- a login ------------------------------------------------------------------------

    // The channels and the context of a new session; its login and its writer are ready to
    // run, the login with `left` signals to bootstrap.
    method Open(run: M.RunId, poolCount: int) returns (me: nat, k: nat, left: nat)
      requires Valid()
      modifies this
      ensures left == if poolCount > 0 then poolCount else 0
      ensures Took(IsOwn(me), old(acts), acts, 0) && me == |old(threads)|
      ensures threads == old(threads) + [M.Boot(k, left), M.Head(k)]
      ensures k == |old(sessions)| && sessions == old(sessions) + [M.Session(run, 0, false, false, 0, left)]
      ensures At(me, M.Boot(k, left))
    {
      k, me := |sessions|, |threads|;
      left := if poolCount > 0 then poolCount else 0;
      ghost var was := State();
      Make(run, left);
      LoginLogged(acts, was, run, poolCount, left, State());
      TookOne(IsOwn(me), acts, M.Login(run, poolCount));
      acts := acts + [M.Login(run, poolCount)];
    }

    method Make(run: M.RunId, left: nat)
      modifies this`sessions, this`threads
      ensures View() == old(View()).(sessions := old(sessions) + [M.Session(run, 0, false, false, 0, left)])
      ensures threads == old(threads) + [M.Boot(|old(sessions)|, left), M.Head(|old(sessions)|)]
    {
      threads := threads + [M.Boot(|sessions|, left), M.Head(|sessions|)];
      sessions := sessions + [M.Session(run, 0, false, false, 0, left)];
    }

    method BootRequested(me: nat, k: nat, left: nat)
      requires left > 0 && At(me, M.Boot(k, left))
      modifies this
      ensures Took(IsOwn(me), old(acts), acts, 1)
      ensures At(me, M.BootEnqueued(k, left))
    {
      ghost var was := State();
      stats := stats.(requested := stats.requested + 1);
      Commit(me, M.Plain, M.BootEnqueued(k, left), was);
    }

    method BootEnqueued(me: nat, k: nat, left: nat)
      requires At(me, M.BootEnqueued(k, left))
      modifies this
      ensures Took(IsOwn(me), old(acts), acts, 1)
      ensures At(me, M.BootInflight(k, left))
    {
      ghost var was := State();
      stats := stats.(enqueued := stats.enqueued + 1);
      Commit(me, M.Plain, M.BootInflight(k, left), was);
    }

    method BootInflight(me: nat, k: nat, left: nat)
      requires At(me, M.BootInflight(k, left))
      modifies this
      ensures Took(IsOwn(me), old(acts), acts, 1)
      ensures At(me, M.BootSend(k, left))
    {
      ghost var was := State();
      stats := stats.(inflight := stats.inflight + 1);
      Commit(me, M.Plain, M.BootSend(k, left), was);
    }

    // The bootstrap's send has no done case: on a full queue it blocks.
    method BootSend(me: nat, k: nat, left: nat) returns (sent: bool)
      requires left > 0 && At(me, M.BootSend(k, left))
      modifies this
      ensures At(me, if sent then M.Boot(k, left - 1) else M.BootSend(k, left))
      ensures Took(IsOwn(me), old(acts), acts, if sent then 1 else 0)
      ensures sent <==> old(sessions[k].queued) < REQ_CH_SIZE
    {
      sent := sessions[k].queued < REQ_CH_SIZE;
      if sent {
        ghost var was := State();
        Give(k);
        Commit(me, M.Plain, M.Boot(k, left - 1), was);
      }
    }

    method BootOne(me: nat, k: nat, left: nat) returns (sent: bool)
      requires left > 0 && At(me, M.Boot(k, left))
      modifies this
      ensures At(me, if sent then M.Boot(k, left - 1) else M.BootSend(k, left))
      ensures Took(IsOwn(me), old(acts), acts, if sent then 4 else 3)
    {
      BootRequested(me, k, left);
      BootEnqueued(me, k, left);
      BootInflight(me, k, left);
      sent := BootSend(me, k, left);
    }

    // bootstrapReqWorkConn.
    method Bootstrap(me: nat, k: nat, n: nat) returns (ended: bool)
      requires At(me, M.Boot(k, n))
      modifies this
      ensures ended ==> At(me, M.Registering(k)) && Took(IsOwn(me), old(acts), acts, 4 * n + 1)
      ensures old(acts) <= acts
      ensures !ended ==> me < |threads| && threads[me].BootSend? && At(me, threads[me])
    {
      for i := 0 to n
        invariant At(me, M.Boot(k, n - i)) && Took(IsOwn(me), old(acts), acts, 4 * i)
      {
        ended := BootOne(me, k, n - i);
        if !ended {
          return;
        }
      }
      EndBoot(me, k);
      ended := true;
    }

    method EndBoot(me: nat, k: nat)
      requires At(me, M.Boot(k, 0))
      modifies this
      ensures Took(IsOwn(me), old(acts), acts, 1)
      ensures At(me, M.Registering(k))
    {
      Commit(me, M.Plain, M.Registering(k), State());
    }

    // controlManager.Register: the entry there is, if any, is cancelled and replaced.
    method Register(k: nat)
      requires k < |sessions|
      modifies this`entries, this`sessions, this`history
      ensures View() == M.Register(old(View()), k)
    {
      var run := sessions[k].run;
      if run in entries {
        sessions := M.Cancel(sessions, entries[run]);
      }
      entries := entries[run := k];
      sessions := sessions[k := sessions[k].(registered := true)];
      history := history.(latest := history.latest[run := k]);
    }

    // controlManager.Remove: the entry goes, whose ever it is.
    method Remove(k: nat)
      requires k < |sessions|
      modifies this`entries, this`history
      ensures View() == M.Remove(old(View()), k)
    {
      var run := sessions[k].run;
      if run in entries && entries[run] != k {
        history := history.(stale := history.stale[run := M.Stale(history, run) + 1]);
      }
      entries := entries - {run};
    }

    method RegisterStep(me: nat, k: nat)
      requires At(me, M.Registering(k))
      modifies this
      ensures Took(IsOwn(me), old(acts), acts, 1)
      ensures At(me, M.Serving(k))
    {
      ghost var was := State();
      Register(k);
      Commit(me, M.Plain, M.Serving(k), was);
    }

    method RemoveStep(me: nat, k: nat)
      requires At(me, M.Removing(k))
      modifies this
      ensures Took(IsOwn(me), old(acts), acts, 1)
      ensures At(me, M.Cleaned(k))
    {
      ghost var was := State();
      Remove(k);
      Commit(me, M.Plain, M.Cleaned(k), was);
    }

    method Cancel(me: nat, k: nat)
      requires At(me, M.Cancelling(k))
      modifies this
      ensures Took(IsOwn(me), old(acts), acts, 1)
      ensures At(me, M.Removing(k))
    {
      ghost var was := State();
      sessions := M.Cancel(sessions, k);
      Commit(me, M.Plain, M.Removing(k), was);
    }

    // handleLogin from the context on; it gets past its bootstrap unless the queue fills
    // up for good.
    method HandleLogin(run: M.RunId, poolCount: int) returns (ended: bool, me: nat, k: nat)
      requires Valid()
      modifies this
      ensures old(acts) <= acts && me == |old(threads)|
      ensures ended ==> At(me, M.Cleaned(k))
      ensures ended ==> Took(IsOwn(me), old(acts), acts, 4 * (if poolCount > 0 then poolCount else 0) + 5)
      ensures !ended ==> me < |threads| && threads[me].BootSend? && At(me, threads[me])
    {
      var left;
      me, k, left := Open(run, poolCount);
      Yield(me);
      ended := Bootstrap(me, k, left);
      if ended {
        Serve(me, k);
      }
    }

    // controlLoop, until the connection ends.
    method ControlLoop(me: nat, k: nat)
      requires At(me, M.Serving(k))
      modifies this
      ensures Took(IsOwn(me), old(acts), acts, 1)
      ensures At(me, M.Cancelling(k))
    {
      Commit(me, M.Plain, M.Cancelling(k), State());
    }

    // Register, controlLoop, and the first two steps of cleanupControlSession.
    method Serve(me: nat, k: nat)
      requires At(me, M.Registering(k))
      modifies this
      ensures Took(IsOwn(me), old(acts), acts, 4)
      ensures At(me, M.Cleaned(k))
    {
      RegisterStep(me, k);
      ControlLoop(me, k);
      Cancel(me, k);
      RemoveStep(me, k);
    }

    // ---- the session's writer ----------------------------------------------------------------

    method SeesDone(me: nat, k: nat) returns (done: bool)
      requires At(me, M.Head(k))
      modifies this
      ensures Took(IsOwn(me), old(acts), acts, 1)
      ensures At(me, if done then M.WriterExited(k) else M.Fast(k))
    {
      done := sessions[k].cancelled;
      Commit(me, M.Plain, if done then M.WriterExited(k) else M.Fast(k), State());
    }

    method ReceiveFast(me: nat, k: nat) returns (received: bool)
      requires At(me, M.Fast(k))
      modifies this
      ensures Took(IsOwn(me), old(acts), acts, 1)
      ensures At(me, if received then M.WriteSent(k, 1, true) else M.Select(k))
    {
      ghost var was := State();
      received := sessions[k].queued > 0;
      if received {
        Take(k);
        Commit(me, M.Plain, M.WriteSent(k, 1, true), was);
      } else {
        Commit(me, M.Plain, M.Select(k), was);
      }
    }

    predicate IsReady(k: nat, r: Ready)
      requires k < |sessions|
      reads this
    {
      match r
      case Signal => sessions[k].queued > 0
      case Done => sessions[k].cancelled
      case Otherwise => sessions[k].registered || sessions[k].taken > 0
      case Nothing => true
    }

    // The select over all channels; sendCh and the timer are `Otherwise`. With nothing
    // ready it blocks.
    method ReceiveAny(me: nat, k: nat) returns (r: Ready)
      requires At(me, M.Select(k))
      modifies this
      ensures Took(IsOwn(me), old(acts), acts, if r.Nothing? then 0 else 1)
      ensures At(me, match r case Signal => M.WriteSent(k, 1, true) case Done => M.WriterExited(k)
                             case Otherwise => M.Other(k) case Nothing => M.Select(k))
    {
      ghost var was := State();
      var prefer: Ready := *;
      r := prefer;
      if !IsReady(k, r) {
        r := Nothing;
      }
      match r
      case Signal =>
        Take(k);
        Commit(me, M.Plain, M.WriteSent(k, 1, true), was);
      case Done => Commit(me, M.Done, M.WriterExited(k), was);
      case Otherwise => Commit(me, M.Aside, M.Other(k), was);
      case Nothing =>
    }

    method AddSent(me: nat, k: nat, count: nat, first: bool)
      requires At(me, M.WriteSent(k, count, first))
      modifies this
      ensures Took(IsOwn(me), old(acts), acts, 1)
      ensures At(me, M.WriteInflight(k, count, first))
    {
      ghost var was := State();
      stats := stats.(sent := stats.sent + count);
      Commit(me, M.Plain, M.WriteInflight(k, count, first), was);
    }

    method SubInflight(me: nat, k: nat, count: nat, first: bool)
      requires At(me, M.WriteInflight(k, count, first))
      modifies this
      ensures Took(IsOwn(me), old(acts), acts, 1)
      ensures At(me, M.WriteOut(k, count, first))
    {
      ghost var was := State();
      stats := stats.(inflight := stats.inflight - count);
      Commit(me, M.Plain, M.WriteOut(k, count, first), was);
    }

    // writeReq; the write itself may fail, and so may the flush of a full batch after it.
    method WriteReq(me: nat, k: nat, count: nat, first: bool) returns (ok: bool)
      requires At(me, M.WriteSent(k, count, first))
      modifies this
      ensures Took(IsOwn(me), old(acts), acts, 3)
      ensures At(me, if !ok then M.WriterExited(k) else if first then M.Limit(k) else M.Head(k))
    {
      AddSent(me, k, count, first);
      SubInflight(me, k, count, first);
      ok := WriteOut(me, k, count, first);
    }

    method WriteOut(me: nat, k: nat, count: nat, first: bool) returns (ok: bool)
      requires At(me, M.WriteOut(k, count, first))
      modifies this
      ensures Took(IsOwn(me), old(acts), acts, 1)
      ensures At(me, if !ok then M.WriterExited(k) else if first then M.Limit(k) else M.Head(k))
    {
      var written: bool := *;
      var flushed: bool := *;
      ok := written && (flushed || !M.FlushesAtOnce(count, first));
      var c := if ok then M.Plain else if written then M.Aside else M.Fail;
      Commit(me, c, if !ok then M.WriterExited(k) else if first then M.Limit(k) else M.Head(k), State());
    }

    method TakeMore(me: nat, k: nat, limit: nat, batch: nat)
      requires At(me, M.Batch(k, limit, batch)) && batch < limit && sessions[k].queued > 0
      modifies this
      ensures Took(IsOwn(me), old(acts), acts, 1)
      ensures At(me, M.Batch(k, limit, batch + 1))
    {
      ghost var was := State();
      Take(k);
      Commit(me, M.Plain, M.Batch(k, limit, batch + 1), was);
    }

    method EndBatch(me: nat, k: nat, limit: nat, batch: nat)
      requires At(me, M.Batch(k, limit, batch)) && (batch >= limit || sessions[k].queued == 0)
      modifies this
      ensures Took(IsOwn(me), old(acts), acts, 1)
      ensures At(me, if batch == 0 then M.Head(k) else M.WriteSent(k, batch, false))
    {
      Commit(me, M.Plain, if batch == 0 then M.Head(k) else M.WriteSent(k, batch, false), State());
    }

    // Up to `limit` signals, without blocking.
    method TakeBatch(me: nat, k: nat, limit: nat) returns (batch: nat)
      requires limit > 0 && At(me, M.Batch(k, limit, 0))
      modifies this
      ensures batch <= limit && Took(IsOwn(me), old(acts), acts, batch + 1)
      ensures At(me, if batch == 0 then M.Head(k) else M.WriteSent(k, batch, false))
    {
      batch := 0;
      while batch < limit && sessions[k].queued > 0
        invariant batch <= limit && At(me, M.Batch(k, limit, batch)) && Took(IsOwn(me), old(acts), acts, batch)
        decreases limit - batch
      {
        TakeMore(me, k, limit, batch);
        batch := batch + 1;
      }
      EndBatch(me, k, limit, batch);
    }

    // batchLimit, from the length of reqCh at this moment.
    method PickLimit(me: nat, k: nat) returns (limit: nat)
      requires At(me, M.Limit(k))
      modifies this
      ensures limit == BatchLimit(old(sessions[k].queued)) && Took(IsOwn(me), old(acts), acts, 1)
      ensures At(me, M.Batch(k, limit, 0))
    {
      limit := BatchLimit(sessions[k].queued);
      Commit(me, M.Plain, M.Batch(k, limit, 0), State());
    }

    // The write of a batch, if there is one.
    method WriteBatch(me: nat, k: nat, batch: nat) returns (ok: bool)
      requires At(me, if batch == 0 then M.Head(k) else M.WriteSent(k, batch, false))
      modifies this
      ensures Took(IsOwn(me), old(acts), acts, if batch > 0 then 3 else 0)
      ensures At(me, if ok then M.Head(k) else M.WriterExited(k))
    {
      ok := true;
      if batch > 0 {
        ok := WriteReq(me, k, batch, false);
      }
    }

    // writeReqBatch.
    method WriteReqBatch(me: nat, k: nat) returns (ok: bool, batch: nat)
      requires At(me, M.Limit(k))
      modifies this
      ensures batch <= BatchLimit(old(sessions[k].queued))
      ensures Took(IsOwn(me), old(acts), acts, if batch > 0 then batch + 5 else 2)
      ensures At(me, if ok then M.Head(k) else M.WriterExited(k))
    {
      var limit := PickLimit(me, k);
      batch := TakeBatch(me, k, limit);
      ok := WriteBatch(me, k, batch);
    }

    // One signal on its own, then a batch.
    method Refill(me: nat, k: nat) returns (ok: bool)
      requires At(me, M.WriteSent(k, 1, true))
      modifies this
      ensures old(acts) <= acts
      ensures At(me, if ok then M.Head(k) else M.WriterExited(k))
    {
      ok := WriteReq(me, k, 1, true);
      if ok {
        var batch;
        ok, batch := WriteReqBatch(me, k);
      }
    }

    // A response or a tick; its writes may fail.
    method HandleOther(me: nat, k: nat) returns (ok: bool)
      requires At(me, M.Other(k))
      modifies this
      ensures Took(IsOwn(me), old(acts), acts, 1)
      ensures At(me, if ok then M.Head(k) else M.WriterExited(k))
    {
      ok := *;
      Commit(me, if ok then M.Plain else M.Fail, if ok then M.Head(k) else M.WriterExited(k), State());
    }

    // The blocking select and what follows it.
    method Wait(me: nat, k: nat) returns (r: Turned)
      requires At(me, M.Select(k))
      modifies this
      ensures old(acts) <= acts
      ensures At(me, Stands(k, r))
    {
      var ready := ReceiveAny(me, k);
      var ok := false;
      match ready {
        case Done =>
        case Otherwise => ok := HandleOther(me, k);
        case Signal => ok := Refill(me, k);
        case Nothing => return Waiting;
      }
      r := if ok then Onward else Exited;
    }

    // One turn of the writer's loop.
    method Turn(me: nat, k: nat) returns (r: Turned)
      requires At(me, M.Head(k))
      modifies this
      ensures old(acts) <= acts
      ensures At(me, Stands(k, r))
    {
      var done := SeesDone(me, k);
      if done {
        return Exited;
      }
      var received := ReceiveFast(me, k);
      if received {
        var ok := Refill(me, k);
        r := if ok then Onward else Exited;
      } else {
        r := Wait(me, k);
      }
    }
  }

  function Stands(k: nat, r: Turned): M.Pc {
    match r
    case Onward => M.Head(k)
    case Exited => M.WriterExited(k)
    case Waiting => M.Select(k)
  }

  // What every schedule keeps.
  lemma Sound(s: Server)
    requires s.Valid()
    ensures A.Inv(s.State()) && D.Inv(s.State())
  {
    A.Reachable(s.acts);
    D.Reachable(s.acts);
  }

  lemma EntryInRange(s: Server, run: M.RunId)
    requires s.Valid() && run in s.entries
    ensures s.entries[run] < |s.sessions|
  {
    D.EntryIsLatest(s.acts, run);
  }

  // The counters at rest, in the words of stats.go: what was requested was enqueued or
  // dropped, and what is in flight is enqueued, not sent, and still in some queue.
  lemma SnapshotAtRest(s: Server)
    requires s.Valid() && A.AtRest(s.State())
    ensures s.stats.requested == s.stats.enqueued + s.stats.dropped
    ensures s.stats.inflight == s.stats.enqueued - s.stats.sent == A.Waiting(s.View())
  {
    A.SignalsAccounted(s.acts);
  }
}
