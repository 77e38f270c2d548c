// Where the composed server may come to rest: with all refill demand passed on, or with
// workers whose signal waits for a writer that has gone.
module StackRest {
  import opened Wrappers
  import opened Batching
  import opened Sums
  import opened ServerStack
  import P = PoolMachine
  import G = PoolGuarantees
  import C = ControlPlane
  import D = SessionDisplacement
  import W = SessionWriters

  // ---- a worker's call ---------------------------------------------------------------

  // A goroutine that asks on behalf of run r: it looks r up, or has found a session of r.
  predicate ForRun(s: C.System, p: C.Pc, r: string) {
    && (p.Lookup? ==> p.run == r)
    && (C.SessionOf(p).Some? ==> p.k < |s.g.sessions| && s.g.sessions[p.k].run == r)
  }

  // While worker i of pool j is inside requestFn, a control goroutine runs it, for the
  // pool's own run id.
  predicate LinkOk(w: Stack, j: nat, i: nat) {
    j < |w.pools| && i < |w.pools[j].pool.threads| && w.pools[j].pool.threads[i].InFn? ==>
      && (j, i) in w.calls && w.calls[(j, i)] < |w.control.threads|
      && IsCall(w.control.threads[w.calls[(j, i)]])
      && ForRun(w.control, w.control.threads[w.calls[(j, i)]], w.pools[j].run)
  }

  ghost predicate Linked(w: Stack) {
    forall j: nat, i: nat :: LinkOk(w, j, i)
  }

  lemma RunsStay(s: C.System, a: C.Action)
    requires C.Enabled(s, a)
    ensures |s.g.sessions| <= |C.Next(s, a).g.sessions|
    ensures forall k | 0 <= k < |s.g.sessions| :: C.Next(s, a).g.sessions[k].run == s.g.sessions[k].run
  {
  }

  lemma CallMoves(g: C.Shared, p: C.Pc, c: C.Choice)
    requires C.InRange(g, p) && C.CanCall(g, p, c)
    ensures IsCall(C.MoveCall(g, p, c).1)
    ensures p.Lookup? ==>
              C.MoveCall(g, p, c).1 == if p.run in g.entries then C.CountRequested(g.entries[p.run]) else C.CallerDone
    ensures !p.Lookup? && C.SessionOf(C.MoveCall(g, p, c).1).Some? ==> C.MoveCall(g, p, c).1.k == p.k
  {
  }

  lemma CallStays(s: C.System, a: C.Action, n: nat, r: string)
    requires D.Inv(s) && C.Enabled(s, a) && n < |s.threads| && IsCall(s.threads[n]) && ForRun(s, s.threads[n], r)
    ensures var t := C.Next(s, a); n < |t.threads| && IsCall(t.threads[n]) && ForRun(t, t.threads[n], r)
  {
    RunsStay(s, a);
    if a.Run? && a.i == n {
      CallMoves(s.g, s.threads[n], a.choice);
      assert D.EntryOk(s, r);
    }
  }

  // Which workers are inside requestFn after a step.
  lemma InFnFrom(s: P.Pool, b: P.Action, i: nat)
    requires P.Enabled(s, b) && i < |P.Next(s, b).threads| && P.Next(s, b).threads[i].InFn?
    ensures i < |s.threads|
    ensures s.threads[i].InFn? || (b == P.Run(i) && s.threads[i].Serve?)
  {
  }

  lemma PoolStepLinked(w: Stack, j: nat, b: P.Action)
    requires Linked(w) && PoolEnabled(w, j, b)
    ensures Linked(StepPool(w, j, b))
  {
    var x := w.pools[j];
    RunsStay(w.control, C.Call(x.run));
    var v := StepPool(w, j, b);
    forall l: nat, i: nat ensures LinkOk(v, l, i) {
      assert LinkOk(w, l, i);
      if l == j && i < |v.pools[j].pool.threads| && v.pools[j].pool.threads[i].InFn? {
        InFnFrom(x.pool, b, i);
      }
    }
  }

  lemma ControlLinked(w: Stack, a: C.Action)
    requires Linked(w) && D.Inv(w.control) && Enabled(w, Control(a))
    ensures Linked(Next(w, Control(a)))
  {
    var v := Next(w, Control(a));
    forall j: nat, i: nat ensures LinkOk(v, j, i) {
      assert LinkOk(w, j, i);
      if j < |w.pools| && i < |w.pools[j].pool.threads| && w.pools[j].pool.threads[i].InFn? {
        CallStays(w.control, a, w.calls[(j, i)], w.pools[j].run);
      }
    }
  }

  lemma CloseRunLinked(w: Stack, r: string)
    requires Linked(w)
    ensures Linked(CloseRun(w, r))
  {
    var v := CloseRun(w, r);
    forall j: nat, i: nat ensures LinkOk(v, j, i) {
      assert LinkOk(w, j, i);
    }
  }

  lemma LinkedKept(w: Stack, a: Action)
    requires Linked(w) && D.Inv(w.control) && Enabled(w, a)
    ensures Linked(Next(w, a))
  {
    match a
    case Control(b) => ControlLinked(w, b);
    case PoolStep(j, b) => PoolStepLinked(w, j, b);
    case Notify(i) =>
      var u := w.(told := w.told + {i});
      assert forall j: nat, l: nat :: LinkOk(w, j, l) ==> LinkOk(u, j, l);
      CloseRunLinked(u, w.control.g.sessions[w.control.threads[i].k].run);
    case NewPool(r, capacity) =>
      assert forall j: nat, l: nat :: LinkOk(w, j, l) ==> LinkOk(Next(w, a), j, l);
  }

  lemma ControlSound(acts: seq<Action>)
    requires After(New(), acts).Some?
    ensures D.Inv(After(New(), acts).value.control) && W.Inv(After(New(), acts).value.control)
  {
    Reachable(acts);
    var control :| C.After(C.New(), control) == Some(After(New(), acts).value.control);
    W.Reachable(control);
  }

  lemma {:induction false} AlwaysLinked(acts: seq<Action>)
    requires After(New(), acts).Some?
    ensures Linked(After(New(), acts).value)
  {
    if acts != [] {
      AlwaysLinked(acts[..|acts| - 1]);
      ControlSound(acts[..|acts| - 1]);
      LinkedKept(After(New(), acts[..|acts| - 1]).value, acts[|acts| - 1]);
    }
  }

  // ---- and a call's worker -----------------------------------------------------------------

  // Worker i of pool j is inside requestFn and goroutine n runs it.
  predicate Attends(w: Stack, j: nat, i: nat, n: nat) {
    && j < |w.pools| && i < |w.pools[j].pool.threads| && w.pools[j].pool.threads[i].InFn?
    && (j, i) in w.calls && w.calls[(j, i)] == n
  }

  // A call under way has its worker waiting for it: no worker leaves requestFn early.
  ghost predicate Attended(w: Stack, n: nat) {
    n < |w.control.threads| && C.InCall(w.control.threads[n]) ==> exists j: nat, i: nat :: Attends(w, j, i, n)
  }

  lemma OnlyCallsCall(s: C.System, a: C.Action, n: nat)
    requires C.Enabled(s, a) && n < |C.Next(s, a).threads| && C.InCall(C.Next(s, a).threads[n])
    ensures (n < |s.threads| && C.InCall(s.threads[n])) || (a.Call? && n == |s.threads|)
  {
  }

  lemma InFnStays(s: P.Pool, b: P.Action, i: nat)
    requires P.Enabled(s, b) && i < |s.threads| && s.threads[i].InFn? && b != P.Run(i)
    ensures i < |P.Next(s, b).threads| && P.Next(s, b).threads[i].InFn?
  {
  }

  lemma PoolStepAttended(w: Stack, j: nat, b: P.Action, n: nat)
    requires Attended(w, n) && PoolEnabled(w, j, b)
    ensures Attended(StepPool(w, j, b), n)
  {
    var x := w.pools[j];
    var v := StepPool(w, j, b);
    if n < |v.control.threads| && C.InCall(v.control.threads[n]) {
      if n < |w.control.threads| {
        var l: nat, i: nat :| Attends(w, l, i, n);
        if l == j {
          InFnStays(x.pool, b, i);
        }
        assert Attends(v, l, i, n);
      } else {
        assert Attends(v, j, b.i, n);
      }
    }
  }

  lemma AttendedKept(w: Stack, a: Action, n: nat)
    requires Attended(w, n) && Enabled(w, a)
    ensures Attended(Next(w, a), n)
  {
    var v := Next(w, a);
    match a
    case PoolStep(j, b) => PoolStepAttended(w, j, b, n);
    case Control(b) =>
      if n < |v.control.threads| && C.InCall(v.control.threads[n]) {
        OnlyCallsCall(w.control, b, n);
        var j: nat, i: nat :| Attends(w, j, i, n);
        assert Attends(v, j, i, n);
      }
    case _ =>
      if n < |v.control.threads| && C.InCall(v.control.threads[n]) {
        var j: nat, i: nat :| Attends(w, j, i, n);
        assert Attends(v, j, i, n);
      }
  }

  // In every run a call under way is waited for by the worker that made it.
  lemma {:induction false} AlwaysAttended(acts: seq<Action>, n: nat)
    requires After(New(), acts).Some?
    ensures Attended(After(New(), acts).value, n)
  {
    if acts != [] {
      AlwaysAttended(acts[..|acts| - 1], n);
      AttendedKept(After(New(), acts[..|acts| - 1]).value, acts[|acts| - 1], n);
    }
  }

  // ---- at rest ---------------------------------------------------------------------------

  // Nothing can happen any more but new calls, new connections and logins, the end of a
  // session, and a response or tick for a writer.
  ghost predicate Resting(w: Stack) {
    && !w.crashed
    && (forall j: nat, b | PoolEnabled(w, j, b) :: b.Spawn?)
    && W.Stopped(w.control)
  }

  // Worker i of pool j waits inside requestFn for room in the queue of a session of the
  // pool's run that is not cancelled and whose writer has exited.
  ghost predicate Stuck(w: Stack, j: nat, i: nat) {
    && j < |w.pools| && i < |w.pools[j].pool.threads| && w.pools[j].pool.threads[i].InFn?
    && (j, i) in w.calls && w.calls[(j, i)] < |w.control.threads|
    && var p := w.control.threads[w.calls[(j, i)]];
       && p.Offer? && p.k < |w.control.g.sessions| && w.control.g.sessions[p.k].run == w.pools[j].run
       && w.control.g.sessions[p.k].queued >= REQ_CH_SIZE && !w.control.g.sessions[p.k].cancelled
       && C.WriterExited(p.k) in w.control.threads
  }

  // A caller that cannot go on waits for a session whose writer has exited.
  lemma BlockedCaller(s: C.System, n: nat)
    requires W.Inv(s) && W.Stopped(s) && n < |s.threads| && C.InRange(s.g, s.threads[n])
    requires C.InCall(s.threads[n])
    ensures s.threads[n].Offer? && s.g.sessions[s.threads[n].k].queued >= REQ_CH_SIZE
    ensures !s.g.sessions[s.threads[n].k].cancelled
    ensures C.WriterExited(s.threads[n].k) in s.threads
  {
    var p := s.threads[n];
    assert !C.Enabled(s, C.Run(n, C.Plain)) && !C.Enabled(s, C.Run(n, C.Done));
    FullMeansExited(s, p.k);
  }

  lemma FullMeansExited(s: C.System, k: nat)
    requires W.Inv(s) && W.Stopped(s) && k < |s.g.sessions| && s.g.sessions[k].queued > 0
    ensures C.WriterExited(k) in s.threads
  {
    assert Total(W.Writes(k), s.threads) == 1;
    SomeoneCounts(W.Writes(k), s.threads);
    var i :| 0 <= i < |s.threads| && W.IsWriter(k, s.threads[i]) > 0;
    var p := s.threads[i];
    assert p in s.threads && W.PlaceOk(s.g, p);
    assert !C.Enabled(s, C.Run(i, C.Plain));
  }

  // In the resting server a worker inside requestFn is stuck.
  lemma InFnIsStuck(acts: seq<Action>, j: nat, i: nat)
    requires After(New(), acts).Some? && Resting(After(New(), acts).value)
    requires var w := After(New(), acts).value;
             j < |w.pools| && i < |w.pools[j].pool.threads| && w.pools[j].pool.threads[i].InFn?
    ensures Stuck(After(New(), acts).value, j, i)
  {
    var w := After(New(), acts).value;
    AlwaysLinked(acts);
    AlwaysListed(acts);
    Reachable(acts);
    assert LinkOk(w, j, i);
    var n := w.calls[(j, i)];
    assert P.Enabled(w.pools[j].pool, P.Run(i));
    assert !PoolEnabled(w, j, P.Run(i));
    ControlSound(acts);
    assert w.control.threads[n] in w.control.threads && W.PlaceOk(w.control.g, w.control.threads[n]);
    BlockedCaller(w.control, n);
  }

  lemma InFnOwes(s: P.Pool, i: nat)
    requires P.RefillInv(s) && i < |s.threads| && s.threads[i].InFn?
    ensures s.g.refill.sent < s.g.refill.demand
  {
    TotalAtLeast(P.Carried, s.threads, i);
  }

  // Every other goroutine of a resting pool has ended or waits for a Close.
  lemma OthersIdle(w: Stack, j: nat)
    requires Resting(w) && Listed(w) && j < |w.pools|
    requires forall p | p in w.pools[j].pool.threads :: !p.InFn?
    ensures G.Quiet(w.pools[j].pool) && G.Idle(w.pools[j].pool)
  {
    var s := w.pools[j].pool;
    forall i | 0 <= i < |s.threads|
      ensures !P.CanMove(s.g, s.threads[i]) && !s.threads[i].GetWait?
    {
      assert s.threads[i] in s.threads;
      assert P.Enabled(s, P.Run(i)) ==> PoolEnabled(w, j, P.Run(i));
      assert P.Enabled(s, P.Expire(i)) ==> PoolEnabled(w, j, P.Expire(i));
    }
  }

  // Where the composed server rests, a pool has passed all its demand on if and only if
  // none of its workers is stuck.
  lemma RestIff(acts: seq<Action>, j: nat)
    requires After(New(), acts).Some? && Resting(After(New(), acts).value)
    requires j < |After(New(), acts).value.pools|
    ensures var w := After(New(), acts).value;
            w.pools[j].pool.g.refill.sent == w.pools[j].pool.g.refill.demand <==> forall i: nat :: !Stuck(w, j, i)
  {
    var w := After(New(), acts).value;
    var s := w.pools[j].pool;
    AlwaysListed(acts);
    Reachable(acts);
    assert PoolReached(s);
    var size, steps :| P.After(P.New(size), steps) == Some(s);
    P.Reachable(size, steps);
    if i :| 0 <= i < |s.threads| && s.threads[i].InFn? {
      InFnIsStuck(acts, j, i);
      InFnOwes(s, i);
    } else {
      OthersIdle(w, j);
      G.IdleIsSettled(s);
    }
  }

  // In particular, once every session has ended, every pool has.
  lemma EndedMeansSettled(acts: seq<Action>, j: nat)
    requires After(New(), acts).Some? && Resting(After(New(), acts).value)
    requires j < |After(New(), acts).value.pools|
    ensures var w := After(New(), acts).value;
            var s := w.pools[j].pool;
            (forall x | x in w.control.g.sessions :: x.cancelled) ==> s.g.refill.sent == s.g.refill.demand
  {
    RestIff(acts, j);
  }
}
