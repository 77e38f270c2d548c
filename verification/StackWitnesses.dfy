// Runs of the composed server in which the end of one session closes the pool of a live
// other one.
module StackWitnesses {
  import opened Wrappers
  import opened ServerStack
  import P = PoolMachine
  import C = ControlPlane
  import D = SessionDisplacement
  import ControlWitnesses

  lemma Extend(acts: seq<Action>, w: Stack, a: Action) returns (longer: seq<Action>, v: Stack)
    requires After(New(), acts) == Some(w) && Enabled(w, a)
    ensures longer == acts + [a] && v == Next(w, a) && After(New(), longer) == Some(v)
  {
    longer, v := acts + [a], Next(w, a);
    assert longer[..|longer| - 1] == acts;
  }

  lemma CallsStay(s: C.System, a: C.Action)
    requires C.Enabled(s, a)
    ensures (a.Call? || exists p :: p in s.threads && IsCall(p)) ==> exists q :: q in C.Next(s, a).threads && IsCall(q)
  {
    var ts := C.Next(s, a).threads;
    if a.Call? {
      assert ts[|s.threads|] in ts;
    } else if p :| p in s.threads && IsCall(p) {
      var i :| 0 <= i < |s.threads| && s.threads[i] == p;
      assert IsCall(ts[i]) && ts[i] in ts;
    }
  }

  // A run of the control path alone, without refill callers, is a run of the server.
  lemma {:induction false} Lifted(acts: seq<C.Action>) returns (lifted: seq<Action>, w: Stack)
    requires C.After(C.New(), acts).Some?
    requires forall p | p in C.After(C.New(), acts).value.threads :: !IsCall(p)
    ensures After(New(), lifted) == Some(w)
    ensures w == Stack(C.After(C.New(), acts).value, [], map[], map[], {}, false, w.tally)
  {
    if acts == [] {
      lifted, w := [], New();
    } else {
      var front, a := acts[..|acts| - 1], acts[|acts| - 1];
      CallsStay(C.After(C.New(), front).value, a);
      lifted, w := Lifted(front);
      lifted, w := Extend(lifted, w, Control(a));
    }
  }

  // Session 0 of run r has cleaned up, its successor is live, the run has no pool in the
  // registry, and the pool it had has these goroutines.
  ghost predicate SuccessorAlone(w: Stack, r: string, ts: seq<P.Pc>) {
    && w.control.threads == [C.Cleaned(0), C.Head(0), C.Serving(1), C.Head(1)]
    && |w.control.g.sessions| == 2 && D.IsLive(r, w.control.g.sessions[1]) == 1
    && !w.crashed && r !in w.registry && |w.pools| == 1 && w.pools[0].run == r && w.pools[0].pool.threads == ts
  }

  lemma Notified(r: string) returns (acts: seq<Action>, w: Stack)
    ensures After(New(), acts) == Some(w) && SuccessorAlone(w, r, [P.CloseEnter])
    ensures w.pools[0].pool.g.gate == P.Gate(false, false, P.Fresh, false)
  {
    var control, s := ControlWitnesses.DisplacedCleanupEvicts(r);
    acts, w := Lifted(control);
    acts, w := Extend(acts, w, NewPool(r, [1]));
    assert w.pools == [Inst(r, P.New([1]))] && w.registry[r] == 0;
    acts, w := Extend(acts, w, Notify(0));
  }

  // A step of the only pool that does not go through requestFn.
  lemma PoolStepOnly(w: Stack)
    requires !w.crashed && |w.pools| == 1 && P.Enabled(w.pools[0].pool, P.Run(0))
    requires !P.Next(w.pools[0].pool, P.Run(0)).g.gate.fault
    requires !w.pools[0].pool.threads[0].Serve? && !w.pools[0].pool.threads[0].InFn?
    ensures Enabled(w, PoolStep(0, P.Run(0)))
    ensures Next(w, PoolStep(0, P.Run(0))) == w.(pools := [w.pools[0].(pool := P.Next(w.pools[0].pool, P.Run(0)))])
  {
  }

  lemma CloseEnters(s: P.Pool)
    requires s.threads == [P.CloseEnter] && s.g.gate == P.Gate(false, false, P.Fresh, false)
    ensures P.Enabled(s, P.Run(0)) && P.Next(s, P.Run(0)).threads == [P.CloseMark] && !P.Next(s, P.Run(0)).g.gate.fault
  {
  }

  lemma CloseMarks(s: P.Pool)
    requires s.threads == [P.CloseMark] && !s.g.gate.fault
    ensures P.Enabled(s, P.Run(0)) && P.Next(s, P.Run(0)).threads == [P.CloseChan]
    ensures P.Next(s, P.Run(0)).g.gate.shut && !P.Next(s, P.Run(0)).g.gate.fault
  {
  }

  lemma Entered(r: string) returns (acts: seq<Action>, w: Stack)
    ensures After(New(), acts) == Some(w) && SuccessorAlone(w, r, [P.CloseMark])
    ensures !w.pools[0].pool.g.gate.fault
  {
    acts, w := Notified(r);
    CloseEnters(w.pools[0].pool);
    PoolStepOnly(w);
    acts, w := Extend(acts, w, PoolStep(0, P.Run(0)));
  }

  // The successor of a displaced session is live and has its run's pool; the displaced
  // session's OnControlClose closes that pool and takes it off the registry.
  lemma SuccessorsPoolCloses(r: string) returns (acts: seq<Action>, w: Stack)
    ensures After(New(), acts) == Some(w) && SuccessorAlone(w, r, [P.CloseChan])
    ensures w.pools[0].pool.g.gate.shut
  {
    acts, w := Entered(r);
    CloseMarks(w.pools[0].pool);
    PoolStepOnly(w);
    acts, w := Extend(acts, w, PoolStep(0, P.Run(0)));
  }

  // The same without displacement: session 0 ended by itself, session 1 is its run's entry
  // and live, and no Remove was done by a session that was not the entry. Still the end of
  // session 0 starts the Close of session 1's pool.
  lemma UndisplacedPoolCloses(r: string) returns (acts: seq<Action>, w: Stack)
    ensures After(New(), acts) == Some(w) && SuccessorAlone(w, r, [P.CloseEnter])
    ensures w.control.g.entries == map[r := 1] && C.Stale(w.control.g.history, r) == 0
  {
    var control, s := ControlWitnesses.Succeeds(r);
    acts, w := Lifted(control);
    acts, w := Extend(acts, w, NewPool(r, [1]));
    assert w.pools == [Inst(r, P.New([1]))] && w.registry[r] == 0;
    acts, w := Extend(acts, w, Notify(0));
  }
}
