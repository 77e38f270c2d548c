// The pools and the control path as cmd/drps/main.go wires them together: a pool's
// requestFn is ReqWorkConnFunc(runID), a work connection makes its run's pool, and the end
// of a session removes and closes the pool of its run id.
module ServerStack {
  import opened Wrappers
  import opened Sums
  import P = PoolMachine
  import C = ControlPlane
  import D = SessionDisplacement

  datatype Inst = Inst(run: string, pool: P.Pool)

  // Observers: requestFn calls started, those that found no entry, and requests counted
  // by a bootstrap.
  datatype Tally = Tally(started: nat, unfound: nat, booted: nat)

  // `calls` says which control goroutine runs requestFn for worker i of pool j; `told` are
  // the logins that have called OnControlClose; a panic in any pool ends the process.
  datatype Stack = Stack(
    control: C.System, pools: seq<Inst>, registry: map<string, nat>, calls: map<(nat, nat), nat>,
    told: set<nat>, crashed: bool, tally: Tally)

  datatype Action =
    | Control(a: C.Action)
    | NewPool(run: string, capacity: seq<int>)
    | PoolStep(j: nat, b: P.Action)
    | Notify(i: nat)

  function New(): Stack {
    Stack(C.New(), [], map[], map[], {}, false, Tally(0, 0, 0))
  }

  // A goroutine that runs requestFn.
  predicate IsCall(p: C.Pc) {
    C.InCall(p) || p.CallerDone?
  }

  // The worker's call has returned.
  predicate Returned(w: Stack, j: nat, i: nat) {
    (j, i) in w.calls && w.calls[(j, i)] < |w.control.threads| && w.control.threads[w.calls[(j, i)]].CallerDone?
  }

  predicate PoolEnabled(w: Stack, j: nat, b: P.Action) {
    && j < |w.pools| && P.Enabled(w.pools[j].pool, b)
    && (b.Run? && w.pools[j].pool.threads[b.i].InFn? ==> Returned(w, j, b.i))
    && !(b.Spawn? && b.entry.CloseEnter?)
  }

  predicate Enabled(w: Stack, a: Action) {
    !w.crashed &&
    match a
    case Control(b) => !b.Call? && C.Enabled(w.control, b)
    case NewPool(r, _) => r !in w.registry
    case PoolStep(j, b) => PoolEnabled(w, j, b)
    case Notify(i) => i < |w.control.threads| && w.control.threads[i].Cleaned? && i !in w.told
                      && w.control.threads[i].k < |w.control.g.sessions|
  }

  // A requestFn call that finds no entry, and a bootstrap that counts a request.
  function Unfound(s: C.System, a: C.Action): nat {
    if a.Run? && a.i < |s.threads| && s.threads[a.i].Lookup? && s.threads[a.i].run !in s.g.entries then 1 else 0
  }

  function Booted(s: C.System, a: C.Action): nat {
    if a.Run? && a.i < |s.threads| && s.threads[a.i].Boot? && s.threads[a.i].left > 0 then 1 else 0
  }

  function Starts(s: P.Pool, b: P.Action): nat {
    if b.Run? && b.i < |s.threads| && s.threads[b.i].Serve? then 1 else 0
  }

  function StepPool(w: Stack, j: nat, b: P.Action): Stack
    requires PoolEnabled(w, j, b)
  {
    var x := w.pools[j];
    var y := x.(pool := P.Next(x.pool, b));
    var v := w.(pools := w.pools[j := y], crashed := w.crashed || y.pool.g.gate.fault);
    if Starts(x.pool, b) == 1 then
      v.(control := C.Next(w.control, C.Call(x.run)), calls := w.calls[(j, b.i) := |w.control.threads|],
         tally := w.tally.(started := w.tally.started + 1))
    else v
  }

  // The run has a pool in the registry. (Where it has, the rest holds too: see Listed.)
  predicate HasPool(w: Stack, r: string) {
    r in w.registry && w.registry[r] < |w.pools| && P.Enabled(w.pools[w.registry[r]].pool, P.Spawn(P.CloseEnter))
  }

  // OnControlClose: registry.Remove closes the pool of the run id, whoever uses it.
  function CloseRun(w: Stack, r: string): Stack {
    if !HasPool(w, r) then w
    else
      var (j, x) := (w.registry[r], w.pools[w.registry[r]]);
      w.(registry := w.registry - {r},
         pools := w.pools[j := x.(pool := P.Next(x.pool, P.Spawn(P.CloseEnter)))])
  }

  function Next(w: Stack, a: Action): Stack
    requires Enabled(w, a)
  {
    match a
    case Control(b) =>
      w.(control := C.Next(w.control, b),
         tally := w.tally.(unfound := w.tally.unfound + Unfound(w.control, b),
                           booted := w.tally.booted + Booted(w.control, b)))
    case NewPool(r, capacity) =>
      w.(pools := w.pools + [Inst(r, P.New(capacity))], registry := w.registry[r := |w.pools|])
    case PoolStep(j, b) => StepPool(w, j, b)
    case Notify(i) =>
      CloseRun(w.(told := w.told + {i}), w.control.g.sessions[w.control.threads[i].k].run)
  }

  function After(w: Stack, acts: seq<Action>): Option<Stack> {
    if acts == [] then Some(w)
    else
      match After(w, acts[..|acts| - 1])
      case None => None
      case Some(v) =>
        var a := acts[|acts| - 1];
        if Enabled(v, a) then Some(Next(v, a)) else None
  }

  // ---- each side is a run of its own machine --------------------------------------------

  ghost predicate PoolReached(s: P.Pool) {
    exists size, acts :: P.After(P.New(size), acts) == Some(s)
  }

  ghost predicate ControlReached(s: C.System) {
    exists acts :: C.After(C.New(), acts) == Some(s)
  }

  lemma PoolGoesOn(s: P.Pool, b: P.Action)
    requires PoolReached(s) && P.Enabled(s, b)
    ensures PoolReached(P.Next(s, b))
  {
    var size, acts :| P.After(P.New(size), acts) == Some(s);
    assert (acts + [b])[..|acts|] == acts;
    assert P.After(P.New(size), acts + [b]) == Some(P.Next(s, b));
  }

  lemma ControlGoesOn(s: C.System, b: C.Action)
    requires ControlReached(s) && C.Enabled(s, b)
    ensures ControlReached(C.Next(s, b))
  {
    var acts :| C.After(C.New(), acts) == Some(s);
    assert (acts + [b])[..|acts|] == acts;
    assert C.After(C.New(), acts + [b]) == Some(C.Next(s, b));
  }

  ghost predicate Composed(w: Stack) {
    ControlReached(w.control) && forall j | 0 <= j < |w.pools| :: PoolReached(w.pools[j].pool)
  }

  lemma NewIsReached(capacity: seq<int>)
    ensures PoolReached(P.New(capacity)) && ControlReached(C.New())
  {
    assert P.After(P.New(capacity), []) == Some(P.New(capacity));
    assert C.After(C.New(), []) == Some(C.New());
  }

  lemma ComposedKept(w: Stack, a: Action)
    requires Composed(w) && Enabled(w, a)
    ensures Composed(Next(w, a))
  {
    match a
    case Control(b) => ControlGoesOn(w.control, b);
    case NewPool(r, capacity) => NewIsReached(capacity);
    case PoolStep(j, b) =>
      PoolGoesOn(w.pools[j].pool, b);
      ControlGoesOn(w.control, C.Call(w.pools[j].run));
    case Notify(i) =>
      var r := w.control.g.sessions[w.control.threads[i].k].run;
      if HasPool(w, r) {
        PoolGoesOn(w.pools[w.registry[r]].pool, P.Spawn(P.CloseEnter));
      }
  }

  // ---- what the pools have sent and what the control path has counted -------------------------

  // A worker inside requestFn, or back from it and not yet counted in refillSent.
  function Calling(p: P.Pc): int {
    if p.InFn? || p.CountSent? then 1 else 0
  }

  function Served(x: Inst): int {
    x.pool.g.refill.sent + Total(Calling, x.pool.threads)
  }

  function SentOf(x: Inst): int {
    x.pool.g.refill.sent
  }

  // A call that has not yet been counted as requested or found no entry.
  function Asking(p: C.Pc): int {
    if p.Lookup? || p.CountRequested? then 1 else 0
  }

  ghost predicate Balanced(w: Stack) {
    && w.tally.started == Total(Served, w.pools)
    && w.tally.started + w.tally.booted
       == w.tally.unfound + w.control.g.stats.requested + Total(Asking, w.control.threads)
  }

  lemma PoolMoveServes(g: P.Shared, p: P.Pc)
    requires P.CanMove(g, p)
    ensures var (h, q) := P.Move(g, p);
            h.refill.sent + Calling(q) == g.refill.sent + Calling(p) + if p.Serve? then 1 else 0
  {
  }

  lemma PoolServes(r: string, s: P.Pool, b: P.Action)
    requires P.Enabled(s, b)
    ensures Served(Inst(r, P.Next(s, b))) == Served(Inst(r, s)) + Starts(s, b)
  {
    match b
    case Spawn(p) => TotalAppend(Calling, s.threads, p);
    case Expire(i) => TotalUpdate(Calling, s.threads, i, P.TimeoutBump);
    case Run(i) =>
      PoolMoveServes(s.g, s.threads[i]);
      P.TotalAdvance(Calling, s.threads, i, P.Move(s.g, s.threads[i]).1);
  }

  lemma CallAsks(g: C.Shared, p: C.Pc, c: C.Choice)
    requires C.InRange(g, p) && C.CanCall(g, p, c)
    ensures var (h, q) := C.MoveCall(g, p, c);
            h.stats.requested + Asking(q) + (if p.Lookup? && p.run !in g.entries then 1 else 0)
            == g.stats.requested + Asking(p)
  {
  }

  lemma LoginAsks(g: C.Shared, p: C.Pc, c: C.Choice)
    requires C.InRange(g, p) && C.CanLogin(g, p, c)
    ensures var (h, q) := C.MoveLogin(g, p, c);
            && h.stats.requested == g.stats.requested + (if p.Boot? && p.left > 0 then 1 else 0)
            && Asking(q) == Asking(p) == 0
  {
  }

  lemma WriterAsks(g: C.Shared, p: C.Pc, c: C.Choice)
    requires C.InRange(g, p) && C.CanWrite(g, p, c)
    ensures var (h, q) := C.MoveWriter(g, p, c);
            h.stats.requested == g.stats.requested && Asking(q) == Asking(p) == 0
  {
  }

  lemma ControlAsks(s: C.System, b: C.Action)
    requires C.Enabled(s, b)
    ensures var t := C.Next(s, b);
            t.g.stats.requested + Total(Asking, t.threads) + Unfound(s, b)
            == s.g.stats.requested + Total(Asking, s.threads) + Booted(s, b) + if b.Call? then 1 else 0
  {
    match b
    case Login(r, n) =>
      var k := |s.g.sessions|;
      var boot := C.Boot(k, if n > 0 then n else 0);
      TotalAppend(Asking, s.threads, boot);
      TotalAppend(Asking, s.threads + [boot], C.Head(k));
      assert s.threads + [boot] + [C.Head(k)] == s.threads + [boot, C.Head(k)];
    case Call(r) => TotalAppend(Asking, s.threads, C.Lookup(r));
    case Run(i, c) =>
      var p := s.threads[i];
      TotalUpdate(Asking, s.threads, i, C.Move(s.g, p, c).1);
      if C.InCall(p) {
        CallAsks(s.g, p, c);
      } else if C.InLogin(p) {
        LoginAsks(s.g, p, c);
      } else {
        WriterAsks(s.g, p, c);
      }
  }

  lemma PoolStepBalanced(w: Stack, j: nat, b: P.Action)
    requires Balanced(w) && PoolEnabled(w, j, b)
    ensures Balanced(StepPool(w, j, b))
  {
    var x := w.pools[j];
    PoolServes(x.run, x.pool, b);
    TotalUpdate(Served, w.pools, j, x.(pool := P.Next(x.pool, b)));
    ControlAsks(w.control, C.Call(x.run));
  }

  lemma CloseRunBalanced(w: Stack, r: string)
    requires Balanced(w)
    ensures Balanced(CloseRun(w, r))
  {
    if HasPool(w, r) {
      var x := w.pools[w.registry[r]];
      PoolServes(x.run, x.pool, P.Spawn(P.CloseEnter));
      TotalUpdate(Served, w.pools, w.registry[r], x.(pool := P.Next(x.pool, P.Spawn(P.CloseEnter))));
    }
  }

  lemma BalancedKept(w: Stack, a: Action)
    requires Balanced(w) && Enabled(w, a)
    ensures Balanced(Next(w, a))
  {
    match a
    case Control(b) => ControlAsks(w.control, b);
    case NewPool(r, capacity) => TotalAppend(Served, w.pools, Inst(r, P.New(capacity)));
    case PoolStep(j, b) => PoolStepBalanced(w, j, b);
    case Notify(i) =>
      CloseRunBalanced(w.(told := w.told + {i}), w.control.g.sessions[w.control.threads[i].k].run);
  }

  // In the composed server, the control path is in a reachable state of ControlPlane and
  // every pool in one of PoolMachine, so what is proved of their states holds (for whether
  // the pools come to rest see StackRest); and the requests the pools have sent are those
  // the control path has counted or found no entry for.
  lemma {:induction false} Reachable(acts: seq<Action>)
    requires After(New(), acts).Some?
    ensures Composed(After(New(), acts).value) && Balanced(After(New(), acts).value)
  {
    if acts == [] {
      NewIsReached([]);
    } else {
      var front, a := acts[..|acts| - 1], acts[|acts| - 1];
      Reachable(front);
      ComposedKept(After(New(), front).value, a);
      BalancedKept(After(New(), front).value, a);
    }
  }

  // No worker is inside requestFn or about to count it, and no call is undecided.
  ghost predicate AtRest(w: Stack) {
    && (forall x | x in w.pools :: forall p | p in x.pool.threads :: Calling(p) == 0)
    && (forall p | p in w.control.threads :: Asking(p) == 0)
  }

  lemma {:induction false} ServedAtRest(xs: seq<Inst>)
    requires forall x | x in xs :: forall p | p in x.pool.threads :: Calling(p) == 0
    ensures Total(Served, xs) == Total(SentOf, xs)
  {
    if xs != [] {
      var ts := xs[0].pool.threads;
      assert xs[0] in xs && forall i | 0 <= i < |ts| :: ts[i] in ts;
      TotalZero(Calling, ts);
      assert forall x | x in xs[1..] :: x in xs;
      ServedAtRest(xs[1..]);
    }
  }

  // At rest, refillSent summed over all pools ever made is `requested` less what
  // bootstraps counted, plus the calls that found no entry.
  lemma SentIsRequested(acts: seq<Action>)
    requires After(New(), acts).Some? && AtRest(After(New(), acts).value)
    ensures var w := After(New(), acts).value;
            Total(SentOf, w.pools) == w.control.g.stats.requested - w.tally.booted + w.tally.unfound
  {
    Reachable(acts);
    var w := After(New(), acts).value;
    ServedAtRest(w.pools);
    assert forall i | 0 <= i < |w.control.threads| :: w.control.threads[i] in w.control.threads;
    TotalZero(Asking, w.control.threads);
  }

  // ---- whose pool a session's end closes ------------------------------------------------

  // The registry lists each run's own pool, and no pool has panicked.
  ghost predicate Listed(w: Stack) {
    && (forall r | r in w.registry :: w.registry[r] < |w.pools| && w.pools[w.registry[r]].run == r)
    && (!w.crashed ==> forall j | 0 <= j < |w.pools| :: !w.pools[j].pool.g.gate.fault)
  }

  lemma CloseRunListed(w: Stack, r: string)
    requires Listed(w)
    ensures Listed(CloseRun(w, r))
  {
  }

  lemma PoolStepListed(w: Stack, j: nat, b: P.Action)
    requires Listed(w) && PoolEnabled(w, j, b)
    ensures Listed(StepPool(w, j, b))
  {
  }

  lemma ListedKept(w: Stack, a: Action)
    requires Listed(w) && Enabled(w, a)
    ensures Listed(Next(w, a))
  {
    match a
    case PoolStep(j, b) => PoolStepListed(w, j, b);
    case Notify(i) =>
      CloseRunListed(w.(told := w.told + {i}), w.control.g.sessions[w.control.threads[i].k].run);
    case _ =>
  }

  lemma {:induction false} AlwaysListed(acts: seq<Action>)
    requires After(New(), acts).Some?
    ensures Listed(After(New(), acts).value)
  {
    if acts != [] {
      AlwaysListed(acts[..|acts| - 1]);
      ListedKept(After(New(), acts[..|acts| - 1]).value, acts[|acts| - 1]);
    }
  }

  // A session other than k is registered for run r and not cancelled.
  ghost predicate OtherLive(w: Stack, r: string, k: nat) {
    exists m :: 0 <= m < |w.control.g.sessions| && m != k && D.IsLive(r, w.control.g.sessions[m]) == 1
  }

  // From w to v the pool of run r leaves the registry and its Close starts.
  predicate Closes(w: Stack, v: Stack, r: string) {
    && r in w.registry && v.registry == w.registry - {r} && w.registry[r] < |w.pools| == |v.pools|
    && var (x, y) := (w.pools[w.registry[r]], v.pools[w.registry[r]]);
       x.run == y.run == r && y.pool.threads == x.pool.threads + [P.CloseEnter]
  }

  lemma OtherLiveIff(w: Stack, r: string, k: nat)
    requires k < |w.control.g.sessions| && w.control.g.sessions[k].cancelled
    ensures OtherLive(w, r, k) <==> Total(D.Live(r), w.control.g.sessions) > 0
  {
    var ss := w.control.g.sessions;
    TotalNonNegative(D.Live(r), ss);
    if Total(D.Live(r), ss) > 0 {
      SomeoneCounts(D.Live(r), ss);
    }
    if m :| 0 <= m < |ss| && m != k && D.IsLive(r, ss[m]) == 1 {
      TotalAtLeast(D.Live(r), ss, m);
    }
  }

  // The end of session k closes the pool of its run while another session of that run is
  // live if and only if the run has a pool in the registry and a live session at all: it
  // does not matter who was displaced, nor whose entry was removed.
  lemma ClosesLivePoolIff(acts: seq<Action>, i: nat)
    requires After(New(), acts).Some? && Enabled(After(New(), acts).value, Notify(i))
    ensures var w := After(New(), acts).value;
            var k := w.control.threads[i].k;
            var r := w.control.g.sessions[k].run;
            && (Closes(w, Next(w, Notify(i)), r) <==> r in w.registry)
            && (OtherLive(w, r, k) <==> Total(D.Live(r), w.control.g.sessions) > 0)
            && (Closes(w, Next(w, Notify(i)), r) && OtherLive(w, r, k) <==>
                  r in w.registry && Total(D.Live(r), w.control.g.sessions) > 0)
  {
    AlwaysListed(acts);
    Reachable(acts);
    var w := After(New(), acts).value;
    var p := w.control.threads[i];
    var control :| C.After(C.New(), control) == Some(w.control);
    D.Reachable(control);
    assert p in w.control.threads && D.PcOk(w.control.g, p);
    OtherLiveIff(w, w.control.g.sessions[p.k].run, p.k);
  }
}
