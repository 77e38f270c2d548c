// The composed server run by run: what a run's pools have asked for is what was offered to
// that run's sessions, or found none of them.
module RunAccounting {
  import opened Wrappers
  import opened Sums
  import opened ServerStack
  import P = PoolMachine
  import C = ControlPlane
  import D = SessionDisplacement
  import S = StackRest

  // The requestFn calls of the pools of run r.
  function ServedFor(r: string): Inst -> int {
    (x: Inst) => if x.run == r then Served(x) else 0
  }

  function SentFor(r: string): Inst -> int {
    (x: Inst) => if x.run == r then SentOf(x) else 0
  }

  // A call for run r that has not yet offered its signal: it looks r up, or has found a
  // session of r.
  function AskingFor(g: C.Shared, r: string): C.Pc -> int {
    (p: C.Pc) => AsksFor(g, r, p)
  }

  function AsksFor(g: C.Shared, r: string, p: C.Pc): nat {
    if p.Lookup? && p.run == r then 1
    else if p.CountRequested? && p.k < |g.sessions| && g.sessions[p.k].run == r then 1
    else 0
  }

  // The action counts a request and goes on to offer it to a session of run r.
  function OffersFor(s: C.System, a: C.Action, r: string): nat {
    if a.Run? && a.i < |s.threads| && s.threads[a.i].CountRequested? then AsksFor(s.g, r, s.threads[a.i]) else 0
  }

  // The action looks run r up and finds no entry.
  function MissesFor(s: C.System, a: C.Action, r: string): nat {
    if a.Run? && a.i < |s.threads| && s.threads[a.i] == C.Lookup(r) && r !in s.g.entries then 1 else 0
  }

  function Offers(w: Stack, a: Action, r: string): nat {
    if a.Control? then OffersFor(w.control, a.a, r) else 0
  }

  function Misses(w: Stack, a: Action, r: string): nat {
    if a.Control? then MissesFor(w.control, a.a, r) else 0
  }

  // How often each has happened.
  ghost function Offered(acts: seq<Action>, r: string): nat
    requires After(New(), acts).Some?
  {
    if acts == [] then 0
    else
      var front := acts[..|acts| - 1];
      Offered(front, r) + Offers(After(New(), front).value, acts[|acts| - 1], r)
  }

  ghost function Missed(acts: seq<Action>, r: string): nat
    requires After(New(), acts).Some?
  {
    if acts == [] then 0
    else
      var front := acts[..|acts| - 1];
      Missed(front, r) + Misses(After(New(), front).value, acts[|acts| - 1], r)
  }

  // ---- the control path -------------------------------------------------------------------

  // Sessions keep their runs, so a goroutine asks for the same run as before.
  lemma {:induction false} SameAsking(s: C.System, t: C.System, r: string, ts: seq<C.Pc>)
    requires |s.g.sessions| <= |t.g.sessions|
    requires forall k | 0 <= k < |s.g.sessions| :: t.g.sessions[k].run == s.g.sessions[k].run
    requires forall p | p in ts :: C.InRange(s.g, p)
    ensures Total(AskingFor(t.g, r), ts) == Total(AskingFor(s.g, r), ts)
  {
    if ts != [] {
      assert ts[0] in ts && forall p | p in ts[1..] :: p in ts;
      SameAsking(s, t, r, ts[1..]);
    }
  }

  lemma CallAsksFor(g: C.Shared, p: C.Pc, c: C.Choice, r: string)
    requires C.InRange(g, p) && C.CanCall(g, p, c)
    requires forall x | x in g.entries :: g.entries[x] < |g.sessions| && g.sessions[g.entries[x]].run == x
    ensures var (h, q) := C.MoveCall(g, p, c);
            AsksFor(g, r, q) == AsksFor(g, r, p)
                                - (if p.CountRequested? then AsksFor(g, r, p) else 0)
                                - (if p.Lookup? && p.run == r && r !in g.entries then 1 else 0)
  {
    S.CallMoves(g, p, c);
  }

  lemma OthersDoNotAsk(g: C.Shared, p: C.Pc, c: C.Choice, r: string)
    requires C.CanMove(g, p, c) && !C.InCall(p)
    ensures AsksFor(g, r, p) == 0 && AsksFor(g, r, C.Move(g, p, c).1) == 0
  {
    if C.InLogin(p) {
      LoginAsks(g, p, c);
    } else {
      WriterAsks(g, p, c);
    }
  }

  lemma RunAsksFor(s: C.System, i: nat, c: C.Choice, r: string)
    requires D.Inv(s) && C.Enabled(s, C.Run(i, c))
    ensures var t := C.Next(s, C.Run(i, c));
            Total(AskingFor(t.g, r), t.threads) + OffersFor(s, C.Run(i, c), r) + MissesFor(s, C.Run(i, c), r)
            == Total(AskingFor(s.g, r), s.threads)
  {
    var (p, a) := (s.threads[i], C.Run(i, c));
    var q := C.Move(s.g, p, c).1;
    var t := C.Next(s, a);
    S.RunsStay(s, a);
    assert p in s.threads && forall x | x in s.threads :: D.PcOk(s.g, x);
    SameAsking(s, t, r, s.threads);
    TotalUpdate(AskingFor(t.g, r), s.threads, i, q);
    if C.InCall(p) {
      assert forall x | x in s.g.entries :: D.EntryOk(s, x);
      CallAsksFor(s.g, p, c, r);
      S.CallMoves(s.g, p, c);
      SameOne(s, t, r, q);
    } else {
      OthersDoNotAsk(s.g, p, c, r);
      SameOne(s, t, r, q);
    }
    SameOne(s, t, r, p);
  }

  lemma SameOne(s: C.System, t: C.System, r: string, p: C.Pc)
    requires |s.g.sessions| == |t.g.sessions|
    requires forall k | 0 <= k < |s.g.sessions| :: t.g.sessions[k].run == s.g.sessions[k].run
    ensures AsksFor(t.g, r, p) == AsksFor(s.g, r, p)
  {
  }

  lemma ControlAsksFor(s: C.System, a: C.Action, r: string)
    requires D.Inv(s) && C.Enabled(s, a)
    ensures var t := C.Next(s, a);
            Total(AskingFor(t.g, r), t.threads) + OffersFor(s, a, r) + MissesFor(s, a, r)
            == Total(AskingFor(s.g, r), s.threads) + if a == C.Call(r) then 1 else 0
  {
    var t := C.Next(s, a);
    match a
    case Run(i, c) => RunAsksFor(s, i, c, r);
    case Call(x) => TotalAppend(AskingFor(s.g, r), s.threads, C.Lookup(x));
    case Login(x, n) =>
      var k := |s.g.sessions|;
      var boot := C.Boot(k, if n > 0 then n else 0);
      S.RunsStay(s, a);
      assert forall p | p in s.threads :: D.PcOk(s.g, p);
      SameAsking(s, t, r, s.threads);
      TotalAppend(AskingFor(t.g, r), s.threads, boot);
      TotalAppend(AskingFor(t.g, r), s.threads + [boot], C.Head(k));
      assert s.threads + [boot] + [C.Head(k)] == s.threads + [boot, C.Head(k)];
  }

  // ---- the composed server ------------------------------------------------------------------

  ghost predicate BalancedFor(w: Stack, r: string, asked: int) {
    Total(ServedFor(r), w.pools) == asked + Total(AskingFor(w.control.g, r), w.control.threads)
  }

  lemma PoolStepFor(w: Stack, j: nat, b: P.Action, r: string, asked: int)
    requires BalancedFor(w, r, asked) && D.Inv(w.control) && PoolEnabled(w, j, b)
    ensures BalancedFor(StepPool(w, j, b), r, asked)
  {
    var x := w.pools[j];
    PoolServes(x.run, x.pool, b);
    TotalUpdate(ServedFor(r), w.pools, j, x.(pool := P.Next(x.pool, b)));
    ControlAsksFor(w.control, C.Call(x.run), r);
  }

  lemma CloseRunFor(w: Stack, x: string, r: string, asked: int)
    requires BalancedFor(w, r, asked)
    ensures BalancedFor(CloseRun(w, x), r, asked)
  {
    if HasPool(w, x) {
      var y := w.pools[w.registry[x]];
      PoolServes(y.run, y.pool, P.Spawn(P.CloseEnter));
      TotalUpdate(ServedFor(r), w.pools, w.registry[x], y.(pool := P.Next(y.pool, P.Spawn(P.CloseEnter))));
    }
  }

  lemma StepFor(w: Stack, a: Action, r: string, asked: int)
    requires BalancedFor(w, r, asked) && D.Inv(w.control) && Enabled(w, a)
    ensures BalancedFor(Next(w, a), r, asked + Offers(w, a, r) + Misses(w, a, r))
  {
    match a
    case Control(b) => ControlAsksFor(w.control, b, r);
    case NewPool(x, capacity) => TotalAppend(ServedFor(r), w.pools, Inst(x, P.New(capacity)));
    case PoolStep(j, b) => PoolStepFor(w, j, b, r, asked);
    case Notify(i) =>
      CloseRunFor(w.(told := w.told + {i}), w.control.g.sessions[w.control.threads[i].k].run, r, asked);
  }

  // In every run of the server and for every run id: the calls that the pools of that id
  // have made are those offered to its sessions, those that found none, and those still
  // deciding.
  lemma {:induction false} RunBalanced(acts: seq<Action>, r: string)
    requires After(New(), acts).Some?
    ensures BalancedFor(After(New(), acts).value, r, Offered(acts, r) + Missed(acts, r))
  {
    if acts != [] {
      var (front, a) := (acts[..|acts| - 1], acts[|acts| - 1]);
      RunBalanced(front, r);
      S.ControlSound(front);
      StepFor(After(New(), front).value, a, r, Offered(front, r) + Missed(front, r));
    }
  }

  lemma {:induction false} ServedForAtRest(xs: seq<Inst>, r: string)
    requires forall x | x in xs :: forall p | p in x.pool.threads :: Calling(p) == 0
    ensures Total(ServedFor(r), xs) == Total(SentFor(r), xs)
  {
    if xs != [] {
      ServedAtRest([xs[0]]);
      TotalSingle(Served, xs[0]);
      TotalSingle(SentOf, xs[0]);
      assert xs[0] in xs && forall x | x in xs[1..] :: x in xs;
      ServedForAtRest(xs[1..], r);
    }
  }

  // At rest, for every run id: refillSent of its pools is the signals offered to its
  // sessions plus its calls that found no session.
  lemma SentIsOffered(acts: seq<Action>, r: string)
    requires After(New(), acts).Some? && AtRest(After(New(), acts).value)
    ensures Total(SentFor(r), After(New(), acts).value.pools) == Offered(acts, r) + Missed(acts, r)
  {
    var w := After(New(), acts).value;
    RunBalanced(acts, r);
    ServedForAtRest(w.pools, r);
    var ts := w.control.threads;
    assert forall i | 0 <= i < |ts| :: ts[i] in ts && Asking(ts[i]) == 0;
    TotalZero(AskingFor(w.control.g, r), ts);
  }
}
