// Which session a run's entry names, over every interleaving of Register, cancel and
// Remove, and what Remove's missing identity check costs.
module SessionDisplacement {
  import opened Wrappers
  import opened Sums
  import opened ControlPlane

  // A registered session of run r whose context is not done.
  function Live(r: RunId): Session -> int {
    (s: Session) => IsLive(r, s)
  }

  function IsLive(r: RunId, s: Session): int {
    if s.run == r && s.registered && !s.cancelled then 1 else 0
  }

  // handleLogin of session k has not registered it yet.
  function Prelude(k: nat): Pc -> int {
    (p: Pc) => IsPrelude(k, p)
  }

  function IsPrelude(k: nat, p: Pc): int {
    if (p.Boot? || p.BootEnqueued? || p.BootInflight? || p.BootSend? || p.Registering?) && p.k == k then 1 else 0
  }

  // The run has an entry, and its session is not cancelled.
  function EntryLive(g: Shared, r: RunId): int {
    if r in g.entries && g.entries[r] < |g.sessions| && !g.sessions[g.entries[r]].cancelled then 1 else 0
  }

  predicate PcOk(g: Shared, p: Pc) {
    && InRange(g, p)
    && (p.Serving? || p.Cancelling? || p.Removing? || p.Cleaned? ==> g.sessions[p.k].registered)
    && (p.Removing? || p.Cleaned? ==> g.sessions[p.k].cancelled)
  }

  ghost predicate EntryOk(s: System, r: RunId) {
    r in s.g.entries ==>
      var k := s.g.entries[r];
      && k < |s.g.sessions| && s.g.sessions[k].run == r && s.g.sessions[k].registered
      && r in s.g.history.latest && s.g.history.latest[r] == k
      && (s.g.sessions[k].cancelled ==> Removing(k) in s.threads)
  }

  ghost predicate SessionOk(s: System, k: nat) {
    k < |s.g.sessions| ==>
      && Total(Prelude(k), s.threads) == (if s.g.sessions[k].registered then 0 else 1)
      && (s.g.sessions[k].cancelled ==> s.g.sessions[k].registered)
  }

  ghost predicate LiveOk(g: Shared, r: RunId) {
    Total(Live(r), g.sessions) <= EntryLive(g, r) + Stale(g.history, r)
  }

  ghost predicate Inv(s: System) {
    && (forall p | p in s.threads :: PcOk(s.g, p))
    && (forall r: RunId :: EntryOk(s, r))
    && (forall k: nat :: SessionOk(s, k))
    && (forall r: RunId :: LiveOk(s.g, r))
  }

  // Operations other than Register, cancel and Remove leave the registry alone.
  predicate Touches(p: Pc) {
    p.Registering? || p.Cancelling? || p.Removing?
  }

  // Only queue lengths and counters may differ.
  ghost predicate SameRegistry(g: Shared, h: Shared) {
    && h.entries == g.entries && h.history == g.history && |h.sessions| == |g.sessions|
    && forall j | 0 <= j < |g.sessions| ::
         h.sessions[j].(queued := 0, taken := 0) == g.sessions[j].(queued := 0, taken := 0)
  }

  lemma WriterKeepsRegistry(g: Shared, p: Pc, c: Choice)
    requires InRange(g, p) && CanWrite(g, p, c)
    ensures SameRegistry(g, MoveWriter(g, p, c).0)
  {
  }

  lemma BootKeepsRegistry(g: Shared, p: Pc, c: Choice)
    requires InRange(g, p) && CanLogin(g, p, c) && !Touches(p)
    ensures SameRegistry(g, MoveLogin(g, p, c).0)
  {
  }

  lemma OthersKeepRegistry(g: Shared, p: Pc, c: Choice)
    requires CanMove(g, p, c) && !Touches(p)
    ensures SameRegistry(g, Move(g, p, c).0)
  {
    if InLogin(p) {
      BootKeepsRegistry(g, p, c);
    } else if InWriter(p) {
      WriterKeepsRegistry(g, p, c);
    }
  }

  // Where an operation that leaves the registry alone may lead.
  ghost predicate PhaseKept(g: Shared, p: Pc, q: Pc) {
    && InRange(g, q) && !q.Cancelling? && !q.Removing? && !q.Cleaned? && (q.Serving? ==> p.Serving?)
    && forall k: nat :: IsPrelude(k, q) == IsPrelude(k, p)
  }

  lemma CallKeepsPhase(g: Shared, p: Pc, c: Choice)
    requires InRange(g, p) && CanCall(g, p, c)
    requires forall r | r in g.entries :: g.entries[r] < |g.sessions|
    ensures PhaseKept(g, p, MoveCall(g, p, c).1)
  {
  }

  lemma BootKeepsPhase(g: Shared, p: Pc, c: Choice)
    requires InRange(g, p) && CanLogin(g, p, c) && !Touches(p) && !p.Serving?
    ensures PhaseKept(g, p, MoveLogin(g, p, c).1)
  {
  }

  lemma WriterKeepsPhase(g: Shared, p: Pc, c: Choice)
    requires InRange(g, p) && CanWrite(g, p, c)
    ensures PhaseKept(g, p, MoveWriter(g, p, c).1)
  {
  }

  lemma OthersKeepPhase(g: Shared, p: Pc, c: Choice)
    requires CanMove(g, p, c) && !Touches(p) && !p.Serving?
    requires forall r | r in g.entries :: g.entries[r] < |g.sessions|
    ensures PhaseKept(g, p, Move(g, p, c).1)
  {
    if InCall(p) {
      CallKeepsPhase(g, p, c);
    } else if InLogin(p) {
      BootKeepsPhase(g, p, c);
    } else {
      WriterKeepsPhase(g, p, c);
    }
  }

  lemma {:induction false} SameLive(r: RunId, ss: seq<Session>, us: seq<Session>)
    requires |ss| == |us|
            && forall j | 0 <= j < |ss| :: us[j].(queued := 0, taken := 0) == ss[j].(queued := 0, taken := 0)
    ensures Total(Live(r), us) == Total(Live(r), ss)
  {
    if ss != [] {
      assert us[0].(queued := 0, taken := 0) == ss[0].(queued := 0, taken := 0);
      assert forall j | 0 <= j < |ss[1..]| :: us[1..][j] == us[j + 1] && ss[1..][j] == ss[j + 1];
      SameLive(r, ss[1..], us[1..]);
    }
  }

  // The same for a whole step: goroutine i moved on, the registry did not change.
  ghost predicate Untouched(s: System, i: nat, t: System) {
    && i < |s.threads| == |t.threads| && t.threads == s.threads[i := t.threads[i]]
    && SameRegistry(s.g, t.g) && !s.threads[i].Removing?
    && PcOk(t.g, t.threads[i])
    && forall k: nat :: IsPrelude(k, t.threads[i]) == IsPrelude(k, s.threads[i])
  }

  lemma UntouchedKeepsInv(s: System, i: nat, t: System)
    requires Inv(s) && Untouched(s, i, t)
    ensures Inv(t)
  {
    var q := t.threads[i];
    forall x | x in t.threads ensures PcOk(t.g, x) {
      if x in s.threads && SessionOf(x).Some? {
        assert t.g.sessions[x.k].(queued := 0, taken := 0) == s.g.sessions[x.k].(queued := 0, taken := 0);
      }
    }
    forall r: RunId ensures EntryOk(t, r) {
      assert EntryOk(s, r);
      RemovingStays(s.threads, i, q);
    }
    forall k: nat ensures SessionOk(t, k) {
      assert SessionOk(s, k);
      TotalUpdate(Prelude(k), s.threads, i, q);
    }
    forall r: RunId ensures LiveOk(t.g, r) {
      assert LiveOk(s.g, r);
      SameLive(r, s.g.sessions, t.g.sessions);
    }
  }

  lemma OthersKeepInv(s: System, i: nat, c: Choice)
    requires Inv(s) && Enabled(s, Run(i, c)) && !Touches(s.threads[i])
    ensures Inv(Next(s, Run(i, c)))
  {
    var p := s.threads[i];
    assert p in s.threads && PcOk(s.g, p);
    assert forall r | r in s.g.entries :: EntryOk(s, r);
    OthersKeepRegistry(s.g, p, c);
    if !p.Serving? {
      OthersKeepPhase(s.g, p, c);
    }
    UntouchedKeepsInv(s, i, Next(s, Run(i, c)));
  }

  lemma RemovingStays(ts: seq<Pc>, i: nat, q: Pc)
    requires i < |ts| && !ts[i].Removing?
    ensures forall k: nat :: Removing(k) in ts ==> Removing(k) in ts[i := q]
  {
    forall k: nat | Removing(k) in ts ensures Removing(k) in ts[i := q] {
      var j :| 0 <= j < |ts| && ts[j] == Removing(k);
      assert ts[i := q][j] == Removing(k);
    }
  }

  // ---- cancel ------------------------------------------------------------------

  lemma CancelLive(r: RunId, ss: seq<Session>, k: nat)
    requires k < |ss|
    ensures Total(Live(r), Cancel(ss, k)) == Total(Live(r), ss) - IsLive(r, ss[k])
  {
    TotalUpdate(Live(r), ss, k, ss[k].(cancelled := true));
  }

  lemma CancelKeepsInv(s: System, i: nat)
    requires Inv(s) && Enabled(s, Run(i, Plain)) && s.threads[i].Cancelling?
    ensures Inv(Next(s, Run(i, Plain)))
  {
    var (k, t) := (s.threads[i].k, Next(s, Run(i, Plain)));
    assert s.threads[i] in s.threads && PcOk(s.g, s.threads[i]);
    forall x | x in t.threads ensures PcOk(t.g, x) {
      assert x == Removing(k) || x in s.threads;
    }
    forall r: RunId ensures EntryOk(t, r) {
      assert EntryOk(s, r);
      RemovingStays(s.threads, i, Removing(k));
      assert t.threads[i] == Removing(k);
    }
    forall j: nat ensures SessionOk(t, j) {
      assert SessionOk(s, j);
      TotalUpdate(Prelude(j), s.threads, i, Removing(k));
    }
    forall r: RunId ensures LiveOk(t.g, r) {
      assert LiveOk(s.g, r) && EntryOk(s, r);
      CancelLive(r, s.g.sessions, k);
    }
  }

  // ---- Remove ------------------------------------------------------------------

  lemma RemoveKeepsInv(s: System, i: nat)
    requires Inv(s) && Enabled(s, Run(i, Plain)) && s.threads[i].Removing?
    ensures Inv(Next(s, Run(i, Plain)))
  {
    var (k, t) := (s.threads[i].k, Next(s, Run(i, Plain)));
    assert s.threads[i] in s.threads && PcOk(s.g, s.threads[i]);
    forall x | x in t.threads ensures PcOk(t.g, x) {
      assert x == Cleaned(k) || x in s.threads;
    }
    forall r: RunId ensures EntryOk(t, r) {
      assert EntryOk(s, r);
      if r in t.g.entries && s.g.sessions[s.g.entries[r]].cancelled {
        var j :| 0 <= j < |s.threads| && s.threads[j] == Removing(s.g.entries[r]);
        assert j != i;
        assert t.threads[j] == Removing(s.g.entries[r]);
      }
    }
    forall j: nat ensures SessionOk(t, j) {
      assert SessionOk(s, j);
      TotalUpdate(Prelude(j), s.threads, i, Cleaned(k));
    }
    forall r: RunId ensures LiveOk(t.g, r) {
      assert LiveOk(s.g, r) && EntryOk(s, r);
    }
  }

  // ---- Register ----------------------------------------------------------------

  lemma RegisterLive(g: Shared, k: nat, r: RunId)
    requires k < |g.sessions| && !g.sessions[k].registered && !g.sessions[k].cancelled
    requires forall x | x in g.entries :: g.entries[x] < |g.sessions| && g.sessions[g.entries[x]].run == x
                                          && g.sessions[g.entries[x]].registered
    requires LiveOk(g, r)
    ensures LiveOk(Register(g, k), r)
  {
    var x := g.sessions[k].run;
    var ss := if x in g.entries then Cancel(g.sessions, g.entries[x]) else g.sessions;
    if x in g.entries {
      CancelLive(r, g.sessions, g.entries[x]);
    }
    TotalUpdate(Live(r), ss, k, ss[k].(registered := true));
  }

  lemma RegisterKeepsInv(s: System, i: nat)
    requires Inv(s) && Enabled(s, Run(i, Plain)) && s.threads[i].Registering?
    ensures Inv(Next(s, Run(i, Plain)))
  {
    var (k, t) := (s.threads[i].k, Next(s, Run(i, Plain)));
    assert s.threads[i] in s.threads && PcOk(s.g, s.threads[i]);
    TotalAtLeast(Prelude(k), s.threads, i);
    assert SessionOk(s, k);
    assert forall r | r in s.g.entries :: EntryOk(s, r);
    forall x | x in t.threads ensures PcOk(t.g, x) {
      assert x == Serving(k) || x in s.threads;
    }
    forall r: RunId ensures EntryOk(t, r) {
      assert EntryOk(s, r);
      RemovingStays(s.threads, i, Serving(k));
    }
    forall j: nat ensures SessionOk(t, j) {
      assert SessionOk(s, j);
      TotalUpdate(Prelude(j), s.threads, i, Serving(k));
    }
    forall r: RunId ensures LiveOk(t.g, r) {
      RegisterLive(s.g, k, r);
    }
  }

  // ---- arrivals ----------------------------------------------------------------

  lemma LoginKeepsInv(s: System, r0: RunId, n: int)
    requires Inv(s)
    ensures Inv(Next(s, Login(r0, n)))
  {
    var (k, t) := (|s.g.sessions|, Next(s, Login(r0, n)));
    var boot := Boot(k, if n > 0 then n else 0);
    assert t.threads == (s.threads + [boot]) + [Head(k)];
    forall x | x in t.threads ensures PcOk(t.g, x) {
      assert x == boot || x == Head(k) || x in s.threads;
    }
    forall r: RunId ensures EntryOk(t, r) {
      assert EntryOk(s, r);
    }
    forall j: nat ensures SessionOk(t, j) {
      assert SessionOk(s, j);
      TotalAppend(Prelude(j), s.threads, boot);
      TotalAppend(Prelude(j), s.threads + [boot], Head(k));
      if j == k {
        assert forall i | 0 <= i < |s.threads| :: s.threads[i] in s.threads && PcOk(s.g, s.threads[i]);
        TotalZero(Prelude(k), s.threads);
      }
    }
    forall r: RunId ensures LiveOk(t.g, r) {
      assert LiveOk(s.g, r) && EntryOk(s, r);
      TotalAppend(Live(r), s.g.sessions, Session(r0, 0, false, false, 0, if n > 0 then n else 0));
    }
  }

  lemma CallKeepsInv(s: System, r0: RunId)
    requires Inv(s)
    ensures Inv(Next(s, Call(r0)))
  {
    var t := Next(s, Call(r0));
    forall r: RunId ensures EntryOk(t, r) {
      assert EntryOk(s, r);
    }
    forall j: nat ensures SessionOk(t, j) {
      assert SessionOk(s, j);
      TotalAppend(Prelude(j), s.threads, Lookup(r0));
    }
  }

  lemma StepKeeps(s: System, a: Action)
    requires Inv(s) && Enabled(s, a)
    ensures Inv(Next(s, a))
  {
    match a
    case Login(r, n) => LoginKeepsInv(s, r, n);
    case Call(r) => CallKeepsInv(s, r);
    case Run(i, c) =>
      match s.threads[i]
      case Registering(_) => RegisterKeepsInv(s, i);
      case Cancelling(_) => CancelKeepsInv(s, i);
      case Removing(_) => RemoveKeepsInv(s, i);
      case _ => OthersKeepInv(s, i, c);
  }

  lemma {:induction false} Reachable(acts: seq<Action>)
    requires After(New(), acts).Some?
    ensures Inv(After(New(), acts).value)
  {
    if acts == [] {
      assert forall r: RunId :: LiveOk(New().g, r);
    } else {
      Reachable(acts[..|acts| - 1]);
      StepKeeps(After(New(), acts[..|acts| - 1]).value, acts[|acts| - 1]);
    }
  }

  // What GetEntry returns is the run's most recently registered session, uncancelled
  // unless its own cleanup is between cancel() and Remove; and a run has at most one
  // live session more than the Removes that stale sessions did for it.
  lemma EntryIsLatest(acts: seq<Action>, r: RunId)
    requires After(New(), acts).Some?
    ensures var s := After(New(), acts).value;
            && (r in s.g.entries ==>
                  var k := s.g.entries[r];
                  && r in s.g.history.latest && s.g.history.latest[r] == k
                  && k < |s.g.sessions| && s.g.sessions[k].run == r && s.g.sessions[k].registered
                  && (s.g.sessions[k].cancelled ==> Removing(k) in s.threads))
            && Total(Live(r), s.g.sessions) <= 1 + Stale(s.g.history, r)
  {
    Reachable(acts);
    var s := After(New(), acts).value;
    assert EntryOk(s, r) && LiveOk(s.g, r);
  }

  // Cleanup of session k takes a live session's entry away exactly when the entry it
  // finds names another session that is not itself being cleaned up.
  lemma EvictsExactly(acts: seq<Action>, i: nat)
    requires After(New(), acts).Some?
    requires var s := After(New(), acts).value; Enabled(s, Run(i, Plain)) && s.threads[i].Removing?
    ensures var s := After(New(), acts).value;
            var t := Next(s, Run(i, Plain)).g;
            var (k, r) := (s.threads[i].k, s.g.sessions[s.threads[i].k].run);
            && r !in t.entries
            && (EntryLive(t, r) < EntryLive(s.g, r) <==>
                r in s.g.entries && s.g.entries[r] != k && Removing(s.g.entries[r]) !in s.threads)
  {
    Reachable(acts);
    var s := After(New(), acts).value;
    assert s.threads[i] in s.threads && PcOk(s.g, s.threads[i]);
    var r := s.g.sessions[s.threads[i].k].run;
    assert EntryOk(s, r);
    if r in s.g.entries && Removing(s.g.entries[r]) in s.threads {
      assert PcOk(s.g, Removing(s.g.entries[r]));
    }
  }
}
