// bootstrapReqWorkConn of internal/server/handle.go sends without looking at done: for
// which pool counts a login can be stuck there for good.
module Bootstrap {
  import opened Wrappers
  import opened Batching
  import opened Sums
  import opened ControlPlane
  import opened SessionWriters
  import A = SignalAccounting
  import D = SessionDisplacement
  import ControlWitnesses

  // ---- stuck for good ----------------------------------------------------------------

  // bootstrapReqWorkConn is about to send on a full reqCh and no writer of that
  // session is left.
  ghost predicate BootBlocked(s: System, i: nat, k: nat) {
    && i < |s.threads| && s.threads[i].BootSend? && s.threads[i].k == k
    && k < |s.g.sessions| && s.g.sessions[k].queued >= REQ_CH_SIZE
    && forall p | p in s.threads :: !WriterOf(k, p)
  }

  ghost predicate NotDrained(g: Shared, h: Shared, q: Pc, k: nat) {
    && k < |g.sessions| <= |h.sessions| && h.sessions[k].queued >= g.sessions[k].queued
    && !WriterOf(k, q)
  }

  lemma CallsDoNotDrain(g: Shared, p: Pc, c: Choice, k: nat)
    requires InRange(g, p) && CanCall(g, p, c) && k < |g.sessions|
    ensures var (h, q) := MoveCall(g, p, c); NotDrained(g, h, q, k)
  {
  }

  lemma LoginsDoNotDrain(g: Shared, p: Pc, c: Choice, k: nat)
    requires InRange(g, p) && CanLogin(g, p, c) && k < |g.sessions|
    ensures var (h, q) := MoveLogin(g, p, c); NotDrained(g, h, q, k)
  {
  }

  lemma OnlyOwnWriterDrains(g: Shared, p: Pc, c: Choice, k: nat)
    requires CanMove(g, p, c) && k < |g.sessions| && !WriterOf(k, p)
    ensures var (h, q) := Move(g, p, c); NotDrained(g, h, q, k)
  {
    if InCall(p) {
      CallsDoNotDrain(g, p, c, k);
    } else if InLogin(p) {
      LoginsDoNotDrain(g, p, c, k);
    }
  }

  // Its send has no done case, so whatever else happens the login never goes on.
  lemma {:induction false} BlocksForever(s: System, i: nat, k: nat, acts: seq<Action>)
    requires BootBlocked(s, i, k) && After(s, acts).Some?
    ensures var t := After(s, acts).value;
            BootBlocked(t, i, k) && t.threads[i] == s.threads[i]
  {
    if acts != [] {
      var last := |acts| - 1;
      BlocksForever(s, i, k, acts[..last]);
      var t := After(s, acts[..last]).value;
      match acts[last]
      case Run(j, c) =>
        assert t.threads[j] in t.threads;
        OnlyOwnWriterDrains(t.g, t.threads[j], c, k);
      case _ =>
    }
  }

  // ---- for which pool counts ------------------------------------------------------------

  // A login that wants no more than the queue holds never waits at all.
  lemma NeverWaits(acts: seq<Action>, i: nat)
    requires After(New(), acts).Some?
    requires var s := After(New(), acts).value;
             i < |s.threads| && s.threads[i].BootSend? && s.threads[i].k < |s.g.sessions|
             && s.g.sessions[s.threads[i].k].wanted <= REQ_CH_SIZE
    ensures Enabled(After(New(), acts).value, Run(i, Plain))
  {
    Reachable(acts);
    var s := After(New(), acts).value;
    assert s.threads[i] in s.threads && PlaceOk(s.g, s.threads[i]) && A.PcOk(s.threads[i]);
  }

  // A session whose writer runs no more has had a signal taken, so a stuck login wants at
  // least one more than that and a full queue.
  lemma BlockedWantsMany(acts: seq<Action>, i: nat, k: nat)
    requires After(New(), acts).Some? && BootBlocked(After(New(), acts).value, i, k)
    ensures After(New(), acts).value.g.sessions[k].wanted >= REQ_CH_SIZE + 2
  {
    Reachable(acts);
    var s := After(New(), acts).value;
    var p := s.threads[i];
    assert p in s.threads && PlaceOk(s.g, p) && A.PcOk(p);
    TotalAtLeast(D.Prelude(k), s.threads, i);
    assert D.SessionOk(s, k);
    assert Total(Writes(k), s.threads) == 1;
    SomeoneCounts(Writes(k), s.threads);
    var j :| 0 <= j < |s.threads| && IsWriter(k, s.threads[j]) > 0;
    assert s.threads[j] in s.threads && PlaceOk(s.g, s.threads[j]);
  }

  // Login and writer of the only session; q signals queued, `taken` taken.
  predicate Stage(s: System, login: Pc, writer: Pc, q: nat, taken: nat, wanted: nat) {
    && s.threads == [login, writer] && |s.g.sessions| == 1
    && s.g.sessions[0].queued == q && s.g.sessions[0].taken == taken && s.g.sessions[0].wanted == wanted
    && !s.g.sessions[0].cancelled && !s.g.sessions[0].registered
  }

  // A schedule that gets there.
  ghost predicate Reaches(acts: seq<Action>, login: Pc, writer: Pc, q: nat, taken: nat, n: nat) {
    After(New(), acts).Some? && Stage(After(New(), acts).value, login, writer, q, taken, n)
  }

  lemma Opened(r: RunId, n: nat) returns (acts: seq<Action>)
    ensures Reaches(acts, Boot(0, n), Head(0), 0, 0, n)
  {
    var s;
    acts, s := ControlWitnesses.Extend([], New(), Login(r, n));
  }

  // One turn of the bootstrap loop up to its send.
  lemma CountsOne(acts0: seq<Action>, writer: Pc, left: nat, q: nat, taken: nat, n: nat) returns (acts: seq<Action>)
    requires left > 0 && Reaches(acts0, Boot(0, left), writer, q, taken, n)
    ensures Reaches(acts, BootSend(0, left), writer, q, taken, n)
  {
    var s := After(New(), acts0).value;
    acts, s := ControlWitnesses.Extend(acts0, s, Run(0, Plain));
    assert s.threads == [BootEnqueued(0, left), writer];
    acts, s := ControlWitnesses.Extend(acts, s, Run(0, Plain));
    assert s.threads == [BootInflight(0, left), writer];
    acts, s := ControlWitnesses.Extend(acts, s, Run(0, Plain));
  }

  lemma SendsOne(acts0: seq<Action>, writer: Pc, left: nat, q: nat, taken: nat, n: nat) returns (acts: seq<Action>)
    requires left > 0 && q < REQ_CH_SIZE && Reaches(acts0, Boot(0, left), writer, q, taken, n)
    ensures Reaches(acts, Boot(0, left - 1), writer, q + 1, taken, n)
  {
    acts := CountsOne(acts0, writer, left, q, taken, n);
    var s;
    acts, s := ControlWitnesses.Extend(acts, After(New(), acts).value, Run(0, Plain));
  }

  // The writer takes the only signal and is about to write it.
  lemma WriterTakes(acts0: seq<Action>, left: nat, n: nat) returns (acts: seq<Action>)
    requires Reaches(acts0, Boot(0, left), Head(0), 1, 0, n)
    ensures Reaches(acts, Boot(0, left), WriteSent(0, 1, true), 0, 1, n)
  {
    var s := After(New(), acts0).value;
    acts, s := ControlWitnesses.Extend(acts0, s, Run(1, Plain));
    assert s.threads == [Boot(0, left), Fast(0)];
    acts, s := ControlWitnesses.Extend(acts, s, Run(1, Plain));
  }

  lemma WriterCounts(acts0: seq<Action>, left: nat, n: nat) returns (acts: seq<Action>)
    requires Reaches(acts0, Boot(0, left), WriteSent(0, 1, true), 0, 1, n)
    ensures Reaches(acts, Boot(0, left), WriteOut(0, 1, true), 0, 1, n)
  {
    var s := After(New(), acts0).value;
    acts, s := ControlWitnesses.Extend(acts0, s, Run(1, Plain));
    assert s.threads == [Boot(0, left), WriteInflight(0, 1, true)];
    acts, s := ControlWitnesses.Extend(acts, s, Run(1, Plain));
  }

  // Its write fails.
  lemma WriterDies(acts0: seq<Action>, left: nat, n: nat) returns (acts: seq<Action>)
    requires Reaches(acts0, Boot(0, left), WriteOut(0, 1, true), 0, 1, n)
    ensures Reaches(acts, Boot(0, left), WriterExited(0), 0, 1, n)
  {
    var s;
    acts, s := ControlWitnesses.Extend(acts0, After(New(), acts0).value, Run(1, Fail));
  }

  // The login goes on until the queue is full.
  lemma {:induction false} FillsUp(acts0: seq<Action>, left: nat, q: nat, beyond: nat, n: nat)
      returns (acts: seq<Action>)
    requires q <= REQ_CH_SIZE && left + q == REQ_CH_SIZE + beyond
    requires beyond > 0 && Reaches(acts0, Boot(0, left), WriterExited(0), q, 1, n)
    ensures Reaches(acts, Boot(0, beyond), WriterExited(0), REQ_CH_SIZE, 1, n)
    decreases REQ_CH_SIZE - q
  {
    acts := acts0;
    if q < REQ_CH_SIZE {
      var more := SendsOne(acts0, WriterExited(0), left, q, 1, n);
      acts := FillsUp(more, left - 1, q + 1, beyond, n);
    }
  }

  // A login has sent one signal, and its writer has died over it.
  lemma WriterGone(r: RunId, n: nat) returns (acts: seq<Action>)
    requires n > 0
    ensures Reaches(acts, Boot(0, n - 1), WriterExited(0), 0, 1, n)
  {
    acts := Opened(r, n);
    acts := SendsOne(acts, Head(0), n, 0, 0, n);
    acts := WriterTakes(acts, n - 1, n);
    acts := WriterCounts(acts, n - 1, n);
    acts := WriterDies(acts, n - 1, n);
  }

  lemma StageIsBlocked(s: System, left: nat, n: nat)
    requires Stage(s, BootSend(0, left), WriterExited(0), REQ_CH_SIZE, 1, n)
    ensures BootBlocked(s, 0, 0)
  {
  }

  // One login with a large enough pool count and one failed write: the login is stuck.
  lemma GetsStuck(r: RunId, n: nat) returns (acts: seq<Action>)
    requires n >= REQ_CH_SIZE + 2
    ensures BlocksIn(acts, 0, 0, n)
  {
    var beyond := n - 1 - REQ_CH_SIZE;
    acts := WriterGone(r, n);
    acts := FillsUp(acts, n - 1, 0, beyond, n);
    acts := CountsOne(acts, WriterExited(0), beyond, REQ_CH_SIZE, 1, n);
    StageIsBlocked(After(New(), acts).value, beyond, n);
  }

  // Some login that wants n gets stuck in some run.
  ghost predicate MayBlock(n: nat) {
    exists acts, i: nat, k: nat :: BlocksIn(acts, i, k, n)
  }

  ghost predicate BlocksIn(acts: seq<Action>, i: nat, k: nat, n: nat) {
    && After(New(), acts).Some? && BootBlocked(After(New(), acts).value, i, k)
    && After(New(), acts).value.g.sessions[k].wanted == n
  }

  // So a pool count can block its login for good if and only if it exceeds the queue by
  // two.
  lemma MayBlockIff(n: nat)
    ensures MayBlock(n) <==> n >= REQ_CH_SIZE + 2
  {
    if acts, i: nat, k: nat :| BlocksIn(acts, i, k, n) {
      BlockedWantsMany(acts, i, k);
    }
    if n >= REQ_CH_SIZE + 2 {
      var acts := GetsStuck("r", n);
    }
  }
}
