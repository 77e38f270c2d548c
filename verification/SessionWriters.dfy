// Each session's one writer, and what the sessions' queues hold: which signals will still
// be taken, and how many a login has sent.
module SessionWriters {
  import opened Wrappers
  import opened Sums
  import opened ControlPlane
  import A = SignalAccounting
  import D = SessionDisplacement

  // The writer of session k, running.
  predicate WriterOf(k: nat, p: Pc) {
    InWriter(p) && p.k == k
  }

  // ... or exited.
  function IsWriter(k: nat, p: Pc): int {
    if (InWriter(p) || p.WriterExited?) && p.k == k then 1 else 0
  }

  function Writes(k: nat): Pc -> int {
    (p: Pc) => IsWriter(k, p)
  }

  ghost predicate OneEach(s: System) {
    forall k: nat :: Total(Writes(k), s.threads) == if k < |s.g.sessions| then 1 else 0
  }

  // ---- how one operation changes the queues ----------------------------------------------

  // One more signal for session j.
  function Sends(p: Pc, c: Choice, j: nat): int {
    if ((p.Offer? && c.Plain?) || p.BootSend?) && p.k == j then 1 else 0
  }

  predicate GrowsAt(x: Session, y: Session, sends: int) {
    && (x.registered ==> y.registered) && x.taken <= y.taken && x.wanted == y.wanted
    && y.queued + y.taken == x.queued + x.taken + sends
  }

  ghost predicate Grows(g: Shared, h: Shared, p: Pc, c: Choice) {
    |h.sessions| == |g.sessions|
    && forall j | 0 <= j < |g.sessions| :: GrowsAt(g.sessions[j], h.sessions[j], Sends(p, c, j))
  }

  lemma CallGrows(g: Shared, p: Pc, c: Choice)
    requires InRange(g, p) && CanCall(g, p, c)
    ensures var (h, q) := MoveCall(g, p, c); Grows(g, h, p, c) && forall k: nat :: IsWriter(k, q) == IsWriter(k, p)
  {
  }

  lemma BootGrows(g: Shared, p: Pc, c: Choice)
    requires InRange(g, p) && CanLogin(g, p, c) && !p.Registering?
    ensures var (h, q) := MoveLogin(g, p, c); Grows(g, h, p, c) && forall k: nat :: IsWriter(k, q) == IsWriter(k, p)
  {
  }

  lemma RegisterGrows(g: Shared, k: nat)
    requires k < |g.sessions|
    ensures |Register(g, k).sessions| == |g.sessions|
    ensures forall j | 0 <= j < |g.sessions| :: GrowsAt(g.sessions[j], Register(g, k).sessions[j], 0)
  {
  }

  lemma LoginGrows(g: Shared, p: Pc, c: Choice)
    requires InRange(g, p) && CanLogin(g, p, c)
    ensures var (h, q) := MoveLogin(g, p, c); Grows(g, h, p, c) && forall k: nat :: IsWriter(k, q) == IsWriter(k, p)
  {
    if p.Registering? {
      RegisterGrows(g, p.k);
    } else {
      BootGrows(g, p, c);
    }
  }

  lemma WriterGrows(g: Shared, p: Pc, c: Choice)
    requires InRange(g, p) && CanWrite(g, p, c)
    ensures var (h, q) := MoveWriter(g, p, c); Grows(g, h, p, c) && forall k: nat :: IsWriter(k, q) == IsWriter(k, p)
  {
  }

  lemma MoveGrows(g: Shared, p: Pc, c: Choice)
    requires CanMove(g, p, c)
    ensures var (h, q) := Move(g, p, c); Grows(g, h, p, c) && forall k: nat :: IsWriter(k, q) == IsWriter(k, p)
  {
    if InCall(p) {
      CallGrows(g, p, c);
    } else if InLogin(p) {
      LoginGrows(g, p, c);
    } else {
      WriterGrows(g, p, c);
    }
  }

  lemma OneEachKept(s: System, a: Action)
    requires OneEach(s) && Enabled(s, a)
    ensures OneEach(Next(s, a))
  {
    var t := Next(s, a);
    forall k: nat ensures Total(Writes(k), t.threads) == if k < |t.g.sessions| then 1 else 0 {
      match a
      case Login(r, n) =>
        var j := |s.g.sessions|;
        var boot := Boot(j, if n > 0 then n else 0);
        TotalAppend(Writes(k), s.threads, boot);
        TotalAppend(Writes(k), s.threads + [boot], Head(j));
        assert s.threads + [boot] + [Head(j)] == s.threads + [boot, Head(j)];
      case Call(r) => TotalAppend(Writes(k), s.threads, Lookup(r));
      case Run(i, c) =>
        MoveGrows(s.g, s.threads[i], c);
        TotalUpdate(Writes(k), s.threads, i, Move(s.g, s.threads[i], c).1);
    }
  }

  // ---- what a goroutine's place says of its session --------------------------------------

  // A writer past its first signal.
  predicate Started(p: Pc) {
    p.WriteSent? || p.WriteInflight? || p.WriteOut? || p.Limit? || p.Batch? || p.Other? || p.WriterExited?
  }

  predicate Booting(p: Pc) {
    p.Boot? || p.BootEnqueued? || p.BootInflight? || p.BootSend?
  }

  predicate PlaceOk(g: Shared, p: Pc) {
    SessionOf(p).Some? ==>
      p.k < |g.sessions| &&
      var x := g.sessions[p.k];
      && (InCall(p) ==> x.registered)
      && (Started(p) ==> x.registered || x.taken > 0)
      && (Booting(p) ==> x.queued + x.taken + p.left == x.wanted)
  }

  ghost predicate Inv(s: System) {
    OneEach(s) && forall p | p in s.threads :: PlaceOk(s.g, p)
  }

  lemma CallPlace(g: Shared, p: Pc, c: Choice)
    requires InRange(g, p) && CanCall(g, p, c) && PlaceOk(g, p)
    requires forall r | r in g.entries :: g.entries[r] < |g.sessions| && g.sessions[g.entries[r]].registered
    ensures var (h, q) := MoveCall(g, p, c); PlaceOk(h, q)
  {
  }

  lemma LoginPlace(g: Shared, p: Pc, c: Choice)
    requires InRange(g, p) && CanLogin(g, p, c) && PlaceOk(g, p) && A.PcOk(p)
    ensures var (h, q) := MoveLogin(g, p, c); PlaceOk(h, q)
  {
  }

  lemma WriterPlace(g: Shared, p: Pc, c: Choice)
    requires InRange(g, p) && CanWrite(g, p, c) && PlaceOk(g, p)
    requires g.sessions[p.k].cancelled ==> g.sessions[p.k].registered
    ensures var (h, q) := MoveWriter(g, p, c); PlaceOk(h, q)
  {
  }

  lemma OwnPlace(s: System, i: nat, c: Choice)
    requires Inv(s) && A.Inv(s) && D.Inv(s) && Enabled(s, Run(i, c))
    ensures var (h, q) := Move(s.g, s.threads[i], c); PlaceOk(h, q)
  {
    var p := s.threads[i];
    assert p in s.threads;
    if InCall(p) {
      forall r | r in s.g.entries ensures s.g.entries[r] < |s.g.sessions| && s.g.sessions[s.g.entries[r]].registered {
        assert D.EntryOk(s, r);
      }
      CallPlace(s.g, p, c);
    } else if InLogin(p) {
      LoginPlace(s.g, p, c);
    } else {
      assert D.SessionOk(s, p.k);
      WriterPlace(s.g, p, c);
    }
  }

  // Nobody but a session's own login sends to it before it is registered.
  lemma OtherPlace(s: System, i: nat, c: Choice, j: nat)
    requires Inv(s) && D.Inv(s) && Enabled(s, Run(i, c)) && j < |s.threads| && j != i
    ensures PlaceOk(Move(s.g, s.threads[i], c).0, s.threads[j])
  {
    var (p, x) := (s.threads[i], s.threads[j]);
    assert p in s.threads && x in s.threads;
    MoveGrows(s.g, p, c);
    if SessionOf(x).Some? {
      assert GrowsAt(s.g.sessions[x.k], Move(s.g, p, c).0.sessions[x.k], Sends(p, c, x.k));
      if Booting(x) && Sends(p, c, x.k) == 1 {
        assert D.SessionOk(s, x.k);
        TotalAtLeast(D.Prelude(x.k), s.threads, j);
        if i < j {
          TotalAtLeastTwo(D.Prelude(x.k), s.threads, i, j);
        } else {
          TotalAtLeastTwo(D.Prelude(x.k), s.threads, j, i);
        }
      }
    }
  }

  lemma StepKeeps(s: System, a: Action)
    requires Inv(s) && A.Inv(s) && D.Inv(s) && Enabled(s, a)
    ensures Inv(Next(s, a))
  {
    OneEachKept(s, a);
    var t := Next(s, a);
    forall j | 0 <= j < |t.threads| ensures PlaceOk(t.g, t.threads[j]) {
      if j < |s.threads| {
        assert s.threads[j] in s.threads;
      }
      if a.Run? && a.i == j {
        OwnPlace(s, j, a.choice);
      } else if a.Run? {
        OtherPlace(s, a.i, a.choice, j);
      }
    }
    forall p | p in t.threads ensures PlaceOk(t.g, p) {
      var j :| 0 <= j < |t.threads| && t.threads[j] == p;
    }
  }

  lemma {:induction false} Reachable(acts: seq<Action>)
    requires After(New(), acts).Some?
    ensures var s := After(New(), acts).value; Inv(s) && A.Inv(s) && D.Inv(s)
  {
    A.Reachable(acts);
    D.Reachable(acts);
    if acts != [] {
      var front := acts[..|acts| - 1];
      Reachable(front);
      StepKeeps(After(New(), front).value, acts[|acts| - 1]);
    }
  }

  // ---- what is left when nobody has anything to do -----------------------------------------

  // What the writer goroutine p's session has queued, if the session's index is below n.
  function QueueOf(g: Shared, n: nat): Pc -> int {
    (p: Pc) => if (InWriter(p) || p.WriterExited?) && p.k < n && p.k < |g.sessions| then g.sessions[p.k].queued else 0
  }

  lemma {:induction false} QueuesByWriter(g: Shared, n: nat, ts: seq<Pc>)
    requires n < |g.sessions|
    ensures Total(QueueOf(g, n + 1), ts) == Total(QueueOf(g, n), ts) + g.sessions[n].queued * Total(Writes(n), ts)
  {
    if ts != [] {
      QueuesByWriter(g, n, ts[1..]);
      var q, m := g.sessions[n].queued, Total(Writes(n), ts[1..]);
      assert q * (1 + m) == q + q * m;
    }
  }

  // Counted by session or by writer, the queues hold the same.
  lemma {:induction false} SameQueues(s: System, n: nat)
    requires OneEach(s) && n <= |s.g.sessions|
    ensures Total(A.Queued, s.g.sessions[..n]) == Total(QueueOf(s.g, n), s.threads)
  {
    if n == 0 {
      TotalZero(QueueOf(s.g, 0), s.threads);
    } else {
      SameQueues(s, n - 1);
      QueuesByWriter(s.g, n - 1, s.threads);
      assert Total(Writes(n - 1), s.threads) == 1;
      assert s.g.sessions[..n] == s.g.sessions[..n - 1] + [s.g.sessions[n - 1]];
      TotalAppend(A.Queued, s.g.sessions[..n - 1], s.g.sessions[n - 1]);
    }
  }

  // What an exited writer left in its session's queue.
  function LeftBy(g: Shared): Pc -> int {
    (p: Pc) => if p.WriterExited? && p.k < |g.sessions| then g.sessions[p.k].queued else 0
  }

  // Nobody holds a signal or is between two counters, and every running writer waits at its
  // select with an empty queue. Callers and logins may be blocked on full queues.
  ghost predicate Settled(s: System) {
    && (forall p | p in s.threads ::
          A.Early(p) == 0 && A.InHand(p) == 0 && A.NotYetInflight(p) == 0 && A.StillInflight(p) == 0)
    && (forall p | p in s.threads && InWriter(p) && p.k < |s.g.sessions| ::
          p.Select? && s.g.sessions[p.k].queued == 0)
  }

  // Nothing can happen any more but that a session ends or a response or tick comes.
  ghost predicate Stopped(s: System) {
    forall i: nat, c | Enabled(s, Run(i, c)) :: s.threads[i].Serving? || (s.threads[i].Select? && c.Aside?)
  }

  lemma StoppedIsSettled(s: System)
    requires (forall p | p in s.threads :: InRange(s.g, p)) && Stopped(s)
    ensures Settled(s)
    ensures forall p | p in s.threads && InWriter(p) && p.k < |s.g.sessions| :: !s.g.sessions[p.k].cancelled
  {
    forall p | p in s.threads && InWriter(p) && p.k < |s.g.sessions| ensures !s.g.sessions[p.k].cancelled {
      var i :| 0 <= i < |s.threads| && s.threads[i] == p;
      assert !Enabled(s, Run(i, Plain)) && !Enabled(s, Run(i, Done));
    }
    forall p | p in s.threads
      ensures A.Early(p) == 0 && A.InHand(p) == 0 && A.NotYetInflight(p) == 0 && A.StillInflight(p) == 0
      ensures InWriter(p) && p.k < |s.g.sessions| ==> p.Select? && s.g.sessions[p.k].queued == 0
    {
      var i :| 0 <= i < |s.threads| && s.threads[i] == p;
      assert CanMove(s.g, p, Plain) ==> Enabled(s, Run(i, Plain));
    }
  }

  lemma {:induction false} OnlyExitedLeft(g: Shared, ts: seq<Pc>)
    requires forall p | p in ts && InWriter(p) && p.k < |g.sessions| :: g.sessions[p.k].queued == 0
    ensures Total(QueueOf(g, |g.sessions|), ts) == Total(LeftBy(g), ts)
  {
    if ts != [] {
      OnlyExitedLeft(g, ts[1..]);
      assert ts[0] in ts && forall p | p in ts[1..] :: p in ts;
    }
  }

  ghost predicate NothingLeft(s: System) {
    forall p | p in s.threads && p.WriterExited? && p.k < |s.g.sessions| :: s.g.sessions[p.k].queued == 0
  }

  lemma NothingLeftIff(s: System)
    ensures Total(LeftBy(s.g), s.threads) == 0 <==> NothingLeft(s)
  {
    if NothingLeft(s) {
      assert forall i | 0 <= i < |s.threads| :: s.threads[i] in s.threads;
      TotalZero(LeftBy(s.g), s.threads);
    } else {
      var p :| p in s.threads && p.WriterExited? && p.k < |s.g.sessions| && s.g.sessions[p.k].queued != 0;
      var i :| 0 <= i < |s.threads| && s.threads[i] == p;
      TotalAtLeast(LeftBy(s.g), s.threads, i);
    }
  }

  lemma SettledQueues(s: System)
    requires OneEach(s) && Settled(s)
    ensures A.Waiting(s.g) == Total(LeftBy(s.g), s.threads)
  {
    SameQueues(s, |s.g.sessions|);
    assert s.g.sessions[..|s.g.sessions|] == s.g.sessions;
    OnlyExitedLeft(s.g, s.threads);
  }

  lemma SettledCounters(s: System)
    requires A.Inv(s) && Settled(s)
    ensures s.g.stats.inflight == A.Waiting(s.g) + Total(A.Late, s.threads)
  {
    assert forall i | 0 <= i < |s.threads| :: s.threads[i] in s.threads;
    TotalZero(A.Early, s.threads);
    TotalZero(A.InHand, s.threads);
    TotalZero(A.NotYetInflight, s.threads);
    TotalZero(A.StillInflight, s.threads);
  }

  lemma NoneSendsIff(ts: seq<Pc>)
    ensures Total(A.Late, ts) >= 0
    ensures Total(A.Late, ts) == 0 <==> forall p | p in ts :: !p.BootInflight? && !p.BootSend?
  {
    TotalNonNegative(A.Late, ts);
    if forall p | p in ts :: !p.BootInflight? && !p.BootSend? {
      assert forall i | 0 <= i < |ts| :: ts[i] in ts;
      TotalZero(A.Late, ts);
    } else {
      var p :| p in ts && (p.BootInflight? || p.BootSend?);
      var i :| 0 <= i < |ts| && ts[i] == p;
      TotalAtLeast(A.Late, ts, i);
    }
  }

  // Once everything has settled, `inflight` is what exited writers left in their queues and
  // one for each login stuck in its bootstrap. It is back at 0 if and only if no exited
  // writer left a signal and no login is stuck.
  lemma DrainsToZeroIff(acts: seq<Action>)
    requires After(New(), acts).Some? && Settled(After(New(), acts).value)
    ensures var s := After(New(), acts).value;
            && s.g.stats.inflight == Total(LeftBy(s.g), s.threads) + Total(A.Late, s.threads)
            && (s.g.stats.inflight == 0 <==>
                  NothingLeft(s) && forall p | p in s.threads :: !p.BootInflight? && !p.BootSend?)
  {
    var s := After(New(), acts).value;
    Reachable(acts);
    SettledCounters(s);
    SettledQueues(s);
    NothingLeftIff(s);
    NoneSendsIff(s.threads);
    TotalNonNegative(LeftBy(s.g), s.threads);
  }
}
