// The relation between the five ReqWorkConnStats counters and the signals that are
// queued, over every interleaving of callers, logins and writers.
module SignalAccounting {
  import opened Wrappers
  import opened Batching
  import opened Sums
  import opened ControlPlane

  function Queued(s: Session): int {
    s.queued
  }

  // The signals in every reqCh ever made, torn-down sessions included.
  function Waiting(g: Shared): int {
    Total(Queued, g.sessions)
  }

  // Requested and not yet known to be enqueued or dropped.
  function Undecided(p: Pc): int {
    if p.Offer? || p.CountEnqueued? || p.CountDropped? || p.BootEnqueued? then 1 else 0
  }

  // In reqCh (or beyond) before `enqueued` counts it.
  function Early(p: Pc): int {
    if p.CountEnqueued? then 1 else 0
  }

  // Counted in `enqueued` before it is in reqCh.
  function Late(p: Pc): int {
    if p.BootInflight? || p.BootSend? then 1 else 0
  }

  // Taken from reqCh and not yet counted in `sent`.
  function InHand(p: Pc): int {
    match p
    case WriteSent(_, n, _) => n
    case Batch(_, _, b) => b
    case _ => 0
  }

  // Counted in `enqueued` but not yet in `inflight`.
  function NotYetInflight(p: Pc): int {
    if p.CountInflight? || p.BootInflight? then 1 else 0
  }

  // Counted in `sent` but not yet taken off `inflight`.
  function StillInflight(p: Pc): int {
    if p.WriteInflight? then p.n else 0
  }

  ghost predicate Inv(s: System) {
    var st := s.g.stats;
    && st.requested == st.enqueued + st.dropped + Total(Undecided, s.threads)
    && st.enqueued + Total(Early, s.threads)
       == Waiting(s.g) + Total(InHand, s.threads) + st.sent + Total(Late, s.threads)
    && st.inflight + Total(NotYetInflight, s.threads) == st.enqueued - st.sent + Total(StillInflight, s.threads)
    && (forall p | p in s.threads :: PcOk(p))
    && (forall x | x in s.g.sessions :: x.queued <= REQ_CH_SIZE)
  }

  // Every Count handed to writeReq is between 1 and 128.
  predicate PcOk(p: Pc) {
    match p
    case WriteSent(_, n, _) => 1 <= n <= BATCH_MAX
    case WriteInflight(_, n, _) => 1 <= n <= BATCH_MAX
    case WriteOut(_, n, _) => 1 <= n <= BATCH_MAX
    case Batch(_, limit, b) => b <= limit <= BATCH_MAX
    case BootEnqueued(_, left) => left > 0
    case BootInflight(_, left) => left > 0
    case BootSend(_, left) => left > 0
    case _ => true
  }

  // What one operation may do to the counters and one queue.
  ghost predicate Balanced(g: Shared, p: Pc, h: Shared, q: Pc) {
    var (s, t) := (g.stats, h.stats);
    && t.requested - t.enqueued - t.dropped - Undecided(q) == s.requested - s.enqueued - s.dropped - Undecided(p)
    && t.enqueued + Early(q) - Waiting(h) - InHand(q) - t.sent - Late(q)
       == s.enqueued + Early(p) - Waiting(g) - InHand(p) - s.sent - Late(p)
    && t.inflight + NotYetInflight(q) - t.enqueued + t.sent - StillInflight(q)
       == s.inflight + NotYetInflight(p) - s.enqueued + s.sent - StillInflight(p)
  }

  lemma SetQueuedWaiting(g: Shared, k: nat, n: nat)
    requires k < |g.sessions|
    ensures Waiting(SetQueued(g, k, n)) == Waiting(g) - g.sessions[k].queued + n
  {
    TotalUpdate(Queued, g.sessions, k, g.sessions[k].(queued := n));
  }

  lemma TakeSignalWaiting(g: Shared, k: nat)
    requires k < |g.sessions| && g.sessions[k].queued > 0
    ensures Waiting(TakeSignal(g, k)) == Waiting(g) - 1
  {
    var x := g.sessions[k];
    TotalUpdate(Queued, g.sessions, k, x.(queued := x.queued - 1, taken := x.taken + 1));
  }

  lemma CancelWaiting(ss: seq<Session>, k: nat)
    ensures Total(Queued, Cancel(ss, k)) == Total(Queued, ss)
  {
    if k < |ss| {
      TotalUpdate(Queued, ss, k, ss[k].(cancelled := true));
    }
  }

  lemma CallBalanced(g: Shared, p: Pc, c: Choice)
    requires InRange(g, p) && CanCall(g, p, c)
    ensures var (h, q) := MoveCall(g, p, c); Balanced(g, p, h, q) && PcOk(q)
  {
    if p.Offer? && c.Plain? {
      SetQueuedWaiting(g, p.k, g.sessions[p.k].queued + 1);
    }
  }

  lemma RegisterWaiting(g: Shared, k: nat)
    requires k < |g.sessions|
    ensures Waiting(Register(g, k)) == Waiting(g)
  {
    var r := g.sessions[k].run;
    var ss := if r in g.entries then Cancel(g.sessions, g.entries[r]) else g.sessions;
    if r in g.entries {
      CancelWaiting(g.sessions, g.entries[r]);
    }
    TotalUpdate(Queued, ss, k, ss[k].(registered := true));
  }

  lemma BootBalanced(g: Shared, p: Pc, c: Choice)
    requires InRange(g, p) && CanLogin(g, p, c) && PcOk(p)
    requires p.Boot? || p.BootEnqueued? || p.BootInflight? || p.BootSend?
    ensures var (h, q) := MoveLogin(g, p, c); Balanced(g, p, h, q) && PcOk(q)
  {
    if p.BootSend? {
      SetQueuedWaiting(g, p.k, g.sessions[p.k].queued + 1);
    }
  }

  lemma RegisterBalanced(g: Shared, p: Pc, c: Choice)
    requires InRange(g, p) && CanLogin(g, p, c) && p.Registering?
    ensures var (h, q) := MoveLogin(g, p, c); Balanced(g, p, h, q) && PcOk(q)
  {
    RegisterWaiting(g, p.k);
  }

  lemma SessionBalanced(g: Shared, p: Pc, c: Choice)
    requires InRange(g, p) && CanLogin(g, p, c)
    requires p.Serving? || p.Cancelling? || p.Removing?
    ensures var (h, q) := MoveLogin(g, p, c); Balanced(g, p, h, q) && PcOk(q)
  {
    CancelWaiting(g.sessions, p.k);
  }

  lemma TakeBalanced(g: Shared, p: Pc, c: Choice)
    requires InRange(g, p) && CanWrite(g, p, c)
    requires p.Fast? || p.Select?
    ensures var (h, q) := MoveWriter(g, p, c); Balanced(g, p, h, q) && PcOk(q)
  {
    var n := g.sessions[p.k].queued;
    if n > 0 && c.Plain? {
      TakeSignalWaiting(g, p.k);
      assert MoveWriter(g, p, c) == (TakeSignal(g, p.k), WriteSent(p.k, 1, true));
    }
  }

  lemma BatchBalanced(g: Shared, p: Pc, c: Choice)
    requires InRange(g, p) && CanWrite(g, p, c) && PcOk(p) && p.Batch?
    ensures var (h, q) := MoveWriter(g, p, c); Balanced(g, p, h, q) && PcOk(q)
  {
    var n := g.sessions[p.k].queued;
    if p.batch < p.limit && n > 0 {
      TakeSignalWaiting(g, p.k);
      assert MoveWriter(g, p, c) == (TakeSignal(g, p.k), Batch(p.k, p.limit, p.batch + 1));
    }
  }

  lemma WriteBalanced(g: Shared, p: Pc, c: Choice)
    requires InRange(g, p) && CanWrite(g, p, c) && PcOk(p)
    requires !p.Fast? && !p.Select? && !p.Batch?
    ensures var (h, q) := MoveWriter(g, p, c); Balanced(g, p, h, q) && PcOk(q)
  {
  }

  lemma MoveBalanced(g: Shared, p: Pc, c: Choice)
    requires CanMove(g, p, c) && PcOk(p)
    ensures var (h, q) := Move(g, p, c); Balanced(g, p, h, q) && PcOk(q)
  {
    if InCall(p) {
      CallBalanced(g, p, c);
    } else if p.Boot? || p.BootEnqueued? || p.BootInflight? || p.BootSend? {
      BootBalanced(g, p, c);
    } else if p.Registering? {
      RegisterBalanced(g, p, c);
    } else if InLogin(p) {
      SessionBalanced(g, p, c);
    } else if p.Fast? || p.Select? {
      TakeBalanced(g, p, c);
    } else if p.Batch? {
      BatchBalanced(g, p, c);
    } else {
      WriteBalanced(g, p, c);
    }
  }

  lemma CapacityKept(g: Shared, p: Pc, c: Choice)
    requires CanMove(g, p, c) && forall x | x in g.sessions :: x.queued <= REQ_CH_SIZE
    ensures forall x | x in Move(g, p, c).0.sessions :: x.queued <= REQ_CH_SIZE
  {
    var h := Move(g, p, c).0;
    if p.Registering? {
      var r := g.sessions[p.k].run;
      var ss := if r in g.entries then Cancel(g.sessions, g.entries[r]) else g.sessions;
      assert forall j | 0 <= j < |ss| :: g.sessions[j] in g.sessions && ss[j].queued == g.sessions[j].queued;
      assert forall j | 0 <= j < |ss| :: h.sessions[j].queued == ss[j].queued;
    } else {
      assert forall j | 0 <= j < |g.sessions| :: g.sessions[j] in g.sessions;
    }
  }

  lemma RunKeeps(s: System, i: nat, c: Choice)
    requires Inv(s) && Enabled(s, Run(i, c))
    ensures Inv(Next(s, Run(i, c)))
  {
    var p := s.threads[i];
    assert p in s.threads;
    var q := Move(s.g, p, c).1;
    MoveBalanced(s.g, p, c);
    CapacityKept(s.g, p, c);
    TotalUpdate(Undecided, s.threads, i, q);
    TotalUpdate(Early, s.threads, i, q);
    TotalUpdate(Late, s.threads, i, q);
    TotalUpdate(InHand, s.threads, i, q);
    TotalUpdate(NotYetInflight, s.threads, i, q);
    TotalUpdate(StillInflight, s.threads, i, q);
  }

  lemma StepKeeps(s: System, a: Action)
    requires Inv(s) && Enabled(s, a)
    ensures Inv(Next(s, a))
  {
    match a
    case Login(r, n) =>
      TotalAppend(Queued, s.g.sessions, Session(r, 0, false, false, 0, if n > 0 then n else 0));
      Silent(s.threads, [Boot(|s.g.sessions|, if n > 0 then n else 0), Head(|s.g.sessions|)]);
    case Call(r) => Silent(s.threads, [Lookup(r)]);
    case Run(i, c) => RunKeeps(s, i, c);
  }

  // Goroutines at their entry points weigh nothing.
  lemma Silent(ts: seq<Pc>, entries: seq<Pc>)
    requires forall p | p in entries :: p.Lookup? || p.Boot? || p.Head?
    ensures Total(Undecided, ts + entries) == Total(Undecided, ts)
    ensures Total(Early, ts + entries) == Total(Early, ts)
    ensures Total(Late, ts + entries) == Total(Late, ts)
    ensures Total(InHand, ts + entries) == Total(InHand, ts)
    ensures Total(NotYetInflight, ts + entries) == Total(NotYetInflight, ts)
    ensures Total(StillInflight, ts + entries) == Total(StillInflight, ts)
  {
    assert forall i | 0 <= i < |entries| :: entries[i] in entries;
    TotalConcat(Undecided, ts, entries); TotalZero(Undecided, entries);
    TotalConcat(Early, ts, entries); TotalZero(Early, entries);
    TotalConcat(Late, ts, entries); TotalZero(Late, entries);
    TotalConcat(InHand, ts, entries); TotalZero(InHand, entries);
    TotalConcat(NotYetInflight, ts, entries); TotalZero(NotYetInflight, entries);
    TotalConcat(StillInflight, ts, entries); TotalZero(StillInflight, entries);
  }

  lemma {:induction false} Reachable(acts: seq<Action>)
    requires After(New(), acts).Some?
    ensures Inv(After(New(), acts).value)
  {
    if acts != [] {
      Reachable(acts[..|acts| - 1]);
      StepKeeps(After(New(), acts[..|acts| - 1]).value, acts[|acts| - 1]);
    }
  }

  // How an offer ends: enqueued only with room and only in its own session's queue, dropped
  // only if the session is cancelled.
  lemma OfferOutcome(s: System, i: nat, c: Choice)
    requires Enabled(s, Run(i, c)) && s.threads[i].Offer?
    ensures var (k, t) := (s.threads[i].k, Next(s, Run(i, c)));
            && (t.threads[i] == CountEnqueued(k) || t.threads[i] == CountDropped(k))
            && (t.threads[i].CountDropped? ==> s.g.sessions[k].cancelled && t.g == s.g)
            && (t.threads[i].CountEnqueued? ==>
                  && s.g.sessions[k].queued < REQ_CH_SIZE && t.g.sessions[k].queued == s.g.sessions[k].queued + 1
                  && forall j | 0 <= j < |s.g.sessions| && j != k :: t.g.sessions[j] == s.g.sessions[j])
  {
  }

  // Nobody is between a counter and the event it counts.
  ghost predicate AtRest(s: System) {
    forall p | p in s.threads ::
      Undecided(p) == 0 && Early(p) == 0 && Late(p) == 0 && InHand(p) == 0 && NotYetInflight(p) == 0
          && StillInflight(p) == 0
  }

  // Every request is enqueued, dropped or still undecided; at rest, what is in flight
  // is exactly what sits in the queues, those of torn-down sessions included.
  lemma SignalsAccounted(acts: seq<Action>)
    requires After(New(), acts).Some?
    ensures var s := After(New(), acts).value;
            var st := s.g.stats;
            && st.requested == st.enqueued + st.dropped + Total(Undecided, s.threads)
            && st.enqueued + Total(Early, s.threads)
               == Waiting(s.g) + Total(InHand, s.threads) + st.sent + Total(Late, s.threads)
            && st.inflight + Total(NotYetInflight, s.threads) == st.enqueued - st.sent + Total(StillInflight, s.threads)
            && (AtRest(s) ==> st.requested == st.enqueued + st.dropped
                              && st.inflight == st.enqueued - st.sent == Waiting(s.g))
  {
    Reachable(acts);
    var s := After(New(), acts).value;
    if AtRest(s) {
      assert forall i | 0 <= i < |s.threads| :: s.threads[i] in s.threads;
      TotalZero(Undecided, s.threads);
      TotalZero(Early, s.threads);
      TotalZero(Late, s.threads);
      TotalZero(InHand, s.threads);
      TotalZero(NotYetInflight, s.threads);
      TotalZero(StillInflight, s.threads);
    }
  }
}
