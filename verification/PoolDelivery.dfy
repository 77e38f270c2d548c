// What becomes of a connection that is put, and what a Get may expect: order of delivery,
// when a Put closes its connection, and what the counters count.
module PoolDelivery {
  import opened Wrappers
  import opened Sums
  import opened PoolMachine
  import opened PoolGuarantees

  // Where the goroutine that the action moves goes from and to.
  function From(s: Pool, a: Action): Pc
    requires Enabled(s, a) && a.Run?
  {
    s.threads[a.i]
  }

  function To(s: Pool, a: Action): Pc
    requires Enabled(s, a) && a.Run?
  {
    Next(s, a).threads[a.i]
  }

  // ---- first in, first out ---------------------------------------------------------------

  // The connection a Put gets into the channel by this action.
  function SentBy(s: Pool, a: Action): seq<Conn>
    requires Enabled(s, a)
  {
    if a.Run? && From(s, a).PutSend? && To(s, a).PutDone? then [From(s, a).conn] else []
  }

  // The connection some goroutine comes to hold by this action, a Get or the Close.
  function TakenBy(s: Pool, a: Action): seq<Conn>
    requires Enabled(s, a)
  {
    if a.Run? && Hand(From(s, a)).None? && Hand(To(s, a)).Some? then [Hand(To(s, a)).value] else []
  }

  ghost function Sent(capacity: seq<int>, acts: seq<Action>): seq<Conn>
    requires After(New(capacity), acts).Some?
  {
    if acts == [] then []
    else
      var front := acts[..|acts| - 1];
      Sent(capacity, front) + SentBy(After(New(capacity), front).value, acts[|acts| - 1])
  }

  ghost function Taken(capacity: seq<int>, acts: seq<Action>): seq<Conn>
    requires After(New(capacity), acts).Some?
  {
    if acts == [] then []
    else
      var front := acts[..|acts| - 1];
      Taken(capacity, front) + TakenBy(After(New(capacity), front).value, acts[|acts| - 1])
  }

  lemma MoveQueues(g: Shared, p: Pc)
    requires CanMove(g, p)
    ensures var (h, q) := Move(g, p);
            if p.PutSend? && q.PutDone? then h.buf == g.buf + [p.conn]
            else if Hand(p).None? && Hand(q).Some? then g.buf == [Hand(q).value] + h.buf
            else h.buf == g.buf
  {
    if Takes(g, p) {
      HandTaken(g, p);
    } else if !Puts(p) {
      HandKept(g, p);
    }
  }

  lemma StepQueues(s: Pool, a: Action)
    requires Enabled(s, a)
    ensures s.g.buf + SentBy(s, a) == TakenBy(s, a) + Next(s, a).g.buf
  {
    if a.Run? {
      MoveQueues(s.g, s.threads[a.i]);
    }
  }

  // Connections leave the channel in the order in which they were sent; what has not left
  // is in the buffer, in that order.
  lemma {:induction false} FirstInFirstOut(capacity: seq<int>, acts: seq<Action>)
    requires After(New(capacity), acts).Some?
    ensures Sent(capacity, acts) == Taken(capacity, acts) + After(New(capacity), acts).value.g.buf
  {
    if acts != [] {
      var (front, a) := (acts[..|acts| - 1], acts[|acts| - 1]);
      var s := After(New(capacity), front).value;
      FirstInFirstOut(capacity, front);
      StepQueues(s, a);
      Regroup(Taken(capacity, front), s.g.buf, SentBy(s, a), TakenBy(s, a), Next(s, a).g.buf);
    }
  }

  lemma Regroup(taken: seq<Conn>, buf: seq<Conn>, sent: seq<Conn>, more: seq<Conn>, after: seq<Conn>)
    requires buf + sent == more + after
    ensures (taken + buf) + sent == (taken + more) + after
  {
    assert (taken + buf) + sent == taken + (buf + sent);
    assert (taken + more) + after == taken + (more + after);
  }

  // ---- how a goroutine came to where it is ------------------------------------------------

  // Action k is goroutine i's last one so far.
  ghost predicate LastOwn(acts: seq<Action>, i: nat, k: nat) {
    k < |acts| && acts[k] == Run(i) && forall j | k < j < |acts| :: acts[j] != Run(i)
  }

  // Goroutine i is at a place where `cond` holds of it and of what it sees.
  predicate Sees(s: Pool, i: nat, cond: (Shared, Pc) -> bool) {
    i < |s.threads| && cond(s.g, s.threads[i])
  }

  ghost predicate SawAt(capacity: seq<int>, acts: seq<Action>, i: nat, cond: (Shared, Pc) -> bool, k: nat) {
    LastOwn(acts, i, k) && After(New(capacity), acts[..k]).Some? && Sees(After(New(capacity), acts[..k]).value, i, cond)
  }

  // ... and it was when goroutine i took its last step.
  ghost predicate Saw(capacity: seq<int>, acts: seq<Action>, i: nat, cond: (Shared, Pc) -> bool) {
    exists k :: SawAt(capacity, acts, i, cond, k)
  }

  lemma LastOwnNext(acts: seq<Action>, i: nat, k: nat)
    requires acts != []
    ensures acts[|acts| - 1] == Run(i) ==> (LastOwn(acts, i, k) <==> k == |acts| - 1)
    ensures acts[|acts| - 1] != Run(i) ==> (LastOwn(acts, i, k) <==> LastOwn(acts[..|acts| - 1], i, k))
  {
  }

  lemma SawNow(capacity: seq<int>, acts: seq<Action>, i: nat, cond: (Shared, Pc) -> bool)
    requires acts != [] && acts[|acts| - 1] == Run(i) && After(New(capacity), acts).Some?
    ensures Saw(capacity, acts, i, cond) <==> Sees(After(New(capacity), acts[..|acts| - 1]).value, i, cond)
  {
    var n := |acts| - 1;
    forall k: nat ensures LastOwn(acts, i, k) <==> k == n {
      LastOwnNext(acts, i, k);
    }
    assert SawAt(capacity, acts, i, cond, n) <==> Sees(After(New(capacity), acts[..n]).value, i, cond);
  }

  lemma SawBefore(capacity: seq<int>, acts: seq<Action>, i: nat, cond: (Shared, Pc) -> bool)
    requires acts != [] && acts[|acts| - 1] != Run(i)
    ensures Saw(capacity, acts, i, cond) <==> Saw(capacity, acts[..|acts| - 1], i, cond)
  {
    var front := acts[..|acts| - 1];
    forall k: nat ensures SawAt(capacity, acts, i, cond, k) <==> SawAt(capacity, front, i, cond, k) {
      LastOwnNext(acts, i, k);
      if k < |front| {
        assert front[..k] == acts[..k];
      }
    }
  }

  // Exactly the steps that `cond` describes lead to a place in `target`, where nobody
  // starts and no timer leads from or to.
  ghost predicate LeadTo(cond: (Shared, Pc) -> bool, target: Pc -> bool) {
    && (forall g, p | CanMove(g, p) :: target(Move(g, p).1) <==> cond(g, p))
    && (forall p | target(p) :: !p.GetCheck? && !p.PutCheck? && !p.CloseEnter? && !p.Swap?)
    && (forall p | target(p) :: !p.GetWait? && !p.TimeoutBump?)
  }

  // A goroutine is where it was unless it moves or has just come to be.
  lemma OthersStay(s: Pool, a: Action, i: nat, target: Pc -> bool)
    requires Enabled(s, a) && a != Run(i)
    requires forall p | target(p) :: !p.GetCheck? && !p.PutCheck? && !p.CloseEnter? && !p.Swap?
    requires forall p | target(p) :: !p.GetWait? && !p.TimeoutBump?
    ensures var ts := Next(s, a).threads;
            i < |ts| && target(ts[i]) <==> i < |s.threads| && target(s.threads[i])
  {
  }

  // In every run a goroutine is at such a place if and only if its own last step was such
  // a step.
  lemma {:induction false} ThereIffSaw(
    capacity: seq<int>, acts: seq<Action>, i: nat, cond: (Shared, Pc) -> bool, target: Pc -> bool)
    requires After(New(capacity), acts).Some? && LeadTo(cond, target)
    ensures var ts := After(New(capacity), acts).value.threads;
            i < |ts| && target(ts[i]) <==> Saw(capacity, acts, i, cond)
  {
    if acts != [] {
      var (front, a) := (acts[..|acts| - 1], acts[|acts| - 1]);
      var s := After(New(capacity), front).value;
      if a == Run(i) {
        SawNow(capacity, acts, i, cond);
        assert target(Move(s.g, s.threads[i]).1) <==> cond(s.g, s.threads[i]);
      } else {
        ThereIffSaw(capacity, front, i, cond, target);
        SawBefore(capacity, acts, i, cond);
        OthersStay(s, a, i, target);
      }
    }
  }

  // ---- when a Put closes its connection, and when a Get fails ----------------------------------

  // A Put's check of a closed pool, or its send into a full open channel.
  function Refusal(c: Conn): (Shared, Pc) -> bool {
    (g: Shared, p: Pc) =>
      || (p == PutCheck(c) && g.gate.shut)
      || (p == PutSend(c) && !g.gate.chanClosed && |g.buf| >= g.capacity)
  }

  function Discarding(c: Conn): Pc -> bool {
    (p: Pc) => p == Discard(c)
  }

  lemma DiscardFrom(g: Shared, p: Pc, c: Conn)
    requires CanMove(g, p)
    ensures Move(g, p).1 == Discard(c) <==> Refusal(c)(g, p)
  {
  }

  lemma RefusalLeads(c: Conn)
    ensures LeadTo(Refusal(c), Discarding(c))
  {
    forall g, p | CanMove(g, p) ensures Discarding(c)(Move(g, p).1) <==> Refusal(c)(g, p) {
      DiscardFrom(g, p, c);
    }
  }

  // In every run a Put is about to close its connection if and only if its own last step
  // found the pool closed or the buffer full.
  lemma ClosesIffRefused(capacity: seq<int>, acts: seq<Action>, i: nat, c: Conn)
    requires After(New(capacity), acts).Some?
    ensures var ts := After(New(capacity), acts).value.threads;
            i < |ts| && ts[i] == Discard(c) <==> Saw(capacity, acts, i, Refusal(c))
  {
    RefusalLeads(c);
    ThereIffSaw(capacity, acts, i, Refusal(c), Discarding(c));
  }

  // A Get's check of a closed pool, its look at a closed and empty channel, or the end of
  // its wait.
  function Failure(): (Shared, Pc) -> bool {
    (g: Shared, p: Pc) =>
      || (p.GetCheck? && g.gate.shut)
      || ((p.GetFast? || p.GetWait?) && g.buf == [] && g.gate.chanClosed)
      || p.TimeoutBump?
  }

  function Failing(): Pc -> bool {
    (p: Pc) => p.GetFailed?
  }

  lemma FailureLeads()
    ensures LeadTo(Failure(), Failing())
  {
    forall g, p | CanMove(g, p) ensures Failing()(Move(g, p).1) <==> Failure()(g, p) {
    }
  }

  // In every run a Get has failed if and only if it found the pool closed, or its timer
  // has expired: one that sees a connection has it.
  lemma FailsIffClosedOrExpired(capacity: seq<int>, acts: seq<Action>, i: nat)
    requires After(New(capacity), acts).Some?
    ensures var ts := After(New(capacity), acts).value.threads;
            i < |ts| && ts[i] == GetFailed <==> Saw(capacity, acts, i, Failure())
  {
    FailureLeads();
    ThereIffSaw(capacity, acts, i, Failure(), Failing());
  }

  // ---- while nobody closes the pool --------------------------------------------------------------

  function Putting(p: Pc): int {
    if p.PutCheck? || p.PutSend? then 1 else 0
  }

  // Nothing on the way to being closed.
  predicate Kept(p: Pc) {
    !p.Discard? && !p.Panicked? && !p.CloseEnter? && !p.CloseMark? && !p.CloseChan? && !p.Drain? && !p.DrainClose?
  }

  ghost predicate Open(s: Pool) {
    && s.g.gate == Gate(false, false, Fresh, false) && s.g.ledger.closed == []
    && (forall p | p in s.threads :: Kept(p))
    && |s.g.buf| + Total(Putting, s.threads) <= |s.g.ledger.given|
  }

  lemma OpenLocal(g: Shared, p: Pc)
    requires CanMove(g, p) && Kept(p) && g.gate == Gate(false, false, Fresh, false)
    requires |g.buf| + Putting(p) <= g.capacity
    ensures var (h, q) := Move(g, p);
            && Kept(q) && h.gate == g.gate && h.ledger == g.ledger
            && |h.buf| + Putting(q) <= |g.buf| + Putting(p)
  {
  }

  lemma OpenStep(s: Pool, a: Action)
    requires Open(s) && Enabled(s, a) && a != Spawn(CloseEnter) && |Next(s, a).g.ledger.given| <= s.g.capacity
    ensures Open(Next(s, a))
  {
    match a
    case Run(i) =>
      var p := s.threads[i];
      assert p in s.threads;
      TotalAtLeast(Putting, s.threads, i);
      OpenLocal(s.g, p);
      TotalAdvance(Putting, s.threads, i, Move(s.g, p).1);
      assert forall x | x in Next(s, a).threads :: x in s.threads || x == Move(s.g, p).1 || x == Swap;
    case Spawn(p) => TotalAppend(Putting, s.threads, p);
    case Expire(i) => TotalUpdate(Putting, s.threads, i, TimeoutBump);
  }

  lemma GivenGrows(s: Pool, a: Action)
    requires Enabled(s, a)
    ensures |s.g.ledger.given| <= |Next(s, a).g.ledger.given| && Next(s, a).g.capacity == s.g.capacity
  {
    if a.Run? {
      ArithLocal(s.g, s.threads[a.i]);
    }
  }

  lemma {:induction false} StaysOpen(capacity: seq<int>, acts: seq<Action>)
    requires After(New(capacity), acts).Some? && Spawn(CloseEnter) !in acts
    requires |After(New(capacity), acts).value.g.ledger.given| <= NewCapacity(capacity)
    ensures Open(After(New(capacity), acts).value)
  {
    if acts != [] {
      var (front, a) := (acts[..|acts| - 1], acts[|acts| - 1]);
      var s := After(New(capacity), front).value;
      assert forall x | x in front :: x in acts;
      GivenGrows(s, a);
      StaysOpen(capacity, front);
      Reachable(capacity, front);
      OpenStep(s, a);
    }
  }

  // In a run without a Close and with no more Puts than the capacity, nothing is ever
  // closed: every connection put is in the buffer, in the hands of its Put that has not yet
  // sent it, or in those of a Get.
  lemma NothingIsClosed(capacity: seq<int>, acts: seq<Action>, c: Conn)
    requires After(New(capacity), acts).Some? && Spawn(CloseEnter) !in acts
    requires |After(New(capacity), acts).value.g.ledger.given| <= NewCapacity(capacity)
    ensures var s := After(New(capacity), acts).value;
            && s.g.ledger.closed == [] && (forall p | p in s.threads :: Kept(p))
            && Count(c, s.g.ledger.given) == Count(c, s.g.buf) + Total(Holds(c), s.threads)
  {
    StaysOpen(capacity, acts);
    Reachable(capacity, acts);
    assert Accounted(After(New(capacity), acts).value, c);
  }

  // ---- Gets ------------------------------------------------------------------------------------------

  // A Get that starts once Close has marked the pool fails, without counting anything.
  lemma {:induction false} GetAfterCloseFails(capacity: seq<int>, acts: seq<Action>, k: nat, i: nat)
    requires After(New(capacity), acts).Some? && StepIs(capacity, acts, k, i, GetCheck)
    requires After(New(capacity), acts[..k]).value.g.gate.shut
    ensures var ts := After(New(capacity), acts).value.threads; i < |ts| && ts[i] == GetFailed
  {
    var last := |acts| - 1;
    var s := LastAction(capacity, acts);
    if k < last {
      assert acts[..last][..k] == acts[..k];
      GetAfterCloseFails(capacity, acts[..last], k, i);
    }
  }

  // The first look of a Get: a connection at hand, an empty open channel, a closed one.
  lemma FirstLook(g: Shared)
    ensures CanMove(g, GetFast)
    ensures var (h, q) := Move(g, GetFast);
            && (q.HitBump? <==> g.buf != []) && (q.MissBump? <==> g.buf == [] && !g.gate.chanClosed)
            && (q.GetFailed? <==> g.buf == [] && g.gate.chanClosed)
  {
  }

  // ---- what the counters count ---------------------------------------------------------------------------

  // The Get has its first look: found a connection, found the open channel empty; or its
  // wait ends by the timer.
  function FoundBy(s: Pool, a: Action): nat
    requires Enabled(s, a)
  {
    if a.Run? && From(s, a).GetFast? && Hand(To(s, a)).Some? then 1 else 0
  }

  function MissedBy(s: Pool, a: Action): nat
    requires Enabled(s, a)
  {
    if a.Run? && From(s, a).GetFast? && s.g.buf == [] && !s.g.gate.chanClosed then 1 else 0
  }

  function ExpiredBy(a: Action): nat {
    if a.Expire? then 1 else 0
  }

  ghost function Found(capacity: seq<int>, acts: seq<Action>): nat
    requires After(New(capacity), acts).Some?
  {
    if acts == [] then 0
    else
      var front := acts[..|acts| - 1];
      Found(capacity, front) + FoundBy(After(New(capacity), front).value, acts[|acts| - 1])
  }

  ghost function Missed(capacity: seq<int>, acts: seq<Action>): nat
    requires After(New(capacity), acts).Some?
  {
    if acts == [] then 0
    else
      var front := acts[..|acts| - 1];
      Missed(capacity, front) + MissedBy(After(New(capacity), front).value, acts[|acts| - 1])
  }

  function Expired(acts: seq<Action>): nat {
    if acts == [] then 0 else Expired(acts[..|acts| - 1]) + ExpiredBy(acts[|acts| - 1])
  }

  // Gets that are about to count.
  function ToCountHit(p: Pc): int {
    if p.HitBump? then 1 else 0
  }

  function ToCountMiss(p: Pc): int {
    if p.MissBump? then 1 else 0
  }

  function ToCountTimeout(p: Pc): int {
    if p.TimeoutBump? then 1 else 0
  }

  lemma CountLocal(g: Shared, p: Pc)
    requires CanMove(g, p)
    ensures var (h, q) := Move(g, p);
            && h.gets.hit + ToCountHit(q) == g.gets.hit + ToCountHit(p) + (if p.GetFast? && Hand(q).Some? then 1 else 0)
            && h.gets.miss + ToCountMiss(q)
               == g.gets.miss + ToCountMiss(p) + (if p.GetFast? && g.buf == [] && !g.gate.chanClosed then 1 else 0)
            && h.gets.timeout + ToCountTimeout(q) == g.gets.timeout + ToCountTimeout(p)
  {
  }

  lemma CountStep(s: Pool, a: Action)
    requires Enabled(s, a)
    ensures var t := Next(s, a);
            && t.g.gets.hit + Total(ToCountHit, t.threads)
               == s.g.gets.hit + Total(ToCountHit, s.threads) + FoundBy(s, a)
            && t.g.gets.miss + Total(ToCountMiss, t.threads)
               == s.g.gets.miss + Total(ToCountMiss, s.threads) + MissedBy(s, a)
            && t.g.gets.timeout + Total(ToCountTimeout, t.threads)
               == s.g.gets.timeout + Total(ToCountTimeout, s.threads) + ExpiredBy(a)
  {
    match a
    case Run(i) =>
      var p := s.threads[i];
      CountLocal(s.g, p);
      TotalAdvance(ToCountHit, s.threads, i, Move(s.g, p).1);
      TotalAdvance(ToCountMiss, s.threads, i, Move(s.g, p).1);
      TotalAdvance(ToCountTimeout, s.threads, i, Move(s.g, p).1);
    case Spawn(p) =>
      TotalAppend(ToCountHit, s.threads, p);
      TotalAppend(ToCountMiss, s.threads, p);
      TotalAppend(ToCountTimeout, s.threads, p);
    case Expire(i) =>
      TotalUpdate(ToCountHit, s.threads, i, TimeoutBump);
      TotalUpdate(ToCountMiss, s.threads, i, TimeoutBump);
      TotalUpdate(ToCountTimeout, s.threads, i, TimeoutBump);
  }

  // getHit, getMiss and getTimeout count the Gets that found a connection at once, those
  // that found the open channel empty, and those whose wait ran out, but for the Gets
  // just about to count.
  lemma {:induction false} CountersAre(capacity: seq<int>, acts: seq<Action>)
    requires After(New(capacity), acts).Some?
    ensures var s := After(New(capacity), acts).value;
            && s.g.gets.hit + Total(ToCountHit, s.threads) == Found(capacity, acts)
            && s.g.gets.miss + Total(ToCountMiss, s.threads) == Missed(capacity, acts)
            && s.g.gets.timeout + Total(ToCountTimeout, s.threads) == Expired(acts)
  {
    if acts != [] {
      CountersAre(capacity, acts[..|acts| - 1]);
      CountStep(After(New(capacity), acts[..|acts| - 1]).value, acts[|acts| - 1]);
    }
  }
}
