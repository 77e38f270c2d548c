// What the pool promises over every schedule of its goroutines.
module PoolGuarantees {
  import opened Wrappers
  import opened Sums
  import opened PoolMachine

  // ---- at most one owner, no lost wakeup -----------------------------------

  // `refilling` is set exactly when one goroutine owns it; two goroutines are never
  // inside requestFn at once; pending demand always has someone left to look at it.
  lemma NoLostWakeup(capacity: seq<int>, acts: seq<Action>)
    requires After(New(capacity), acts).Some?
    ensures var s := After(New(capacity), acts).value;
            && (s.g.refill.refilling <==> exists i :: 0 <= i < |s.threads| && Owner(s.threads[i]) == 1)
            && (forall i, j | 0 <= i < j < |s.threads| :: !(Owner(s.threads[i]) == 1 && Owner(s.threads[j]) == 1))
            && (s.g.refill.pending > 0 ==> exists i :: 0 <= i < |s.threads| && Vigilant(s.threads[i]) == 1)
  {
    Reachable(capacity, acts);
    var s := After(New(capacity), acts).value;
    if s.g.refill.refilling {
      SomeoneCounts(Owner, s.threads);
    }
    if s.g.refill.pending > 0 {
      SomeoneCounts(Vigilant, s.threads);
    }
    forall i | 0 <= i < |s.threads|
      ensures Owner(s.threads[i]) == 1 ==> s.g.refill.refilling
    {
      TotalAtLeast(Owner, s.threads, i);
    }
    forall i, j | 0 <= i < j < |s.threads|
      ensures !(Owner(s.threads[i]) == 1 && Owner(s.threads[j]) == 1)
    {
      TotalAtLeastTwo(Owner, s.threads, i, j);
    }
  }

  // A worker that has not returned.
  predicate Working(p: Pc) {
    p.Swap? || p.Serve? || p.InFn? || p.CountSent? || p.Release? || p.Recheck? || p.Reclaim?
  }

  // Of any two such workers one has given `refilling` up and is about to re-check.
  lemma WorkersApart(capacity: seq<int>, acts: seq<Action>, i: nat, j: nat)
    requires After(New(capacity), acts).Some?
    requires var ts := After(New(capacity), acts).value.threads;
             i < j < |ts| && Working(ts[i]) && Working(ts[j])
    ensures var ts := After(New(capacity), acts).value.threads;
            ts[i].Recheck? || ts[i].Reclaim? || ts[j].Recheck? || ts[j].Reclaim?
  {
    NoLostWakeup(capacity, acts);
  }

  // When a goroutine is about to launch a worker, another one still exists if and only if
  // some worker has given `refilling` up and not yet returned.
  lemma LaunchJoinsIff(capacity: seq<int>, acts: seq<Action>, i: nat)
    requires After(New(capacity), acts).Some?
    requires var ts := After(New(capacity), acts).value.threads; i < |ts| && ts[i].Launch?
    ensures var ts := After(New(capacity), acts).value.threads;
            (exists j :: 0 <= j < |ts| && Working(ts[j])) <==>
              exists j :: 0 <= j < |ts| && (ts[j].Recheck? || ts[j].Reclaim?)
  {
    NoLostWakeup(capacity, acts);
    var ts := After(New(capacity), acts).value.threads;
    assert forall j | 0 <= j < |ts| && j != i :: !(Owner(ts[j]) == 1 && Owner(ts[i]) == 1);
  }

  // ---- conservation ----------------------------------------------------------

  // Every unit of refillDemand is sent, pending, or carried by exactly one goroutine;
  // once none carries any and none is about to look, all demand has been sent.
  lemma RefillConservation(capacity: seq<int>, acts: seq<Action>)
    requires After(New(capacity), acts).Some?
    ensures var s := After(New(capacity), acts).value;
            && s.g.refill.demand == s.g.refill.sent + s.g.refill.pending + Total(Carried, s.threads)
            && (Idle(s) ==> s.g.refill.pending == 0 && s.g.refill.sent == s.g.refill.demand && !s.g.refill.refilling)
  {
    Reachable(capacity, acts);
    var s := After(New(capacity), acts).value;
    if Idle(s) {
      IdleIsSettled(s);
    }
  }

  // Nobody is inside requestAsyncRefill or the worker.
  ghost predicate Idle(s: Pool) {
    forall i | 0 <= i < |s.threads| :: Vigilant(s.threads[i]) == 0 && !s.threads[i].AddPending?
  }

  lemma IdleIsSettled(s: Pool)
    requires RefillInv(s) && Idle(s)
    ensures s.g.refill.pending == 0 && s.g.refill.sent == s.g.refill.demand && !s.g.refill.refilling
  {
    TotalZero(Vigilant, s.threads);
    TotalZero(Carried, s.threads);
    VigilantCoversOwner(s.threads);
  }

  // ---- termination -----------------------------------------------------------

  // How many more times a goroutine will add to pendingRefills.
  function FutureAdds(p: Pc): int {
    match p
    case GetCheck | GetFast | MissBump => 2
    case HitBump(_) | GetWait => 1
    case AddDemand(_, t) => if t.Block? then 2 else 1
    case AddPending(_, t) => if t.Block? then 2 else 1
    case TryClaim(t) => if t.Block? then 1 else 0
    case Launch(t) => if t.Block? then 1 else 0
    case _ => 0
  }

  // Demand a worker has swapped out and not yet sent.
  function Unserved(p: Pc): int {
    if p.Serve? || p.InFn? || p.CountSent? then p.left else 0
  }

  // Steps left to a goroutine while nothing is added to pendingRefills. A retired
  // worker climbs back to Swap only while something is pending.
  function Rank(somePending: bool): Pc -> int {
    (p: Pc) => RankOf(somePending, p)
  }

  function RankOf(somePending: bool, p: Pc): int {
    match p
    case GetCheck => 18
    case GetFast => 17
    case MissBump => 16
    case HitBump(_) => 8
    case GetWait => 8
    case TimeoutBump => 1
    case AddDemand(_, t) => if t.Block? then 15 else 7
    case AddPending(_, t) => if t.Block? then 14 else 6
    case TryClaim(t) => if t.Block? then 13 else 5
    case Launch(t) => if t.Block? then 12 else 4
    case Serve(_) => 6
    case InFn(_) => 5
    case CountSent(_) => 4
    case Swap => if somePending then 1 else 3
    case Release => if somePending then 4 else 2
    case Recheck => if somePending then 3 else 1
    case Reclaim => if somePending then 2 else 4
    case PutCheck(_) => 5
    case PutSend(_) => 4
    case Discard(_) => 1
    case CloseEnter => 6
    case CloseMark => 5
    case CloseChan => 4
    case DrainClose(_) => 4
    case Drain => 3
    case _ => 0
  }

  function AddsLeft(s: Pool): int {
    Total(FutureAdds, s.threads)
  }

  function Backlog(s: Pool): int {
    s.g.refill.pending + Total(Unserved, s.threads)
  }

  function Someone(s: Pool): int {
    if s.g.refill.pending > 0 then 1 else 0
  }

  function StepsLeft(s: Pool): int {
    2 * |s.g.buf| + Total(Rank(s.g.refill.pending > 0), s.threads)
  }

  ghost predicate Less(t: Pool, s: Pool) {
    || AddsLeft(t) < AddsLeft(s)
    || (AddsLeft(t) == AddsLeft(s) && Backlog(t) < Backlog(s))
    || (AddsLeft(t) == AddsLeft(s) && Backlog(t) == Backlog(s) && Someone(t) < Someone(s))
    || (AddsLeft(t) == AddsLeft(s) && Backlog(t) == Backlog(s) && Someone(t) == Someone(s)
        && StepsLeft(t) < StepsLeft(s))
  }

  lemma MeasureIsNatural(s: Pool)
    ensures AddsLeft(s) >= 0 && Backlog(s) >= 0 && StepsLeft(s) >= 0
  {
    TotalNonNegative(FutureAdds, s.threads);
    TotalNonNegative(Unserved, s.threads);
    TotalNonNegative(Rank(s.g.refill.pending > 0), s.threads);
  }

  lemma AddsLocal(g: Shared, p: Pc)
    requires CanMove(g, p)
    ensures var (h, q) := Move(g, p);
            FutureAdds(q) <= FutureAdds(p) && (p.AddPending? ==> FutureAdds(q) < FutureAdds(p))
  {
  }

  lemma BacklogLocal(g: Shared, p: Pc)
    requires CanMove(g, p) && LeftOk(p) && !p.AddPending?
    ensures var (h, q) := Move(g, p);
            && h.refill.pending + Unserved(q) + (if p.CountSent? then 1 else 0) == g.refill.pending + Unserved(p)
            && h.refill.pending == (if p.Swap? then 0 else g.refill.pending)
  {
  }

  lemma RankLocal(g: Shared, p: Pc)
    requires CanMove(g, p) && !p.AddPending? && !p.CountSent? && !(p.Swap? && g.refill.pending > 0)
    ensures var (h, q) := Move(g, p);
            var some := g.refill.pending > 0;
            && h.refill.pending == g.refill.pending
            && 2 * |h.buf| + RankOf(some, q) + (if p.Launch? then RankOf(some, Swap) else 0)
               < 2 * |g.buf| + RankOf(some, p)
  {
  }

  // Every action but the arrival of a new caller brings the pool closer to rest.
  lemma StepDescends(s: Pool, a: Action)
    requires RefillInv(s) && Enabled(s, a) && !a.Spawn?
    ensures Less(Next(s, a), s)
  {
    var some := s.g.refill.pending > 0;
    if a.Expire? {
      TotalUpdate(FutureAdds, s.threads, a.i, TimeoutBump);
    } else {
      var p := s.threads[a.i];
      var q := Move(s.g, p).1;
      AddsLocal(s.g, p);
      TotalAdvance(FutureAdds, s.threads, a.i, q);
      if !p.AddPending? {
        BacklogLocal(s.g, p);
        TotalAdvance(Unserved, s.threads, a.i, q);
        if !p.CountSent? && !(p.Swap? && some) {
          RankLocal(s.g, p);
          TotalAdvance(Rank(some), s.threads, a.i, q);
        }
      }
    }
  }

  // At rest: crashed, or every goroutine has finished or waits for another Close.
  predicate Quiet(s: Pool) {
    s.g.gate.fault ||
    forall i | 0 <= i < |s.threads| :: !CanMove(s.g, s.threads[i]) && !s.threads[i].GetWait?
  }

  predicate NoCloseLeft(s: Pool) {
    forall i | 0 <= i < |s.threads| :: !s.threads[i].CloseEnter?
  }

  // No Close waits for good: the one it would wait for has something left to do.
  lemma NoCloseWaits(s: Pool)
    requires ConnInv(s) && Quiet(s) && !s.g.gate.fault
    ensures NoCloseLeft(s)
  {
    if s.g.gate.once.Running? {
      SomeoneCounts(Closer, s.threads);
    }
  }

  // A scheduler that lets no new caller in and never idles while something can move.
  ghost predicate Drains(sched: (nat, Pool) -> Action) {
    forall k, s :: !Quiet(s) ==> Enabled(s, sched(k, s)) && !sched(k, s).Spawn?
  }

  ghost function Follow(s: Pool, sched: (nat, Pool) -> Action, k: nat, n: nat): Pool
    requires Drains(sched)
    decreases n
  {
    if n == 0 || Quiet(s) then s else Follow(Next(s, sched(k, s)), sched, k + 1, n - 1)
  }

  // Under any such scheduler the pool comes to rest, with all demand sent and every Close
  // ended unless a Put crashed the process on the way.
  lemma {:induction false} Settles(s: Pool, sched: (nat, Pool) -> Action, k: nat) returns (n: nat)
    requires RefillInv(s) && Drains(sched)
    ensures var t := Follow(s, sched, k, n);
            && Quiet(t) && (t.g.gate.fault || t.g.refill.sent == t.g.refill.demand)
            && (ConnInv(s) ==> t.g.gate.fault || NoCloseLeft(t))
    decreases AddsLeft(s), Backlog(s), Someone(s), StepsLeft(s)
  {
    MeasureIsNatural(s);
    if Quiet(s) {
      n := 0;
      if !s.g.gate.fault {
        IdleIsSettled(s);
        if ConnInv(s) {
          NoCloseWaits(s);
        }
      }
    } else {
      var a := sched(k, s);
      StepDescends(s, a);
      RefillStep(s, a);
      if ConnInv(s) {
        ConnStep(s, a);
      }
      MeasureIsNatural(Next(s, a));
      var m := Settles(Next(s, a), sched, k + 1);
      n := m + 1;
    }
  }

  // ---- refill arithmetic -----------------------------------------------------

  lemma BurstBounds(capacity: int)
    ensures MIN_MISS_REFILL_BURST <= MissRefillBurst(capacity) <= MAX_MISS_REFILL_BURST
    ensures 8 <= capacity < 36 ==> MissRefillBurst(capacity) == capacity / 4
    ensures capacity < 8 ==> MissRefillBurst(capacity) == 2
    ensures capacity >= 32 ==> MissRefillBurst(capacity) == 8
  {
  }

  lemma BurstArithmetic(b: int, hit: int, miss: int, timeout: int, demand: int)
    requires 2 <= b <= 8 && 0 <= miss
    requires 0 <= demand - hit - b * miss <= miss - timeout
    ensures hit + 2 * miss <= demand <= hit + 9 * miss - timeout
  {
    assert 2 * miss <= b * miss <= 8 * miss;
  }

  // With no Get between a counter and its demand, demand is one per hit, a burst per
  // miss, and one more for each miss that was served instead of timing out.
  lemma RefillArithmetic(capacity: seq<int>, acts: seq<Action>)
    requires After(New(capacity), acts).Some?
    requires forall p | p in After(New(capacity), acts).value.threads :: !p.AddDemand?
    ensures var s := After(New(capacity), acts).value;
            var n := s.g.gets;
            var extra := s.g.refill.demand - n.hit - MissRefillBurst(NewCapacity(capacity)) * n.miss;
            && 0 <= extra <= n.miss - n.timeout
            && n.hit + 2 * n.miss <= s.g.refill.demand <= n.hit + 9 * n.miss - n.timeout
  {
    Reachable(capacity, acts);
    var s := After(New(capacity), acts).value;
    forall i | 0 <= i < |s.threads| ensures Owed(s.threads[i]) == 0 {
      assert s.threads[i] in s.threads;
    }
    TotalZero(Owed, s.threads);
    TotalNonNegative(Waiting, s.threads);
    BurstBounds(s.g.capacity);
    BurstArithmetic(MissRefillBurst(s.g.capacity), s.g.gets.hit, s.g.gets.miss, s.g.gets.timeout, s.g.refill.demand);
  }

  // ---- connections -----------------------------------------------------------

  // A connection passed to Put once is in exactly one place: the buffer, one goroutine's
  // hands (the Put, or the one Get it was handed to, or the closing pool), or closed once.
  lemma ConnConservation(capacity: seq<int>, acts: seq<Action>, c: Conn)
    requires After(New(capacity), acts).Some?
    requires Count(c, After(New(capacity), acts).value.g.ledger.given) == 1
    ensures var s := After(New(capacity), acts).value;
            && Count(c, s.g.buf) + Count(c, s.g.ledger.closed) + Total(Holds(c), s.threads) == 1
            && Count(c, s.g.buf) >= 0 && Count(c, s.g.ledger.closed) >= 0
            && (forall i, j | 0 <= i < j < |s.threads| ::
               !(Hand(s.threads[i]) == Some(c) && Hand(s.threads[j]) == Some(c)))
            && ((exists i :: 0 <= i < |s.threads| && Hand(s.threads[i]) == Some(c)) ==>
                  c !in s.g.buf && c !in s.g.ledger.closed)
  {
    Reachable(capacity, acts);
    var s := After(New(capacity), acts).value;
    assert Accounted(s, c);
    TotalNonNegative(Is(c), s.g.buf);
    TotalNonNegative(Is(c), s.g.ledger.closed);
    forall i, j | 0 <= i < j < |s.threads|
      ensures !(Hand(s.threads[i]) == Some(c) && Hand(s.threads[j]) == Some(c))
    {
      TotalAtLeastTwo(Holds(c), s.threads, i, j);
    }
    if i :| 0 <= i < |s.threads| && Hand(s.threads[i]) == Some(c) {
      TotalAtLeast(Holds(c), s.threads, i);
      MemberCounts(c, s.g.buf);
      MemberCounts(c, s.g.ledger.closed);
    }
  }

  lemma MemberCounts(c: Conn, cs: seq<Conn>)
    ensures c in cs ==> Count(c, cs) >= 1
  {
    if i :| 0 <= i < |cs| && cs[i] == c {
      TotalAtLeast(Is(c), cs, i);
    }
  }

  // The buffer never exceeds the channel's capacity and is empty once Close has returned.
  lemma BufferBounds(capacity: seq<int>, acts: seq<Action>)
    requires After(New(capacity), acts).Some?
    ensures var s := After(New(capacity), acts).value;
            && |s.g.buf| <= NewCapacity(capacity)
            && (s.g.gate.once.Finished? ==> s.g.gate.chanClosed && s.g.buf == [])
  {
    Reachable(capacity, acts);
  }

  // ---- the send on a closed channel --------------------------------------------

  // Step k of the schedule is goroutine i running the operation at p.
  ghost predicate StepIs(capacity: seq<int>, acts: seq<Action>, k: int, i: nat, p: Pc) {
    && 0 <= k < |acts| && acts[k] == Run(i)
    && After(New(capacity), acts[..k]).Some?
    && var ts := After(New(capacity), acts[..k]).value.threads;
       i < |ts| && ts[i] == p
  }

  lemma PutSendFrom(s: Pool, a: Action, i: nat)
    requires Enabled(s, a) && i < |Next(s, a).threads| && Next(s, a).threads[i].PutSend?
    ensures i < |s.threads|
    ensures s.threads[i] == Next(s, a).threads[i]
            || (a == Run(i) && s.threads[i] == PutCheck(Next(s, a).threads[i].conn) && !s.g.gate.shut)
  {
  }

  lemma ChanClosedFrom(s: Pool, a: Action)
    requires Enabled(s, a) && Next(s, a).g.gate.chanClosed && !s.g.gate.chanClosed
    ensures a.Run? && s.threads[a.i].CloseChan?
  {
  }

  // The last action of a schedule and the state it acted on.
  lemma LastAction(capacity: seq<int>, acts: seq<Action>) returns (s: Pool)
    requires acts != [] && After(New(capacity), acts).Some?
    ensures After(New(capacity), acts[..|acts| - 1]) == Some(s)
    ensures Enabled(s, acts[|acts| - 1])
    ensures After(New(capacity), acts) == Some(Next(s, acts[|acts| - 1]))
  {
    s := After(New(capacity), acts[..|acts| - 1]).value;
  }

  lemma StepInPrefix(capacity: seq<int>, acts: seq<Action>, n: nat, k: int, i: nat, p: Pc)
    requires n <= |acts| && StepIs(capacity, acts[..n], k, i, p)
    ensures StepIs(capacity, acts, k, i, p)
  {
    assert acts[..n][..k] == acts[..k];
  }

  lemma ShutBeforeChanClosed(capacity: seq<int>, acts: seq<Action>)
    requires After(New(capacity), acts).Some?
    ensures var g := After(New(capacity), acts).value.g.gate; g.chanClosed ==> g.shut
  {
    Reachable(capacity, acts);
  }

  lemma {:induction false} WhenChecked(capacity: seq<int>, acts: seq<Action>, i: nat, c: Conn) returns (check: nat)
    requires After(New(capacity), acts).Some?
    requires var ts := After(New(capacity), acts).value.threads;
             i < |ts| && ts[i] == PutSend(c)
    ensures StepIs(capacity, acts, check, i, PutCheck(c))
  {
    var last := |acts| - 1;
    var s := LastAction(capacity, acts);
    PutSendFrom(s, acts[last], i);
    if s.threads[i] == PutSend(c) {
      check := WhenChecked(capacity, acts[..last], i, c);
      StepInPrefix(capacity, acts, last, check, i, PutCheck(c));
    } else {
      check := last;
    }
  }

  // A Put about to send on a closed channel passed its check before the close.
  lemma {:induction false} FaultNeedsRace(capacity: seq<int>, acts: seq<Action>, i: nat, c: Conn)
      returns (check: nat, close: nat, closer: nat)
    requires After(New(capacity), acts).Some?
    requires var s := After(New(capacity), acts).value;
             i < |s.threads| && s.threads[i] == PutSend(c) && s.g.gate.chanClosed
    ensures check < close < |acts|
    ensures StepIs(capacity, acts, check, i, PutCheck(c))
    ensures StepIs(capacity, acts, close, closer, CloseChan)
  {
    var last := |acts| - 1;
    var s := LastAction(capacity, acts);
    var prefix, a := acts[..last], acts[last];
    ShutBeforeChanClosed(capacity, prefix);
    PutSendFrom(s, a, i);
    if s.g.gate.chanClosed {
      check, close, closer := FaultNeedsRace(capacity, prefix, i, c);
      StepInPrefix(capacity, acts, last, close, closer, CloseChan);
    } else {
      ChanClosedFrom(s, a);
      close, closer := last, a.i;
      check := WhenChecked(capacity, prefix, i, c);
    }
    StepInPrefix(capacity, acts, last, check, i, PutCheck(c));
  }

  lemma FaultsIff(s: Pool, a: Action)
    requires Enabled(s, a)
    ensures Next(s, a).g.gate.fault <==> a.Run? && s.threads[a.i].PutSend? && s.g.gate.chanClosed
  {
  }

  lemma CloseChanCloses(s: Pool, a: Action)
    requires Enabled(s, a)
    ensures s.g.gate.chanClosed || (a.Run? && s.threads[a.i].CloseChan?) ==> Next(s, a).g.gate.chanClosed
  {
  }

  // A closed channel stays closed.
  lemma {:induction false} ClosedPersists(capacity: seq<int>, acts: seq<Action>, close: nat, closer: nat)
    requires After(New(capacity), acts).Some? && StepIs(capacity, acts, close, closer, CloseChan)
    ensures After(New(capacity), acts).value.g.gate.chanClosed
  {
    var last := |acts| - 1;
    var s := LastAction(capacity, acts);
    CloseChanCloses(s, acts[last]);
    if close < last {
      assert acts[..last][..close] == acts[..close];
      ClosedPersists(capacity, acts[..last], close, closer);
    }
  }

  // The schedule ends with goroutine i's send of c, and between that Put's check and its
  // send a Close closed the channel.
  ghost predicate Race(capacity: seq<int>, acts: seq<Action>, i: nat, c: Conn, check: int, close: int, closer: nat) {
    && 0 <= check < close < |acts| - 1
    && StepIs(capacity, acts, check, i, PutCheck(c))
    && StepIs(capacity, acts, close, closer, CloseChan)
    && StepIs(capacity, acts, |acts| - 1, i, PutSend(c))
  }

  lemma RaceFaults(capacity: seq<int>, acts: seq<Action>, i: nat, c: Conn, check: int, close: int, closer: nat)
    requires After(New(capacity), acts).Some? && Race(capacity, acts, i, c, check, close, closer)
    ensures After(New(capacity), acts).value.g.gate.fault
  {
    var last := |acts| - 1;
    var s := LastAction(capacity, acts);
    assert acts[..last][..close] == acts[..close];
    ClosedPersists(capacity, acts[..last], close, closer);
    FaultsIff(s, acts[last]);
  }

  lemma FaultRaces(capacity: seq<int>, acts: seq<Action>)
      returns (i: nat, c: Conn, check: nat, close: nat, closer: nat)
    requires After(New(capacity), acts).Some? && After(New(capacity), acts).value.g.gate.fault
    ensures Race(capacity, acts, i, c, check, close, closer)
  {
    var last := |acts| - 1;
    var s := LastAction(capacity, acts);
    FaultsIff(s, acts[last]);
    i := acts[last].i;
    c := s.threads[i].conn;
    check, close, closer := FaultNeedsRace(capacity, acts[..last], i, c);
    StepInPrefix(capacity, acts, last, check, i, PutCheck(c));
    StepInPrefix(capacity, acts, last, close, closer, CloseChan);
  }

  // A run panics if and only if it ends with a Put's send that a Close overtook.
  lemma FaultIffRace(capacity: seq<int>, acts: seq<Action>)
    requires After(New(capacity), acts).Some?
    ensures After(New(capacity), acts).value.g.gate.fault <==>
              exists i: nat, c: Conn, check: int, close: int, closer: nat ::
                  Race(capacity, acts, i, c, check, close, closer)
  {
    if After(New(capacity), acts).value.g.gate.fault {
      var i, c, check, close, closer := FaultRaces(capacity, acts);
    }
    if i: nat, c: Conn, check: int, close: int, closer: nat :| Race(capacity, acts, i, c, check, close, closer) {
      RaceFaults(capacity, acts, i, c, check, close, closer);
    }
  }
}
