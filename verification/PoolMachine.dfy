// The work-connection pool of internal/pool/pool.go as a system of goroutines.
//
// Every atomic operation of Get, Put, Close, requestAsyncRefill and the refill
// worker is one step. Any number of goroutines may be running any of them; each
// has its own program counter and the scheduler picks who moves next.
module PoolMachine {
  import opened Wrappers
  import opened Sums

  // A work connection, known by its identity.
  type Conn = nat

  const DEFAULT_CAPACITY := 64
  const MIN_MISS_REFILL_BURST := 2
  const MAX_MISS_REFILL_BURST := 8

  // What requestAsyncRefill returns to: the Get that already holds a connection,
  // or the Get that missed and now has to wait for one.
  datatype Then = Deliver(conn: Conn) | Block

  datatype Pc =
      // Get
    | GetCheck | GetFast | HitBump(conn: Conn) | MissBump | GetWait | TimeoutBump
    | Got(conn: Conn) | GetFailed
      // requestAsyncRefill and startRefillWorker
    | AddDemand(n: nat, andThen: Then) | AddPending(n: nat, andThen: Then)
    | TryClaim(andThen: Then) | Launch(andThen: Then)
      // the refill worker
    | Swap | Serve(left: nat) | InFn(left: nat) | CountSent(left: nat)
    | Release | Recheck | Reclaim | Exited
      // Put
    | PutCheck(conn: Conn) | PutSend(conn: Conn) | Discard(conn: Conn) | PutDone
    | Panicked(conn: Conn)
      // Close
    | CloseEnter | CloseMark | CloseChan | Drain | DrainClose(conn: Conn) | CloseDone

  datatype Once = Fresh | Running | Finished

  // The closed flag under mu, the state of the conns channel and closedOnce. `fault`
  // is the panic of a send on a closed channel.
  datatype Gate = Gate(shut: bool, chanClosed: bool, once: Once, fault: bool)

  datatype Refill = Refill(refilling: bool, pending: nat, demand: nat, sent: nat)

  datatype Gets = Gets(hit: nat, miss: nat, timeout: nat)

  // Observers: the connections ever passed to Put and the ones the pool has closed.
  datatype Ledger = Ledger(given: seq<Conn>, closed: seq<Conn>)

  // What the goroutines share.
  datatype Shared = Shared(
    capacity: nat, buf: seq<Conn>, gate: Gate, refill: Refill, gets: Gets, ledger: Ledger)

  datatype Pool = Pool(g: Shared, threads: seq<Pc>)

  datatype Action = Spawn(entry: Pc) | Run(i: nat) | Expire(i: nat)

  // New(requestFn, capacity...): a missing or non-positive capacity means 64.
  function NewCapacity(capacity: seq<int>): nat {
    if |capacity| > 0 && capacity[0] > 0 then capacity[0] else DEFAULT_CAPACITY
  }

  function New(capacity: seq<int>): Pool {
    var g := Shared(NewCapacity(capacity), [], Gate(false, false, Fresh, false), Refill(false, 0, 0, 0),
                    Gets(0, 0, 0), Ledger([], []));
    Pool(g, [])
  }

  function MissRefillBurst(capacity: int): nat {
    if capacity <= 0 then MIN_MISS_REFILL_BURST
    else
      var burst := capacity / 4;
      var atLeast := if burst < MIN_MISS_REFILL_BURST then MIN_MISS_REFILL_BURST else burst;
      if atLeast > MAX_MISS_REFILL_BURST then MAX_MISS_REFILL_BURST else atLeast
  }

  function Resume(andThen: Then): Pc {
    match andThen
    case Deliver(c) => Got(c)
    case Block => GetWait
  }

  // Whether a goroutine at p has an atomic operation to do. A Get in its waiting
  // select needs a connection or a closed channel; a second Close waits for the first.
  predicate CanMove(g: Shared, p: Pc) {
    match p
    case Got(_) | GetFailed | Exited | PutDone | Panicked(_) | CloseDone => false
    case GetWait => g.buf != [] || g.gate.chanClosed
    case CloseEnter => !g.gate.once.Running?
    case _ => true
  }

  // One atomic operation: the shared state and the program counter after it.
  function Move(g: Shared, p: Pc): (Shared, Pc)
    requires CanMove(g, p)
  {
    match p
    // Get
    case GetCheck => (g, if g.gate.shut then GetFailed else GetFast)
    case GetFast =>
      if g.buf != [] then (g.(buf := g.buf[1..]), HitBump(g.buf[0]))
      else (g, if g.gate.chanClosed then GetFailed else MissBump)
    case HitBump(c) => (g.(gets := g.gets.(hit := g.gets.hit + 1)), AddDemand(1, Deliver(c)))
    case MissBump => (g.(gets := g.gets.(miss := g.gets.miss + 1)), AddDemand(MissRefillBurst(g.capacity), Block))
    case GetWait =>
      if g.buf != [] then (g.(buf := g.buf[1..]), AddDemand(1, Deliver(g.buf[0])))
      else (g, GetFailed)
    case TimeoutBump => (g.(gets := g.gets.(timeout := g.gets.timeout + 1)), GetFailed)
    // requestAsyncRefill and the claim in startRefillWorker
    case AddDemand(n, t) => (g.(refill := g.refill.(demand := g.refill.demand + n)), AddPending(n, t))
    case AddPending(n, t) => (g.(refill := g.refill.(pending := g.refill.pending + n)), TryClaim(t))
    case TryClaim(t) =>
      if g.refill.refilling then (g, Resume(t))
      else (g.(refill := g.refill.(refilling := true)), Launch(t))
    case Launch(t) => (g, Resume(t))
    // the refill worker
    case Swap =>
      (g.(refill := g.refill.(pending := 0)),
       if g.refill.pending == 0 then Release else Serve(g.refill.pending))
    case Serve(left) => (g, InFn(left))
    case InFn(left) => (g, CountSent(left))
    case CountSent(left) =>
      (g.(refill := g.refill.(sent := g.refill.sent + 1)), if left <= 1 then Swap else Serve(left - 1))
    case Release => (g.(refill := g.refill.(refilling := false)), Recheck)
    case Recheck => (g, if g.refill.pending == 0 then Exited else Reclaim)
    case Reclaim => if g.refill.refilling then (g, Exited) else (g.(refill := g.refill.(refilling := true)), Swap)
    // Put
    case PutCheck(c) => (g, if g.gate.shut then Discard(c) else PutSend(c))
    case PutSend(c) =>
      if g.gate.chanClosed then (g.(gate := g.gate.(fault := true)), Panicked(c))
      else if |g.buf| < g.capacity then (g.(buf := g.buf + [c]), PutDone)
      else (g, Discard(c))
    case Discard(c) => (g.(ledger := g.ledger.(closed := g.ledger.closed + [c])), PutDone)
    // Close
    case CloseEnter => if g.gate.once.Fresh? then (g.(gate := g.gate.(once := Running)), CloseMark) else (g, CloseDone)
    case CloseMark => (g.(gate := g.gate.(shut := true)), CloseChan)
    case CloseChan => (g.(gate := g.gate.(chanClosed := true)), Drain)
    case Drain =>
      if g.buf != [] then (g.(buf := g.buf[1..]), DrainClose(g.buf[0]))
      else (g.(gate := g.gate.(once := Finished)), CloseDone)
    case DrainClose(c) => (g.(ledger := g.ledger.(closed := g.ledger.closed + [c])), Drain)
  }

  // Replaces goroutine i's program counter; a launched worker joins the list.
  function Advance(ts: seq<Pc>, i: nat, p: Pc): seq<Pc>
    requires i < |ts|
  {
    ts[i := p] + if ts[i].Launch? then [Swap] else []
  }

  predicate Enabled(s: Pool, a: Action) {
    !s.g.gate.fault &&
    match a
    case Spawn(p) => p.GetCheck? || p.PutCheck? || p.CloseEnter?
    case Run(i) => i < |s.threads| && CanMove(s.g, s.threads[i])
    case Expire(i) => i < |s.threads| && s.threads[i].GetWait?
  }

  function Next(s: Pool, a: Action): Pool
    requires Enabled(s, a)
  {
    match a
    case Spawn(p) =>
      var g := if p.PutCheck? then s.g.(ledger := s.g.ledger.(given := s.g.ledger.given + [p.conn])) else s.g;
      Pool(g, s.threads + [p])
    case Run(i) =>
      var (g, p) := Move(s.g, s.threads[i]);
      Pool(g, Advance(s.threads, i, p))
    case Expire(i) => Pool(s.g, s.threads[i := TimeoutBump])
  }

  // The state after the whole schedule, if every action was enabled in turn.
  function After(s: Pool, acts: seq<Action>): Option<Pool> {
    if acts == [] then Some(s)
    else
      match After(s, acts[..|acts| - 1])
      case None => None
      case Some(t) =>
        var a := acts[|acts| - 1];
        if Enabled(t, a) then Some(Next(t, a)) else None
  }

  // ---- weights -----------------------------------------------------------

  // Holds `refilling`.
  function Owner(p: Pc): int {
    if p.Launch? || p.Swap? || p.Serve? || p.InFn? || p.CountSent? || p.Release? then 1 else 0
  }

  // Will look at `pendingRefills` again, or make somebody do so.
  function Vigilant(p: Pc): int {
    if Owner(p) == 1 || p.TryClaim? || p.Recheck? || p.Reclaim? then 1 else 0
  }

  // Demand already counted in refillDemand, on its way to refillSent.
  function Carried(p: Pc): int {
    match p
    case AddPending(n, _) => n
    case Serve(left) => left
    case InFn(left) => left
    case CountSent(left) => left
    case _ => 0
  }

  // Demand a Get has accounted for as hit or miss but not yet added.
  function Owed(p: Pc): int {
    if p.AddDemand? then p.n else 0
  }

  // A Get that has counted its miss and not yet left the waiting select.
  function Waiting(p: Pc): int {
    match p
    case AddDemand(_, t) => if t.Block? then 1 else 0
    case AddPending(_, t) => if t.Block? then 1 else 0
    case TryClaim(t) => if t.Block? then 1 else 0
    case Launch(t) => if t.Block? then 1 else 0
    case GetWait => 1
    case TimeoutBump => 1
    case _ => 0
  }

  function Closer(p: Pc): int {
    if p.CloseMark? || p.CloseChan? || p.Drain? || p.DrainClose? then 1 else 0
  }

  // The connection a goroutine has in its hands.
  function Hand(p: Pc): Option<Conn> {
    match p
    case HitBump(c) => Some(c)
    case Got(c) => Some(c)
    case AddDemand(_, t) => HandThen(t)
    case AddPending(_, t) => HandThen(t)
    case TryClaim(t) => HandThen(t)
    case Launch(t) => HandThen(t)
    case PutCheck(c) => Some(c)
    case PutSend(c) => Some(c)
    case Discard(c) => Some(c)
    case Panicked(c) => Some(c)
    case DrainClose(c) => Some(c)
    case _ => None
  }

  function HandThen(t: Then): Option<Conn> {
    if t.Deliver? then Some(t.conn) else None
  }

  function InHand(c: Conn, p: Pc): int {
    if Hand(p) == Some(c) then 1 else 0
  }

  function Holds(c: Conn): Pc -> int {
    (p: Pc) => InHand(c, p)
  }

  function Is(c: Conn): Conn -> int {
    (x: Conn) => if x == c then 1 else 0
  }

  // How often connection c is in a list.
  function Count(c: Conn, cs: seq<Conn>): int {
    Total(Is(c), cs)
  }

  // ---- invariants --------------------------------------------------------

  ghost predicate RefillInv(s: Pool) {
    && Total(Owner, s.threads) == (if s.g.refill.refilling then 1 else 0)
    && (s.g.refill.pending > 0 ==> Total(Vigilant, s.threads) > 0)
    && s.g.refill.demand == s.g.refill.sent + s.g.refill.pending + Total(Carried, s.threads)
    && (forall i | 0 <= i < |s.threads| :: LeftOk(s.threads[i]))
  }

  predicate LeftOk(p: Pc) {
    (p.Serve? || p.InFn? || p.CountSent?) ==> p.left > 0
  }

  // How far refillDemand runs ahead of the hits and bursts: one for each Get
  // that missed and was then served from the waiting select.
  function Slow(s: Pool): int {
    s.g.refill.demand + Total(Owed, s.threads) - s.g.gets.hit - MissRefillBurst(s.g.capacity) * s.g.gets.miss
  }

  ghost predicate ArithInv(s: Pool) {
    && 0 <= Slow(s)
    && Slow(s) + s.g.gets.timeout + Total(Waiting, s.threads) <= s.g.gets.miss
  }

  ghost predicate ConnInv(s: Pool) {
    && (forall c: Conn :: Accounted(s, c))
    && |s.g.buf| <= s.g.capacity
    && Total(Closer, s.threads) == (if s.g.gate.once.Running? then 1 else 0)
    && ClosingOk(s.g)
    && (forall i | 0 <= i < |s.threads| :: CloserOk(s.g, s.threads[i]))
  }

  // Buffered, closed or in some goroutine's hands: as often as it was passed to Put.
  predicate Accounted(s: Pool, c: Conn) {
    Count(c, s.g.ledger.given) == Count(c, s.g.buf) + Count(c, s.g.ledger.closed) + Total(Holds(c), s.threads)
  }

  predicate ClosingOk(g: Shared) {
    && (g.gate.chanClosed ==> g.gate.shut)
    && (g.gate.shut ==> !g.gate.once.Fresh?)
    && (g.gate.once.Finished? ==> g.gate.chanClosed && g.buf == [])
  }

  predicate CloserOk(g: Shared, p: Pc) {
    && (p.CloseChan? ==> g.gate.shut)
    && (p.Drain? || p.DrainClose? ==> g.gate.chanClosed)
  }

  ghost predicate Inv(s: Pool) {
    RefillInv(s) && ArithInv(s) && ConnInv(s)
  }

  // ---- one operation, seen locally ----------------------------------------

  lemma RefillLocal(g: Shared, p: Pc)
    requires CanMove(g, p) && LeftOk(p) && (Owner(p) == 1 ==> g.refill.refilling)
    ensures var (h, q) := Move(g, p);
            var spawned := if p.Launch? then 1 else 0;
            && LeftOk(q)
            && h.refill.demand - h.refill.sent - h.refill.pending - Carried(q)
               == g.refill.demand - g.refill.sent - g.refill.pending - Carried(p)
            && (h.refill.refilling == g.refill.refilling ==> Owner(q) + spawned == Owner(p))
            && (h.refill.refilling && !g.refill.refilling ==> Owner(p) == 0 && Owner(q) == 1)
            && (!h.refill.refilling && g.refill.refilling ==> Owner(p) == 1 && Owner(q) == 0)
            && (Vigilant(q) + spawned < Vigilant(p) ==> h.refill.refilling || h.refill.pending == 0)
            && (h.refill.pending > g.refill.pending ==> Vigilant(q) == 1)
            && (h.refill.pending < g.refill.pending ==> h.refill.pending == 0)
  {
  }

  lemma ArithLocal(g: Shared, p: Pc)
    requires CanMove(g, p)
    ensures var (h, q) := Move(g, p);
            var burst := if p.MissBump? then MissRefillBurst(g.capacity) else 0;
            var slow := (h.refill.demand + Owed(q) - h.gets.hit) - (g.refill.demand + Owed(p) - g.gets.hit) - burst;
            && h.capacity == g.capacity
            && h.gets.miss == (if p.MissBump? then g.gets.miss + 1 else g.gets.miss)
            && 0 <= slow
            && slow + h.gets.timeout - g.gets.timeout + Waiting(q) - Waiting(p) <= h.gets.miss - g.gets.miss
  {
    if p.MissBump? {
      assert Move(g, p)
          == (g.(gets := g.gets.(miss := g.gets.miss + 1)), AddDemand(MissRefillBurst(g.capacity), Block));
    } else if p.GetWait? {
    }
  }

  lemma ConnLocal(g: Shared, p: Pc)
    requires CanMove(g, p) && |g.buf| <= g.capacity && ClosingOk(g) && CloserOk(g, p)
    requires Closer(p) == 1 ==> g.gate.once.Running?
    ensures var (h, q) := Move(g, p);
            && h.ledger.given == g.ledger.given
            && |h.buf| <= h.capacity && ClosingOk(h) && CloserOk(h, q)
            && (g.gate.shut ==> h.gate.shut) && (g.gate.chanClosed ==> h.gate.chanClosed)
            && Closer(q) - Closer(p)
               == (if h.gate.once.Running? then 1 else 0) - (if g.gate.once.Running? then 1 else 0)
  {
  }

  lemma CountAppend(c: Conn, cs: seq<Conn>, x: Conn)
    ensures Count(c, cs + [x]) == Count(c, cs) + (if x == c then 1 else 0)
  {
    TotalAppend(Is(c), cs, x);
  }

  // The operations that move a connection between the buffer, a goroutine and closed.
  predicate Takes(g: Shared, p: Pc) {
    (p.GetFast? || p.GetWait? || p.Drain?) && g.buf != []
  }

  predicate Puts(p: Pc) {
    p.PutSend? || p.Discard? || p.DrainClose?
  }

  lemma HandKept(g: Shared, p: Pc)
    requires CanMove(g, p) && !Takes(g, p) && !Puts(p)
    ensures var (h, q) := Move(g, p);
            h.buf == g.buf && h.ledger == g.ledger && Hand(q) == Hand(p)
  {
  }

  lemma HandTaken(g: Shared, p: Pc)
    requires CanMove(g, p) && Takes(g, p)
    ensures var (h, q) := Move(g, p);
            h.ledger == g.ledger && h.buf == g.buf[1..] && Hand(q) == Some(g.buf[0]) && Hand(p) == None
  {
  }

  lemma HandPut(g: Shared, p: Pc, c: Conn)
    requires CanMove(g, p) && Puts(p)
    ensures var (h, q) := Move(g, p);
            && h.ledger.given == g.ledger.given
            && Count(c, h.buf) + Count(c, h.ledger.closed) + InHand(c, q)
               == Count(c, g.buf) + Count(c, g.ledger.closed) + InHand(c, p)
  {
    CountAppend(c, g.buf, p.conn);
    CountAppend(c, g.ledger.closed, p.conn);
  }

  // ---- one action, summed over the goroutines ------------------------------

  // Launch puts a new worker next to the goroutine it belongs to.
  lemma TotalAdvance(w: Pc -> int, ts: seq<Pc>, i: nat, p: Pc)
    requires i < |ts|
    ensures Total(w, Advance(ts, i, p)) ==
            Total(w, ts) - w(ts[i]) + w(p) + (if ts[i].Launch? then w(Swap) else 0)
  {
    TotalUpdate(w, ts, i, p);
    if ts[i].Launch? {
      TotalAppend(w, ts[i := p], Swap);
    } else {
      assert Advance(ts, i, p) == ts[i := p];
    }
  }

  lemma VigilantCoversOwner(ts: seq<Pc>)
    ensures 0 <= Total(Owner, ts) <= Total(Vigilant, ts)
  {
    TotalMonotone(Owner, Vigilant, ts);
    TotalNonNegative(Owner, ts);
  }

  lemma RefillRun(s: Pool, i: nat)
    requires RefillInv(s) && Enabled(s, Run(i))
    ensures RefillInv(Next(s, Run(i)))
  {
    var p := s.threads[i];
    var q := Move(s.g, p).1;
    TotalAtLeast(Owner, s.threads, i);
    RefillLocal(s.g, p);
    TotalAdvance(Owner, s.threads, i, q);
    TotalAdvance(Vigilant, s.threads, i, q);
    TotalAdvance(Carried, s.threads, i, q);
    VigilantCoversOwner(s.threads);
    VigilantCoversOwner(Next(s, Run(i)).threads);
    TotalAtLeast(Vigilant, Next(s, Run(i)).threads, i);
  }

  lemma RefillStep(s: Pool, a: Action)
    requires RefillInv(s) && Enabled(s, a)
    ensures RefillInv(Next(s, a))
  {
    match a
    case Run(i) => RefillRun(s, i);
    case Spawn(p) =>
      TotalAppend(Owner, s.threads, p);
      TotalAppend(Vigilant, s.threads, p);
      TotalAppend(Carried, s.threads, p);
    case Expire(i) =>
      TotalUpdate(Owner, s.threads, i, TimeoutBump);
      TotalUpdate(Vigilant, s.threads, i, TimeoutBump);
      TotalUpdate(Carried, s.threads, i, TimeoutBump);
  }

  lemma ArithStep(s: Pool, a: Action)
    requires ArithInv(s) && Enabled(s, a)
    ensures ArithInv(Next(s, a))
  {
    match a
    case Run(i) =>
      var (p, b) := (s.threads[i], MissRefillBurst(s.g.capacity));
      ArithLocal(s.g, p);
      TotalAdvance(Owed, s.threads, i, Move(s.g, p).1);
      TotalAdvance(Waiting, s.threads, i, Move(s.g, p).1);
      assert b * (s.g.gets.miss + 1) == b * s.g.gets.miss + b;
    case Spawn(p) =>
      TotalAppend(Owed, s.threads, p);
      TotalAppend(Waiting, s.threads, p);
    case Expire(i) =>
      TotalUpdate(Owed, s.threads, i, TimeoutBump);
      TotalUpdate(Waiting, s.threads, i, TimeoutBump);
  }

  lemma AccountedRun(s: Pool, i: nat, c: Conn)
    requires Accounted(s, c) && Enabled(s, Run(i))
    ensures Accounted(Next(s, Run(i)), c)
  {
    var p := s.threads[i];
    if Takes(s.g, p) {
      HandTaken(s.g, p);
    } else if Puts(p) {
      HandPut(s.g, p, c);
    } else {
      HandKept(s.g, p);
    }
    TotalAdvance(Holds(c), s.threads, i, Move(s.g, p).1);
  }

  lemma AccountedStep(s: Pool, a: Action, c: Conn)
    requires Accounted(s, c) && Enabled(s, a)
    ensures Accounted(Next(s, a), c)
  {
    match a
    case Run(i) => AccountedRun(s, i, c);
    case Spawn(p) =>
      TotalAppend(Holds(c), s.threads, p);
      if p.PutCheck? {
        CountAppend(c, s.g.ledger.given, p.conn);
      }
    case Expire(i) => TotalUpdate(Holds(c), s.threads, i, TimeoutBump);
  }

  lemma ConnStep(s: Pool, a: Action)
    requires ConnInv(s) && Enabled(s, a)
    ensures ConnInv(Next(s, a))
  {
    forall c: Conn ensures Accounted(Next(s, a), c) {
      AccountedStep(s, a, c);
    }
    match a
    case Run(i) =>
      TotalAtLeast(Closer, s.threads, i);
      ConnLocal(s.g, s.threads[i]);
      TotalAdvance(Closer, s.threads, i, Move(s.g, s.threads[i]).1);
    case Spawn(p) => TotalAppend(Closer, s.threads, p);
    case Expire(i) => TotalUpdate(Closer, s.threads, i, TimeoutBump);
  }

  // Every state any schedule can reach satisfies the invariant.
  lemma {:induction false} Reachable(capacity: seq<int>, acts: seq<Action>)
    requires After(New(capacity), acts).Some?
    ensures var s := After(New(capacity), acts).value;
            Inv(s) && s.g.capacity == NewCapacity(capacity)
  {
    if acts != [] {
      var prefix, a := acts[..|acts| - 1], acts[|acts| - 1];
      Reachable(capacity, prefix);
      var s := After(New(capacity), prefix).value;
      RefillStep(s, a);
      ArithStep(s, a);
      ConnStep(s, a);
      if a.Run? {
        ArithLocal(s.g, s.threads[a.i]);
      }
    }
  }
}
