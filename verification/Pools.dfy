// The pool of internal/pool/pool.go as the object its callers see: New, Put, Get, Close,
// requestAsyncRefill and the refill worker, each written operation by operation.
//
// Between any two operations of a goroutine every other goroutine may act; that is method
// Yield. What each method is proved to do is to take its goroutine through PoolMachine:
// the object's state is always one that some schedule of the machine reaches, so every
// theorem of PoolGuarantees holds of it.
module Pools {
  import opened Wrappers
  import opened Sums
  import M = PoolMachine
  import G = PoolGuarantees

  datatype Received = Conn(conn: M.Conn) | Closed | WouldBlock

  datatype Offered = Sent | Full | Panic

  datatype PutResult = Buffered | Refused | Overflowed | Panicked

  // An operation of goroutine `me`.
  function IsOwn(me: nat): M.Action -> int {
    (a: M.Action) => OwnStep(me, a)
  }

  function OwnStep(me: nat, a: M.Action): int {
    if a == M.Run(me) || a == M.Expire(me) then 1 else 0
  }

  lemma Logged(size: seq<int>, acts: seq<M.Action>, s: M.Pool, a: M.Action)
    requires M.After(M.New(size), acts) == Some(s) && M.Enabled(s, a)
    ensures M.After(M.New(size), acts + [a]) == Some(M.Next(s, a))
  {
    assert (acts + [a])[..|acts|] == acts;
  }

  // Nothing is added to a closed channel, and it stays closed.
  lemma ClosedShrinks(s: M.Pool, a: M.Action)
    requires M.Enabled(s, a) && s.g.gate.chanClosed
    ensures M.Next(s, a).g.gate.chanClosed && |M.Next(s, a).g.buf| <= |s.g.buf|
  {
  }

  class Pool {
    // New's capacity arguments and the channel's capacity.
    const size: seq<int>
    const capacity: nat

    var conns: seq<M.Conn>
    var gate: M.Gate
    var refill: M.Refill
    var gets: M.Gets

    // What the scheduler knows, what was ever put and closed, and the schedule so far.
    var threads: seq<M.Pc>
    var ledger: M.Ledger
    ghost var acts: seq<M.Action>

    constructor (size: seq<int>)
      ensures Valid() && this.size == size && threads == [] && conns == []
      ensures capacity == if |size| > 0 && size[0] > 0 then size[0] else 64
    {
      this.size, capacity := size, M.NewCapacity(size);
      var pool := M.New(size);
      conns, gate, refill, gets := [], pool.g.gate, pool.g.refill, pool.g.gets;
      ledger, threads, acts := pool.g.ledger, [], [];
    }

    function View(): M.Shared
      reads this
    {
      M.Shared(capacity, conns, gate, refill, gets, ledger)
    }

    function State(): M.Pool
      reads this
    {
      M.Pool(View(), threads)
    }

    ghost predicate Logs()
      reads this
    {
      M.After(M.New(size), acts) == Some(State())
    }

    ghost predicate Valid()
      reads this
    {
      Logs() && !gate.fault
    }

    // Goroutine `me` is about to execute p.
    ghost predicate At(me: nat, p: M.Pc)
      reads this
    {
      Valid() && me < |threads| && threads[me] == p
    }

    // ---- the scheduler ------------------------------------------------------------

    method Interfere(me: nat, a: M.Action)
      requires Valid() && me < |threads|
      modifies this
      ensures Took(IsOwn(me), old(acts), acts, 0)
      ensures At(me, old(threads[me]))
      ensures old(gate.chanClosed) ==> gate.chanClosed && |conns| <= |old(conns)|
    {
      var s := State();
      if M.Enabled(s, a) && a != M.Run(me) && a != M.Expire(me) {
        var next := M.Next(s, a);
        // A panic elsewhere ends the program.
        if !next.g.gate.fault {
          Logged(size, acts, s, a);
          TookOne(IsOwn(me), acts, a);
          SameCapacity(s, a);
          if gate.chanClosed {
            ClosedShrinks(s, a);
          }
          conns, gate, refill, gets := next.g.buf, next.g.gate, next.g.refill, next.g.gets;
          ledger, threads, acts := next.g.ledger, next.threads, acts + [a];
        }
      }
    }

    // Any number of operations of the other goroutines, and of calls they make.
    method Yield(me: nat)
      requires Valid() && me < |threads|
      modifies this
      ensures Took(IsOwn(me), old(acts), acts, 0)
      ensures At(me, old(threads[me]))
      ensures old(gate.chanClosed) ==> gate.chanClosed && |conns| <= |old(conns)|
    {
      var some: int := *;
      for k := 0 to if some > 0 then some else 0
        invariant At(me, old(threads[me])) && Took(IsOwn(me), old(acts), acts, 0)
        invariant old(gate.chanClosed) ==> gate.chanClosed && |conns| <= |old(conns)|
      {
        var a: M.Action := *;
        Interfere(me, a);
      }
    }

    // The call of an exported method starts.
    method Enter(p: M.Pc) returns (me: nat)
      requires Valid() && (p.GetCheck? || p.PutCheck? || p.CloseEnter?)
      modifies this
      ensures Took(IsOwn(me), old(acts), acts, 0) && me == |old(threads)|
      ensures At(me, p)
    {
      ghost var was := State();
      me := |threads|;
      if p.PutCheck? {
        ledger := ledger.(given := ledger.given + [p.conn]);
      }
      threads := threads + [p];
      TookOne(IsOwn(me), acts, M.Spawn(p));
      Logged(size, acts, was, M.Spawn(p));
      acts := acts + [M.Spawn(p)];
      Yield(me);
    }

    // Goroutine `me` has done the operation it was about to do.
    method Commit(me: nat, p: M.Pc, ghost was: M.Pool)
      requires M.After(M.New(size), acts) == Some(was) && threads == was.threads
      requires M.Enabled(was, M.Run(me)) && M.Move(was.g, was.threads[me]) == (View(), p)
      modifies this`threads, this`acts
      ensures Logs() && threads == M.Advance(old(threads), me, p)
      ensures Took(IsOwn(me), old(acts), acts, 1)
    {
      TookOne(IsOwn(me), acts, M.Run(me));
      Logged(size, acts, was, M.Run(me));
      threads := M.Advance(threads, me, p);
      acts := acts + [M.Run(me)];
    }

    // ---- the channel and the closed flag --------------------------------------------

    // The check under mu at the head of Get.
    method GetSeesClosed(me: nat) returns (closed: bool)
      requires At(me, M.GetCheck)
      modifies this
      ensures Took(IsOwn(me), old(acts), acts, 1)
      ensures At(me, if closed then M.GetFailed else M.GetFast)
    {
      closed := gate.shut;
      Commit(me, if closed then M.GetFailed else M.GetFast, State());
      Yield(me);
    }

    method ReceiveFast(me: nat) returns (r: Received)
      requires At(me, M.GetFast)
      modifies this
      ensures Took(IsOwn(me), old(acts), acts, 1)
      ensures At(me, match r case Conn(c) => M.HitBump(c) case Closed => M.GetFailed case WouldBlock => M.MissBump)
    {
      ghost var was := State();
      if conns != [] {
        r := Conn(conns[0]);
        conns := conns[1..];
        Commit(me, M.HitBump(r.conn), was);
      } else if gate.chanClosed {
        r := Closed;
        Commit(me, M.GetFailed, was);
      } else {
        r := WouldBlock;
        Commit(me, M.MissBump, was);
      }
      Yield(me);
    }

    // The waiting select: by now a connection may be there, the channel closed, or the
    // timer expired; where two are ready either may be taken.
    method ReceiveWait(me: nat) returns (r: Received)
      requires At(me, M.GetWait)
      modifies this
      ensures Took(IsOwn(me), old(acts), acts, 1)
      ensures At(me, match r
                     case Conn(c) => M.AddDemand(1, M.Deliver(c))
                     case Closed => M.GetFailed
                     case WouldBlock => M.TimeoutBump)
    {
      ghost var was := State();
      var expired: bool := *;
      if conns != [] && !expired {
        r := Conn(conns[0]);
        conns := conns[1..];
        Commit(me, M.AddDemand(1, M.Deliver(r.conn)), was);
      } else if conns == [] && gate.chanClosed && !expired {
        r := Closed;
        Commit(me, M.GetFailed, was);
      } else {
        r := WouldBlock;
        Logged(size, acts, was, M.Expire(me));
        TookOne(IsOwn(me), acts, M.Expire(me));
        threads := threads[me := M.TimeoutBump];
        acts := acts + [M.Expire(me)];
      }
      Yield(me);
    }

    method PutSeesClosed(me: nat, conn: M.Conn) returns (closed: bool)
      requires At(me, M.PutCheck(conn))
      modifies this
      ensures Took(IsOwn(me), old(acts), acts, 1)
      ensures At(me, if closed then M.Discard(conn) else M.PutSend(conn))
    {
      closed := gate.shut;
      Commit(me, if closed then M.Discard(conn) else M.PutSend(conn), State());
      Yield(me);
    }

    method Send(me: nat, conn: M.Conn) returns (r: Offered)
      requires At(me, M.PutSend(conn))
      modifies this
      ensures Took(IsOwn(me), old(acts), acts, 1)
      ensures r.Panic? <==> old(gate.chanClosed)
      ensures r.Full? <==> !old(gate.chanClosed) && |old(conns)| >= capacity
      ensures r.Panic? ==> Logs() && gate.fault && gate.chanClosed && me < |threads| && threads[me] == M.Panicked(conn)
      ensures r.Sent? ==> At(me, M.PutDone)
      ensures r.Full? ==> At(me, M.Discard(conn))
    {
      ghost var was := State();
      if gate.chanClosed {
        r := Panic;
        gate := gate.(fault := true);
        Commit(me, M.Panicked(conn), was);
        return;
      }
      if |conns| < capacity {
        r := Sent;
        conns := conns + [conn];
        Commit(me, M.PutDone, was);
      } else {
        r := Full;
        Commit(me, M.Discard(conn), was);
      }
      Yield(me);
    }

    method CloseConn(me: nat, conn: M.Conn)
      requires At(me, M.Discard(conn)) || At(me, M.DrainClose(conn))
      modifies this
      ensures Took(IsOwn(me), old(acts), acts, 1)
      ensures At(me, if old(threads[me]).Discard? then M.PutDone else M.Drain)
      ensures old(gate.chanClosed) ==> gate.chanClosed && |conns| <= |old(conns)|
    {
      ghost var was := State();
      ledger := ledger.(closed := ledger.closed + [conn]);
      Commit(me, if threads[me].Discard? then M.PutDone else M.Drain, was);
      Yield(me);
    }

    // ---- the counters -------------------------------------------------------------------

    method AddHit(me: nat, conn: M.Conn)
      requires At(me, M.HitBump(conn))
      modifies this
      ensures Took(IsOwn(me), old(acts), acts, 1)
      ensures At(me, M.AddDemand(1, M.Deliver(conn)))
    {
      ghost var was := State();
      gets := gets.(hit := gets.hit + 1);
      Commit(me, M.AddDemand(1, M.Deliver(conn)), was);
      Yield(me);
    }

    method AddMiss(me: nat)
      requires At(me, M.MissBump)
      modifies this
      ensures Took(IsOwn(me), old(acts), acts, 1)
      ensures At(me, M.AddDemand(M.MissRefillBurst(capacity), M.Block))
    {
      ghost var was := State();
      gets := gets.(miss := gets.miss + 1);
      Commit(me, M.AddDemand(M.MissRefillBurst(capacity), M.Block), was);
      Yield(me);
    }

    method AddTimeout(me: nat)
      requires At(me, M.TimeoutBump)
      modifies this
      ensures Took(IsOwn(me), old(acts), acts, 1)
      ensures At(me, M.GetFailed)
    {
      ghost var was := State();
      gets := gets.(timeout := gets.timeout + 1);
      Commit(me, M.GetFailed, was);
      Yield(me);
    }

    method AddDemand(me: nat, n: nat, andThen: M.Then)
      requires At(me, M.AddDemand(n, andThen))
      modifies this
      ensures Took(IsOwn(me), old(acts), acts, 1)
      ensures At(me, M.AddPending(n, andThen))
    {
      ghost var was := State();
      refill := refill.(demand := refill.demand + n);
      Commit(me, M.AddPending(n, andThen), was);
      Yield(me);
    }

    method AddPending(me: nat, n: nat, andThen: M.Then)
      requires At(me, M.AddPending(n, andThen))
      modifies this
      ensures Took(IsOwn(me), old(acts), acts, 1)
      ensures At(me, M.TryClaim(andThen))
    {
      ghost var was := State();
      refill := refill.(pending := refill.pending + n);
      Commit(me, M.TryClaim(andThen), was);
      Yield(me);
    }

    // refilling.CompareAndSwap(false, true) by a goroutine that asked for a refill.
    method Claim(me: nat, andThen: M.Then) returns (won: bool)
      requires At(me, M.TryClaim(andThen))
      modifies this
      ensures Took(IsOwn(me), old(acts), acts, 1)
      ensures At(me, if won then M.Launch(andThen) else M.Resume(andThen))
    {
      ghost var was := State();
      won := !refill.refilling;
      if won {
        refill := refill.(refilling := true);
      }
      Commit(me, if won then M.Launch(andThen) else M.Resume(andThen), was);
      Yield(me);
    }

    // The go statement: the new goroutine is ready to run Work.
    method Launch(me: nat, andThen: M.Then)
      requires At(me, M.Launch(andThen))
      modifies this
      ensures Took(IsOwn(me), old(acts), acts, 1)
      ensures At(me, M.Resume(andThen))
    {
      ghost var was := State();
      Commit(me, M.Resume(andThen), was);
      Yield(me);
    }

    // ---- the worker's operations ------------------------------------------------------------

    method SwapPending(me: nat) returns (n: nat)
      requires At(me, M.Swap)
      modifies this
      ensures Took(IsOwn(me), old(acts), acts, 1)
      ensures At(me, if n == 0 then M.Release else M.Serve(n))
    {
      ghost var was := State();
      n := refill.pending;
      refill := refill.(pending := 0);
      Commit(me, if n == 0 then M.Release else M.Serve(n), was);
      Yield(me);
    }

    // requestFn, entered and left.
    method Request(me: nat, left: nat)
      requires At(me, M.Serve(left))
      modifies this
      ensures Took(IsOwn(me), old(acts), acts, 2)
      ensures At(me, M.CountSent(left))
    {
      Commit(me, M.InFn(left), State());
      Yield(me);
      Commit(me, M.CountSent(left), State());
      Yield(me);
    }

    method AddSent(me: nat, left: nat)
      requires At(me, M.CountSent(left))
      modifies this
      ensures Took(IsOwn(me), old(acts), acts, 1)
      ensures At(me, if left <= 1 then M.Swap else M.Serve(left - 1))
    {
      ghost var was := State();
      refill := refill.(sent := refill.sent + 1);
      Commit(me, if left <= 1 then M.Swap else M.Serve(left - 1), was);
      Yield(me);
    }

    method StoreFalse(me: nat)
      requires At(me, M.Release)
      modifies this
      ensures Took(IsOwn(me), old(acts), acts, 1)
      ensures At(me, M.Recheck)
    {
      ghost var was := State();
      refill := refill.(refilling := false);
      Commit(me, M.Recheck, was);
      Yield(me);
    }

    method LoadPending(me: nat) returns (n: nat)
      requires At(me, M.Recheck)
      modifies this
      ensures Took(IsOwn(me), old(acts), acts, 1)
      ensures At(me, if n == 0 then M.Exited else M.Reclaim)
    {
      n := refill.pending;
      Commit(me, if n == 0 then M.Exited else M.Reclaim, State());
      Yield(me);
    }

    method Reclaim(me: nat) returns (won: bool)
      requires At(me, M.Reclaim)
      modifies this
      ensures Took(IsOwn(me), old(acts), acts, 1)
      ensures At(me, if won then M.Swap else M.Exited)
    {
      ghost var was := State();
      won := !refill.refilling;
      if won {
        refill := refill.(refilling := true);
      }
      Commit(me, if won then M.Swap else M.Exited, was);
      Yield(me);
    }

    // ---- the methods of pool.go -----------------------------------------------------------------

    // requestAsyncRefill and startRefillWorker.
    method RequestAsyncRefill(me: nat, n: nat, andThen: M.Then)
      requires At(me, M.AddDemand(n, andThen))
      modifies this
      ensures Took(IsOwn(me), old(acts), acts, 3) || Took(IsOwn(me), old(acts), acts, 4)
      ensures At(me, M.Resume(andThen))
    {
      AddDemand(me, n, andThen);
      AddPending(me, n, andThen);
      var won := Claim(me, andThen);
      if won {
        Launch(me, andThen);
      }
    }

    method Get() returns (r: Option<M.Conn>, me: nat)
      requires Valid()
      modifies this
      ensures old(acts) <= acts && me >= |old(threads)|
      ensures At(me, match r case Some(c) => M.Got(c) case None => M.GetFailed)
    {
      me := Enter(M.GetCheck);
      r := None;
      var closed := GetSeesClosed(me);
      if closed {
        return;
      }
      var fast := ReceiveFast(me);
      match fast
      case Closed =>
      case Conn(c) =>
        Hit(me, c);
        r := Some(c);
      case WouldBlock =>
        r := GetSlow(me);
    }

    // Get with a connection at hand.
    method Hit(me: nat, c: M.Conn)
      requires At(me, M.HitBump(c))
      modifies this
      ensures old(acts) <= acts
      ensures At(me, M.Got(c))
    {
      AddHit(me, c);
      RequestAsyncRefill(me, 1, M.Deliver(c));
    }

    // Get from the miss on.
    method GetSlow(me: nat) returns (r: Option<M.Conn>)
      requires At(me, M.MissBump)
      modifies this
      ensures old(acts) <= acts
      ensures At(me, match r case Some(c) => M.Got(c) case None => M.GetFailed)
    {
      AddMiss(me);
      RequestAsyncRefill(me, M.MissRefillBurst(capacity), M.Block);
      r := AwaitConn(me);
    }

    // Get's waiting select and what follows it.
    method AwaitConn(me: nat) returns (r: Option<M.Conn>)
      requires At(me, M.GetWait)
      modifies this
      ensures old(acts) <= acts
      ensures At(me, match r case Some(c) => M.Got(c) case None => M.GetFailed)
    {
      r := None;
      var slow := ReceiveWait(me);
      match slow
      case Closed =>
      case Conn(c) =>
        RequestAsyncRefill(me, 1, M.Deliver(c));
        r := Some(c);
      case WouldBlock =>
        AddTimeout(me);
    }

    method ServeOne(me: nat, left: nat)
      requires left > 0 && At(me, M.Serve(left))
      modifies this
      ensures Took(IsOwn(me), old(acts), acts, 3)
      ensures At(me, if left <= 1 then M.Swap else M.Serve(left - 1))
    {
      Request(me, left);
      AddSent(me, left);
    }

    // The worker's inner loop: requestFn once for each unit it took over.
    method ServeAll(me: nat, n: nat)
      requires n > 0 && At(me, M.Serve(n))
      modifies this
      ensures Took(IsOwn(me), old(acts), acts, 3 * n)
      ensures At(me, M.Swap)
    {
      for i := 0 to n
        invariant At(me, if i == n then M.Swap else M.Serve(n - i)) && Took(IsOwn(me), old(acts), acts, 3 * i)
      {
        ServeOne(me, n - i);
      }
    }

    // A worker that found nothing pending gives up ownership, and takes it back if new
    // demand came meanwhile and nobody else has.
    method Retire(me: nat) returns (retired: bool)
      requires At(me, M.Release)
      modifies this
      ensures old(acts) <= acts
      ensures At(me, if retired then M.Exited else M.Swap)
    {
      StoreFalse(me);
      retired := true;
      var again := LoadPending(me);
      if again != 0 {
        var won := Reclaim(me);
        retired := !won;
      }
    }

    // One turn of the worker's outer loop.
    method WorkTurn(me: nat) returns (retired: bool)
      requires At(me, M.Swap)
      modifies this
      ensures old(acts) <= acts
      ensures At(me, if retired then M.Exited else M.Swap)
    {
      var n := SwapPending(me);
      if n == 0 {
        retired := Retire(me);
      } else {
        ServeAll(me, n);
        retired := false;
      }
    }

    // The refill worker's goroutine, over as many turns of its outer loop as asked for.
    method Work(me: nat, turns: nat) returns (retired: bool)
      requires At(me, M.Swap)
      modifies this
      ensures old(acts) <= acts
      ensures At(me, if retired then M.Exited else M.Swap)
    {
      retired := false;
      for turn := 0 to turns
        invariant At(me, M.Swap) && old(acts) <= acts
      {
        retired := WorkTurn(me);
        if retired {
          return;
        }
      }
    }

    // Put, with what became of it: two steps to the buffer, to a closed pool's refusal or to
    // the panic, three to the refusal of a full one.
    method Put(conn: M.Conn) returns (r: PutResult, me: nat)
      requires Valid()
      modifies this
      ensures me == |old(threads)| && Took(IsOwn(me), old(acts), acts, if r.Overflowed? then 3 else 2)
      ensures !r.Panicked? ==> At(me, M.PutDone)
      ensures r.Panicked? ==>
                Logs() && gate.fault && gate.chanClosed && me < |threads| && threads[me] == M.Panicked(conn)
    {
      me := Enter(M.PutCheck(conn));
      var closed := PutSeesClosed(me, conn);
      if closed {
        r := Refused;
        CloseConn(me, conn);
      } else {
        r := Offer(me, conn);
      }
    }

    // The send of Put, and the close of a connection there is no room for.
    method Offer(me: nat, conn: M.Conn) returns (r: PutResult)
      requires At(me, M.PutSend(conn))
      modifies this
      ensures Took(IsOwn(me), old(acts), acts, if r.Overflowed? then 2 else 1) && !r.Refused?
      ensures r.Overflowed? <==> !old(gate.chanClosed) && |old(conns)| >= capacity
      ensures r.Panicked? <==> old(gate.chanClosed)
      ensures !r.Panicked? ==> At(me, M.PutDone)
      ensures r.Panicked? ==>
                Logs() && gate.fault && gate.chanClosed && me < |threads| && threads[me] == M.Panicked(conn)
    {
      var offered := Send(me, conn);
      match offered
      case Panic => r := Panicked;
      case Sent => r := Buffered;
      case Full =>
        CloseConn(me, conn);
        r := Overflowed;
    }

    // closedOnce.Do: the first caller runs the body, a caller that finds it running waits.
    method EnterOnce(me: nat) returns (first: bool)
      requires At(me, M.CloseEnter) && !gate.once.Running?
      modifies this
      ensures Took(IsOwn(me), old(acts), acts, 1)
      ensures At(me, if first then M.CloseMark else M.CloseDone)
      ensures !first ==> gate.chanClosed && conns == []
    {
      ghost var was := State();
      Sound(this);
      first := gate.once.Fresh?;
      if first {
        gate := gate.(once := M.Running);
      }
      Commit(me, if first then M.CloseMark else M.CloseDone, was);
      Yield(me);
    }

    method MarkClosed(me: nat)
      requires At(me, M.CloseMark)
      modifies this
      ensures Took(IsOwn(me), old(acts), acts, 1)
      ensures At(me, M.CloseChan)
    {
      ghost var was := State();
      gate := gate.(shut := true);
      Commit(me, M.CloseChan, was);
      Yield(me);
    }

    method CloseChannel(me: nat)
      requires At(me, M.CloseChan)
      modifies this
      ensures Took(IsOwn(me), old(acts), acts, 1)
      ensures At(me, M.Drain) && gate.chanClosed
    {
      ghost var was := State();
      gate := gate.(chanClosed := true);
      Commit(me, M.Drain, was);
      Yield(me);
    }

    method ReceiveDrain(me: nat) returns (conn: M.Conn)
      requires At(me, M.Drain) && gate.chanClosed && conns != []
      modifies this
      ensures Took(IsOwn(me), old(acts), acts, 1)
      ensures At(me, M.DrainClose(conn)) && gate.chanClosed && |conns| < |old(conns)|
    {
      ghost var was := State();
      conn := conns[0];
      conns := conns[1..];
      Commit(me, M.DrainClose(conn), was);
      Yield(me);
    }

    method DrainOne(me: nat)
      requires At(me, M.Drain) && gate.chanClosed && conns != []
      modifies this
      ensures Took(IsOwn(me), old(acts), acts, 2)
      ensures At(me, M.Drain) && gate.chanClosed && |conns| < |old(conns)|
    {
      var conn := ReceiveDrain(me);
      CloseConn(me, conn);
    }

    method FinishOnce(me: nat)
      requires At(me, M.Drain) && gate.chanClosed && conns == []
      modifies this
      ensures Took(IsOwn(me), old(acts), acts, 1)
      ensures At(me, M.CloseDone) && gate.chanClosed && conns == []
    {
      ghost var was := State();
      gate := gate.(once := M.Finished);
      Commit(me, M.CloseDone, was);
      Yield(me);
    }

    // The range over conns, and the end of the once.
    method DrainAll(me: nat)
      requires At(me, M.Drain) && gate.chanClosed
      modifies this
      ensures old(acts) <= acts
      ensures At(me, M.CloseDone) && gate.chanClosed && conns == []
    {
      while conns != []
        invariant At(me, M.Drain) && gate.chanClosed && old(acts) <= acts
        decreases |conns|
      {
        DrainOne(me);
      }
      FinishOnce(me);
    }

    // Whether it came to an end; it has not while another Close is still running.
    method Close() returns (ended: bool, me: nat)
      requires Valid()
      modifies this
      ensures old(acts) <= acts && me >= |old(threads)|
      ensures At(me, if ended then M.CloseDone else M.CloseEnter)
      ensures ended ==> gate.shut && gate.chanClosed && conns == []
    {
      me := Enter(M.CloseEnter);
      if gate.once.Running? {
        return false, me;
      }
      ended := true;
      var first := EnterOnce(me);
      if first {
        MarkClosed(me);
        CloseChannel(me);
        DrainAll(me);
      }
      Sound(this);
    }
  }

  // The object is in a reachable state of the machine.
  lemma Sound(p: Pool)
    requires p.Logs()
    ensures M.Inv(p.State()) && p.capacity == M.NewCapacity(p.size)
  {
    M.Reachable(p.size, p.acts);
  }

  // What a returned Get has is its own: if it was put once, no other goroutine holds it,
  // it is not in the buffer and it has not been closed.
  lemma DeliveredOnce(p: Pool, me: nat, c: M.Conn, other: nat)
    requires p.At(me, M.Got(c)) && M.Count(c, p.ledger.given) == 1
    requires other < |p.threads| && other != me
    ensures M.Hand(p.threads[other]) != Some(c) && c !in p.conns && c !in p.ledger.closed
  {
    G.ConnConservation(p.size, p.acts, c);
  }

  // With every call returned and every worker retired, as many connections have been
  // requested as hits and misses asked for.
  lemma SettledWhenIdle(p: Pool)
    requires p.Valid() && G.Idle(p.State())
    ensures !p.refill.refilling && p.refill.pending == 0 && p.refill.sent == p.refill.demand
  {
    Sound(p);
    G.IdleIsSettled(p.State());
  }

  lemma SameCapacity(s: M.Pool, a: M.Action)
    requires M.Enabled(s, a)
    ensures M.Next(s, a).g.capacity == s.g.capacity
    ensures |M.Next(s, a).threads| >= |s.threads|
    ensures forall i | 0 <= i < |s.threads| && a != M.Run(i)
            && a != M.Expire(i) :: M.Next(s, a).threads[i] == s.threads[i]
  {
    if a.Run? {
      M.ArithLocal(s.g, s.threads[a.i]);
    }
  }
}
