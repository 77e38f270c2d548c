// The pool registry of internal/pool/registry.go and what its totals mean.
module Registry {
  import opened Wrappers
  import M = PoolMachine
  import G = PoolGuarantees
  import opened Pools

  datatype Stats = Stats(getHit: int, getMiss: int, getTimeout: int, refillDemand: int, refillSent: int)

  datatype Aggregate = Aggregate(activePools: nat, totals: Stats)

  function StatsOf(s: M.Pool): Stats {
    Stats(s.g.gets.hit, s.g.gets.miss, s.g.gets.timeout, s.g.refill.demand, s.g.refill.sent)
  }

  function Plus(a: Stats, b: Stats): Stats {
    Stats(a.getHit + b.getHit, a.getMiss + b.getMiss, a.getTimeout + b.getTimeout,
          a.refillDemand + b.refillDemand, a.refillSent + b.refillSent)
  }

  const ZERO := Stats(0, 0, 0, 0, 0)

  lemma PlusReorders(a: Stats, b: Stats, c: Stats)
    ensures Plus(a, Plus(b, c)) == Plus(b, Plus(a, c)) && Plus(Plus(a, b), c) == Plus(a, Plus(b, c))
    ensures Plus(ZERO, a) == a && Plus(a, ZERO) == a
  {
  }

  // ---- totals, whatever the order ------------------------------------------------------

  ghost function Total(ps: map<string, Stats>, keys: set<string>): Stats
    requires keys <= ps.Keys
  {
    if keys == {} then ZERO
    else
      var k :| k in keys;
      Plus(ps[k], Total(ps, keys - {k}))
  }

  // The total does not depend on which pool comes next.
  lemma {:induction false} TotalAny(ps: map<string, Stats>, keys: set<string>, k: string)
    requires keys <= ps.Keys && k in keys
    ensures Total(ps, keys) == Plus(ps[k], Total(ps, keys - {k}))
    decreases keys
  {
    var first :| first in keys && Total(ps, keys) == Plus(ps[first], Total(ps, keys - {first}));
    if first != k {
      var rest := keys - {first, k};
      TotalAny(ps, keys - {first}, k);
      TotalAny(ps, keys - {k}, first);
      assert keys - {first} - {k} == rest && keys - {k} - {first} == rest;
      assert Total(ps, keys - {first}) == Plus(ps[k], Total(ps, rest));
      assert Total(ps, keys - {k}) == Plus(ps[first], Total(ps, rest));
      PlusReorders(ps[first], ps[k], Total(ps, rest));
    } else {
      assert Total(ps, keys) == Plus(ps[k], Total(ps, keys - {k}));
    }
  }

  lemma TotalNone(ps: map<string, Stats>)
    ensures Total(ps, {}) == ZERO
  {
  }

  ghost predicate Reached(s: M.Pool) {
    exists size, acts :: M.After(M.New(size), acts) == Some(s)
  }

  // No Get is between counting its hit or miss and adding its demand.
  predicate NoneOwing(s: M.Pool) {
    forall i | 0 <= i < |s.threads| :: !s.threads[i].AddDemand?
  }

  lemma PoolAtRest(s: M.Pool)
    requires Reached(s) && NoneOwing(s)
    ensures Within(StatsOf(s))
  {
    var size, acts :| M.After(M.New(size), acts) == Some(s);
    G.RefillArithmetic(size, acts);
  }

  function Counters(ps: map<string, M.Pool>): map<string, Stats> {
    map k | k in ps :: StatsOf(ps[k])
  }

  // What is reported of one pool are its own counters, and of two the sums.
  lemma ReportsOwn(x: string, y: string, s: M.Pool, t: M.Pool)
    requires x != y
    ensures Total(Counters(map[x := s]), {x}) ==
            Stats(s.g.gets.hit, s.g.gets.miss, s.g.gets.timeout, s.g.refill.demand, s.g.refill.sent)
    ensures Total(Counters(map[x := s, y := t]), {x, y}) ==
            Stats(s.g.gets.hit + t.g.gets.hit, s.g.gets.miss + t.g.gets.miss, s.g.gets.timeout + t.g.gets.timeout,
                  s.g.refill.demand + t.g.refill.demand, s.g.refill.sent + t.g.refill.sent)
  {
    var (one, two) := (Counters(map[x := s]), Counters(map[x := s, y := t]));
    TotalAny(one, {x}, x);
    assert {x} - {x} == {} && {x, y} - {x} == {y} && {y} - {y} == {};
    TotalAny(two, {x, y}, x);
    TotalAny(two, {y}, y);
  }

  // Demand is at least one per hit and two per miss, and at most one per hit and nine per
  // miss, less the timeouts.
  predicate Within(t: Stats) {
    t.getHit + 2 * t.getMiss <= t.refillDemand <= t.getHit + 9 * t.getMiss - t.getTimeout
  }

  lemma PoolSettled(s: M.Pool)
    requires Reached(s) && G.Idle(s)
    ensures StatsOf(s).refillSent == StatsOf(s).refillDemand
  {
    var size, acts :| M.After(M.New(size), acts) == Some(s);
    M.Reachable(size, acts);
    G.IdleIsSettled(s);
  }

  lemma {:induction false} TotalKeeps(ps: map<string, Stats>, keys: set<string>)
    requires keys <= ps.Keys
    ensures (forall k | k in keys :: Within(ps[k])) ==> Within(Total(ps, keys))
    ensures (forall k | k in keys :: ps[k].refillSent == ps[k].refillDemand) ==>
              Total(ps, keys).refillSent == Total(ps, keys).refillDemand
    decreases keys
  {
    if keys == {} {
      TotalNone(ps);
    } else {
      var k :| k in keys;
      TotalAny(ps, keys, k);
      TotalKeeps(ps, keys - {k});
    }
  }

  // With no Get between its counter and its demand, the totals stay within the bounds;
  // with every pool idle, all the demand has been passed on.
  lemma AggregateAtRest(ps: map<string, M.Pool>)
    requires forall k | k in ps :: Reached(ps[k])
    ensures (forall k | k in ps :: NoneOwing(ps[k])) ==> Within(Total(Counters(ps), ps.Keys))
    ensures (forall k | k in ps :: G.Idle(ps[k])) ==>
              var t := Total(Counters(ps), ps.Keys); t.refillSent == t.refillDemand
  {
    forall k | k in ps && NoneOwing(ps[k]) ensures Within(Counters(ps)[k]) {
      PoolAtRest(ps[k]);
    }
    forall k | k in ps && G.Idle(ps[k]) ensures Counters(ps)[k].refillSent == Counters(ps)[k].refillDemand {
      PoolSettled(ps[k]);
    }
    TotalKeeps(Counters(ps), ps.Keys);
  }

  // ---- the registry --------------------------------------------------------------------------

  class Registry {
    var pools: map<string, Pool>

    constructor ()
      ensures pools == map[] && Valid()
    {
      pools := map[];
    }

    ghost predicate Valid()
      reads this, pools.Values
    {
      forall k | k in pools :: pools[k].Valid()
    }

    ghost function States(): (ps: map<string, M.Pool>)
      reads this, pools.Values
    {
      map k | k in pools :: pools[k].State()
    }

    // An existing pool as it is, or a new one.
    method GetOrCreate(runID: string, capacity: seq<int>) returns (p: Pool)
      requires Valid()
      modifies this
      ensures Valid() && pools == old(pools)[runID := p]
      ensures runID in old(pools) ==> p == old(pools)[runID]
      ensures runID !in old(pools) ==> fresh(p) && p.size == capacity && p.threads == []
    {
      if runID in pools {
        return pools[runID];
      }
      p := new Pool(capacity);
      pools := pools[runID := p];
    }

    method Get(runID: string) returns (p: Option<Pool>)
      ensures p == if runID in pools then Some(pools[runID]) else None
    {
      p := if runID in pools then Some(pools[runID]) else None;
    }

    // Closes the pool and drops it; while another Close of that pool is running it waits
    // with the pool still listed.
    method Remove(runID: string) returns (ended: bool)
      requires Valid()
      modifies this, if runID in pools then {pools[runID]} else {}
      ensures Valid()
      ensures pools == if ended then old(pools) - {runID} else old(pools)
      ensures ended && runID in old(pools) ==>
                var p := old(pools)[runID]; p.Valid() && p.gate.shut && p.gate.chanClosed && p.conns == []
      ensures runID !in old(pools) ==> ended
    {
      ended := true;
      if runID in pools {
        var me: nat;
        ended, me := pools[runID].Close();
        if ended {
          pools := pools - {runID};
        }
      }
    }

    // The range over the map visits the pools in any order.
    method AggregateStats() returns (out: Aggregate)
      ensures out.activePools == |pools|
      ensures out.totals == Total(Counters(States()), States().Keys)
    {
      ghost var all := Counters(States());
      var totals := ZERO;
      var left := pools.Keys;
      PlusReorders(Total(all, left), ZERO, ZERO);
      while left != {}
        invariant left <= all.Keys && Plus(totals, Total(all, left)) == Total(all, pools.Keys)
        decreases left
      {
        var name :| name in left;
        TotalAny(all, left, name);
        PlusReorders(totals, all[name], Total(all, left - {name}));
        totals := Plus(totals, StatsOf(pools[name].State()));
        left := left - {name};
      }
      TotalNone(all);
      PlusReorders(totals, ZERO, ZERO);
      assert pools.Keys == States().Keys;
      out := Aggregate(|pools|, totals);
    }
  }

  // What the registry reports of pools at rest.
  lemma ReportAtRest(r: Registry)
    requires r.Valid()
    ensures (forall k | k in r.pools :: NoneOwing(r.pools[k].State())) ==>
              Within(Total(Counters(r.States()), r.States().Keys))
    ensures (forall k | k in r.pools :: G.Idle(r.pools[k].State())) ==>
              var t := Total(Counters(r.States()), r.States().Keys); t.refillSent == t.refillDemand
  {
    forall k | k in r.pools ensures Reached(r.States()[k]) {
      assert M.After(M.New(r.pools[k].size), r.pools[k].acts) == Some(r.pools[k].State());
    }
    AggregateAtRest(r.States());
  }
}
