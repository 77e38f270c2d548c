// The router of internal/router/router.go: two maps from a key to a bucket of routes,
// longest location first, edited in place.
module RouterIndex {
  import opened Wrappers
  import opened RouteTable
  import opened HostLookup

  type Store = map<string, seq<Route>>

  datatype AddResult = Added | Conflict(registeredBy: string)

  // ---- buckets ------------------------------------------------------------------------

  ghost predicate Sorted(rs: seq<Route>) {
    forall i, j | 0 <= i < j < |rs| :: |rs[i].location| >= |rs[j].location|
  }

  ghost predicate Distinct(rs: seq<Route>) {
    forall i, j | 0 <= i < j < |rs| :: rs[i].location != rs[j].location
  }

  // Sorted, every location non-empty and there once.
  ghost predicate BucketOk(rs: seq<Route>) {
    rs != [] && Sorted(rs) && Distinct(rs) && forall r | r in rs :: r.location != ""
  }

  function Bucket(store: Store, key: string): seq<Route> {
    if key in store then store[key] else []
  }

  function Filter(rs: seq<Route>, name: string): seq<Route> {
    if rs == [] then []
    else
      var last := rs[|rs| - 1];
      Filter(rs[..|rs| - 1], name) + if last.proxyName != name then [last] else []
  }

  lemma {:induction false} FilterMembers(rs: seq<Route>, name: string)
    ensures forall r :: r in Filter(rs, name) <==> r in rs && r.proxyName != name
    ensures |Filter(rs, name)| <= |rs|
  {
    if rs != [] {
      var n := |rs| - 1;
      FilterMembers(rs[..n], name);
      assert rs == rs[..n] + [rs[n]];
    }
  }

  lemma {:induction false} FilterKeepsSorted(rs: seq<Route>, name: string)
    requires Sorted(rs)
    ensures Sorted(Filter(rs, name))
  {
    if rs != [] {
      var n := |rs| - 1;
      FilterKeepsSorted(rs[..n], name);
      forall r | r in Filter(rs[..n], name) ensures |r.location| >= |rs[n].location| {
        FilterMembers(rs[..n], name);
        var j :| 0 <= j < n && rs[..n][j] == r;
        assert rs[j] == r;
      }
    }
  }

  lemma {:induction false} FilterKeepsDistinct(rs: seq<Route>, name: string)
    requires Distinct(rs)
    ensures Distinct(Filter(rs, name))
  {
    if rs != [] {
      var n := |rs| - 1;
      FilterKeepsDistinct(rs[..n], name);
      forall r | r in Filter(rs[..n], name) ensures r.location != rs[n].location {
        FilterMembers(rs[..n], name);
        var j :| 0 <= j < n && rs[..n][j] == r;
        assert rs[j] == r;
      }
    }
  }

  // Filtering keeps the order, and with it everything a bucket must satisfy.
  lemma FilterKeepsBucket(rs: seq<Route>, name: string)
    requires BucketOk(rs)
    ensures Filter(rs, name) != [] ==> BucketOk(Filter(rs, name))
  {
    FilterKeepsSorted(rs, name);
    FilterKeepsDistinct(rs, name);
    FilterMembers(rs, name);
  }

  // routes[:0] filled from routes itself: the writes never overtake the reads.
  method CompactInPlace(a: array<Route>, name: string) returns (n: nat)
    modifies a
    ensures n <= a.Length && a[..n] == Filter(old(a[..]), name)
  {
    n := 0;
    for i := 0 to a.Length
      invariant n <= i
      invariant a[..n] == Filter(old(a[..])[..i], name)
      invariant a[i..] == old(a[..])[i..]
    {
      var rc := a[i];
      assert rc == old(a[..])[i] by { assert a[i..][0] == old(a[..])[i..][0]; }
      assert old(a[..])[..i + 1][..i] == old(a[..])[..i];
      ghost var rest := a[i + 1..];
      assert rest == old(a[..])[i + 1..] by { assert rest == a[i..][1..]; }
      if rc.proxyName != name {
        a[n] := rc;
        n := n + 1;
      }
      assert a[i + 1..] == rest;
    }
    assert old(a[..])[..a.Length] == old(a[..]);
  }

  // Where an unstable sort may put x: a tie may be broken either way.
  method PlaceOf(rs: seq<Route>, x: Route) returns (i: nat)
    requires Sorted(rs)
    ensures i <= |rs|
    ensures forall j | 0 <= j < i :: |rs[j].location| >= |x.location|
    ensures forall j | i <= j < |rs| :: |rs[j].location| <= |x.location|
  {
    i := 0;
    while i < |rs| && |rs[i].location| >= |x.location|
      invariant i <= |rs| && forall j | 0 <= j < i :: |rs[j].location| >= |x.location|
    {
      var before: bool := *;
      if |rs[i].location| == |x.location| && before {
        return;
      }
      i := i + 1;
    }
  }

  method InsertSomewhere(rs: seq<Route>, x: Route) returns (out: seq<Route>)
    requires Sorted(rs)
    ensures Sorted(out) && multiset(out) == multiset(rs) + multiset{x}
  {
    var i := PlaceOf(rs, x);
    assert rs == rs[..i] + rs[i..];
    out := rs[..i] + [x] + rs[i..];
  }

  // slices.SortFunc by descending location length.
  method SortByLocation(rs: seq<Route>) returns (out: seq<Route>)
    ensures Sorted(out) && multiset(out) == multiset(rs)
  {
    out := [];
    for i := 0 to |rs|
      invariant Sorted(out) && multiset(out) == multiset(rs[..i])
    {
      assert rs[..i + 1] == rs[..i] + [rs[i]];
      out := InsertSomewhere(out, rs[i]);
    }
    assert rs[..|rs|] == rs;
  }

  // Distinct locations survive any reordering.
  lemma {:induction false} LocationsCount(rs: seq<Route>)
    requires Distinct(rs)
    ensures forall r :: multiset(rs)[r] <= 1
  {
    if rs != [] {
      var n := |rs| - 1;
      LocationsCount(rs[..n]);
      assert rs == rs[..n] + [rs[n]];
      assert rs[n] !in rs[..n];
    }
  }

  lemma TwiceCounts(rs: seq<Route>, i: nat, j: nat)
    requires i < j < |rs| && rs[i] == rs[j]
    ensures multiset(rs)[rs[i]] >= 2
  {
    assert rs == rs[..j] + [rs[j]] + rs[j + 1..];
    assert rs[i] in rs[..j];
  }

  lemma SortKeepsDistinct(rs: seq<Route>, out: seq<Route>)
    requires multiset(out) == multiset(rs)
    requires Distinct(rs)
    ensures forall r :: r in out <==> r in rs
    ensures Distinct(out)
  {
    forall r ensures r in out <==> r in rs {
      assert r in out <==> r in multiset(out);
      assert r in rs <==> r in multiset(rs);
    }
    LocationsCount(rs);
    forall i, j | 0 <= i < j < |out| ensures out[i].location != out[j].location {
      assert out[i] in rs && out[j] in rs;
      if out[i] == out[j] {
        TwiceCounts(out, i, j);
      }
    }
  }

  // ---- stores -------------------------------------------------------------------------

  // A store's buckets are in order and hold exactly the table's routes of its kind.
  ghost predicate StoreOk(store: Store, wild: bool, table: Table) {
    && (forall key | key in store :: BucketOk(store[key]))
    && (forall key, r | key in store && r in store[key] ::
          SlotOf(r) == Slot(wild, key, r.location) && SlotOf(r) in table && table[SlotOf(r)] == r)
    && (forall slot | slot in table && slot.wild == wild ::
          SlotOf(table[slot]) == slot && slot.key in store && table[slot] in store[slot.key])
  }

  // A slot is taken exactly when its bucket has the location.
  lemma BucketShowsSlot(store: Store, wild: bool, table: Table, key: string, location: string)
    requires StoreOk(store, wild, table)
    ensures Slot(wild, key, location) in table <==> exists r :: r in Bucket(store, key) && r.location == location
  {
    var slot := Slot(wild, key, location);
    if slot in table {
      assert table[slot] in store[slot.key] && SlotOf(table[slot]) == slot;
    }
  }

  lemma BucketAfterAdd(rs: seq<Route>, r: Route, bucket: seq<Route>)
    requires rs != [] ==> BucketOk(rs)
    requires r.location != "" && forall x | x in rs :: x.location != r.location
    requires Sorted(bucket) && multiset(bucket) == multiset(rs + [r])
    ensures BucketOk(bucket) && forall x :: x in bucket <==> x in rs || x == r
  {
    SortKeepsDistinct(rs + [r], bucket);
    assert r in rs + [r];
  }

  lemma StoreAfterAdd(store: Store, wild: bool, table: Table, r: Route, bucket: seq<Route>)
    requires StoreOk(store, wild, table)
    requires IsWildcard(r.domain) == wild && r.location != "" && SlotOf(r) !in table
    requires Sorted(bucket) && multiset(bucket) == multiset(Bucket(store, KeyOf(r.domain)) + [r])
    ensures StoreOk(store[KeyOf(r.domain) := bucket], wild, table[SlotOf(r) := r])
  {
    var key := KeyOf(r.domain);
    forall x | x in Bucket(store, key) ensures x.location != r.location {
      BucketShowsSlot(store, wild, table, key, r.location);
    }
    BucketAfterAdd(Bucket(store, key), r, bucket);
    var out, t := store[key := bucket], table[SlotOf(r) := r];
    forall k, x | k in out && x in out[k]
      ensures SlotOf(x) == Slot(wild, k, x.location) && SlotOf(x) in t && t[SlotOf(x)] == x
    {
      if x != r {
        assert x in Bucket(store, k) && k in store;
      }
    }
    forall slot | slot in t && slot.wild == wild
      ensures SlotOf(t[slot]) == slot && slot.key in out && t[slot] in out[slot.key]
    {
      if slot != SlotOf(r) {
        assert slot in table && table[slot] in Bucket(store, slot.key);
      }
    }
  }

  lemma OtherStoreAfterAdd(store: Store, wild: bool, table: Table, r: Route)
    requires StoreOk(store, wild, table) && IsWildcard(r.domain) != wild
    ensures StoreOk(store, wild, table[SlotOf(r) := r])
  {
  }

  // The store with every bucket filtered and the emptied ones gone.
  ghost predicate Removed(store: Store, name: string, out: Store) {
    && (forall key :: key in out <==> key in store && Filter(store[key], name) != [])
    && (forall key | key in out :: out[key] == Filter(store[key], name))
  }

  lemma StoreAfterRemove(store: Store, wild: bool, table: Table, name: string, out: Store)
    requires StoreOk(store, wild, table) && Removed(store, name, out)
    ensures StoreOk(out, wild, Without(table, name))
  {
    forall key | key in out ensures BucketOk(out[key]) {
      FilterKeepsBucket(store[key], name);
    }
    forall key, r | key in out && r in out[key]
      ensures SlotOf(r) == Slot(wild, key, r.location) && SlotOf(r) in Without(table, name)
              && Without(table, name)[SlotOf(r)] == r
    {
      FilterMembers(store[key], name);
    }
    forall slot | slot in Without(table, name) && slot.wild == wild
      ensures slot.key in out && table[slot] in out[slot.key]
    {
      FilterMembers(store[slot.key], name);
    }
  }

  // removeFrom: each bucket compacted in place, in whatever order the map is walked.
  method RemoveFrom(store: Store, name: string) returns (out: Store)
    ensures Removed(store, name, out)
  {
    out := store;
    var keys := store.Keys;
    while keys != {}
      invariant keys <= store.Keys
      invariant forall key :: key in out <==> key in store && (key in keys || Filter(store[key], name) != [])
      invariant forall key | key in out :: out[key] == if key in keys then store[key] else Filter(store[key], name)
      decreases keys
    {
      var key :| key in keys;
      var routes := store[key];
      var a := new Route[|routes|](i requires 0 <= i < |routes| => routes[i]);
      assert a[..] == routes;
      var n := CompactInPlace(a, name);
      if n == 0 {
        out := out - {key};
      } else {
        out := out[key := a[..n]];
      }
      keys := keys - {key};
    }
  }

  lemma ReplayNext(ops: seq<Op>, op: Op)
    ensures Replay(ops + [op]) == Apply(Replay(ops), op)
  {
    assert (ops + [op])[..|ops|] == ops;
  }

  // ---- the router ----------------------------------------------------------------------

  class Router {
    var exact: Store
    var wildcard: Store
    // What the two maps mean, and the Adds and Removes so far.
    ghost var table: Table
    ghost var ops: seq<Op>

    // The two maps hold the table's routes.
    ghost predicate Indexed()
      reads this
    {
      StoreOk(exact, false, table) && StoreOk(wildcard, true, table)
    }

    ghost predicate Valid()
      reads this
    {
      Indexed() && table == Replay(ops)
    }

    constructor ()
      ensures Valid() && table == map[] && ops == []
    {
      exact, wildcard, table, ops := map[], map[], map[], [];
    }

    // The duplicate check.
    method FindConflict(bucket: seq<Route>, location: string) returns (r: AddResult)
      ensures r.Added? <==> forall x | x in bucket :: x.location != location
      ensures r.Conflict? ==> exists x :: x in bucket && x.location == location && x.proxyName == r.registeredBy
    {
      for i := 0 to |bucket|
        invariant forall j | 0 <= j < i :: bucket[j].location != location
      {
        if bucket[i].location == location {
          assert bucket[i] in bucket;
          return Conflict(bucket[i].proxyName);
        }
      }
      r := Added;
    }

    // The insertion into a free slot.
    method Insert(route: Route)
      requires Indexed() && route.location != "" && SlotOf(route) !in table
      modifies this`exact, this`wildcard, this`table
      ensures Indexed() && table == old(table)[SlotOf(route) := route]
    {
      var key := KeyOf(route.domain);
      if IsWildcard(route.domain) {
        var sorted := SortByLocation(Bucket(wildcard, key) + [route]);
        StoreAfterAdd(wildcard, true, table, route, sorted);
        OtherStoreAfterAdd(exact, false, table, route);
        wildcard := wildcard[key := sorted];
      } else {
        var sorted := SortByLocation(Bucket(exact, key) + [route]);
        StoreAfterAdd(exact, false, table, route, sorted);
        OtherStoreAfterAdd(wildcard, true, table, route);
        exact := exact[key := sorted];
      }
      table := table[SlotOf(route) := route];
    }

    // Refuses a taken slot and changes nothing, else adds the normalised route.
    method Add(cfg: Route) returns (r: AddResult)
      requires Valid()
      modifies this
      ensures Valid() && table == Apply(old(table), RouteTable.Add(cfg)) && ops == old(ops) + [RouteTable.Add(cfg)]
      ensures r.Added? <==> SlotOf(Normal(cfg)) !in old(table)
      ensures r.Conflict? ==> r.registeredBy == old(table)[SlotOf(Normal(cfg))].proxyName
      ensures r.Conflict? ==> exact == old(exact) && wildcard == old(wildcard)
    {
      var route := Normal(cfg);
      var wild := IsWildcard(cfg.domain);
      var store := if wild then wildcard else exact;
      BucketShowsSlot(store, wild, table, KeyOf(cfg.domain), route.location);
      r := FindConflict(Bucket(store, KeyOf(cfg.domain)), route.location);
      if r.Added? {
        Insert(route);
      }
      ReplayNext(ops, RouteTable.Add(cfg));
      ops := ops + [RouteTable.Add(cfg)];
    }

    // Both maps are filtered.
    method Prune(name: string)
      requires Indexed()
      modifies this`exact, this`wildcard, this`table
      ensures Indexed() && table == Without(old(table), name)
    {
      var e := RemoveFrom(exact, name);
      StoreAfterRemove(exact, false, table, name, e);
      var w := RemoveFrom(wildcard, name);
      StoreAfterRemove(wildcard, true, table, name, w);
      exact, wildcard, table := e, w, Without(table, name);
    }

    // Every route of the proxy goes, and only those.
    method Remove(name: string)
      requires Valid()
      modifies this
      ensures Valid() && table == Apply(old(table), RouteTable.Remove(name))
              && ops == old(ops) + [RouteTable.Remove(name)]
    {
      Prune(name);
      ReplayNext(ops, RouteTable.Remove(name));
      ops := ops + [RouteTable.Remove(name)];
    }

    // matchRoutes: the first route of a sorted bucket whose location is a prefix.
    method MatchRoutes(store: Store, wild: bool, key: string, path: string) returns (r: Option<Route>)
      requires StoreOk(store, wild, table)
      ensures r.None? <==> !AnyMatch(table, wild, key, path)
      ensures r.Some? ==> Best(table, wild, key, path, r.value)
    {
      var routes := Bucket(store, key);
      for i := 0 to |routes|
        invariant forall j | 0 <= j < i :: !(routes[j].location <= path)
      {
        if routes[i].location <= path {
          assert routes[i] in store[key];
          FirstIsBest(store, wild, table, key, path, i);
          return Some(routes[i]);
        }
      }
      forall slot | slot in table && slot.wild == wild && slot.key == key
        ensures !(slot.location <= path)
      {
        assert table[slot] in routes && SlotOf(table[slot]) == slot;
      }
      r := None;
    }

    // Refines the order-free answer.
    method Lookup(host: string, path: string) returns (r: Option<Route>)
      requires Valid()
      ensures IsAnswer(table, host, path, r) && HostAnswer(table, host, path, r)
    {
      r := MatchRoutes(exact, false, host, path);
      if r.None? {
        var rest := AfterFirstDot(host);
        if rest.Some? {
          r := MatchRoutes(wildcard, true, rest.value, path);
        }
      }
      AnswerByDomain(ops, host, path, r);
    }
  }

  lemma FirstIsBest(store: Store, wild: bool, table: Table, key: string, path: string, i: nat)
    requires StoreOk(store, wild, table) && key in store && i < |store[key]|
    requires store[key][i].location <= path && forall j | 0 <= j < i :: !(store[key][j].location <= path)
    ensures Best(table, wild, key, path, store[key][i])
  {
    var routes := store[key];
    assert routes[i] in routes;
    forall slot | Matches(table, wild, key, path, slot) ensures |slot.location| <= |routes[i].location| {
      assert table[slot] in routes && SlotOf(table[slot]) == slot;
      var j :| 0 <= j < |routes| && routes[j] == table[slot];
      assert j >= i;
    }
  }

  // A router agrees with its history: a route is in the bucket it belongs to if and only
  // if it was added to a free slot and its name has not been removed since, and in no
  // other bucket.
  lemma IndexExact(router: Router, wild: bool, key: string, r: Route)
    requires router.Valid()
    ensures r in Bucket(if wild then router.wildcard else router.exact, key) <==>
              IsWildcard(r.domain) == wild && KeyOf(r.domain) == key && EverPut(router.ops, r)
  {
    HistoryExact(router.ops, SlotOf(r), r);
    BucketShowsSlot(if wild then router.wildcard else router.exact, wild, router.table, key, r.location);
  }
}
