// Routes as a plain table, with no order: what internal/router promises to implement.
module RouteTable {
  import opened Wrappers

  datatype Route = Route(domain: string, location: string, proxyName: string, runId: string)

  // Where a route lives: the exact or the wildcard store, the key there, the location.
  datatype Slot = Slot(wild: bool, key: string, location: string)

  type Table = map<Slot, Route>

  predicate IsWildcard(domain: string) {
    "*." <= domain
  }

  // "*.example.com" is kept under "example.com".
  function KeyOf(domain: string): string {
    if IsWildcard(domain) then domain[2..] else domain
  }

  function SlotOf(r: Route): Slot {
    Slot(IsWildcard(r.domain), KeyOf(r.domain), r.location)
  }

  // An empty location means the root.
  function Normal(r: Route): Route {
    if r.location == "" then r.(location := "/") else r
  }

  function WithRoute(t: Table, r: Route): Table {
    t[SlotOf(Normal(r)) := Normal(r)]
  }

  function Without(t: Table, name: string): Table {
    map slot | slot in t && t[slot].proxyName != name :: t[slot]
  }

  // What follows the first dot of a host.
  function AfterFirstDot(host: string): Option<string> {
    if host == "" then None
    else if host[0] == '.' then Some(host[1..])
    else AfterFirstDot(host[1..])
  }

  // ---- lookup, without order ---------------------------------------------------------

  // Slot holds a route of the given store and key whose location is a prefix of path.
  predicate Matches(t: Table, wild: bool, key: string, path: string, slot: Slot) {
    slot in t && slot.wild == wild && slot.key == key && slot.location <= path
  }

  ghost predicate AnyMatch(t: Table, wild: bool, key: string, path: string) {
    exists slot :: Matches(t, wild, key, path, slot)
  }

  // r is a longest match.
  ghost predicate Best(t: Table, wild: bool, key: string, path: string, r: Route) {
    && Matches(t, wild, key, path, SlotOf(r)) && t[SlotOf(r)] == r
    && forall slot | Matches(t, wild, key, path, slot) :: |slot.location| <= |r.location|
  }

  // The exact host first, then the wildcard for everything after its first dot.
  ghost predicate IsAnswer(t: Table, host: string, path: string, r: Option<Route>) {
    if AnyMatch(t, false, host, path) then r.Some? && Best(t, false, host, path, r.value)
    else if AfterFirstDot(host).Some? && AnyMatch(t, true, AfterFirstDot(host).value, path) then
      r.Some? && Best(t, true, AfterFirstDot(host).value, path, r.value)
    else r == None
  }

  lemma BestUnique(t: Table, wild: bool, key: string, path: string, a: Route, b: Route)
    requires Best(t, wild, key, path, a) && Best(t, wild, key, path, b)
    ensures a == b
  {
    assert |a.location| == |b.location|;
    assert a.location == path[..|a.location|] == b.location;
  }

  // The table alone decides the answer: neither insertion order nor the placing of
  // equal-length locations can show.
  lemma AnswerUnique(t: Table, host: string, path: string, a: Option<Route>, b: Option<Route>)
    requires IsAnswer(t, host, path, a) && IsAnswer(t, host, path, b)
    ensures a == b
  {
    if AnyMatch(t, false, host, path) {
      BestUnique(t, false, host, path, a.value, b.value);
    } else if a.Some? {
      BestUnique(t, true, AfterFirstDot(host).value, path, a.value, b.value);
    }
  }

  lemma {:induction false} FirstDot(host: string)
    ensures match AfterFirstDot(host)
            case None => '.' !in host
            case Some(rest) => exists first :: '.' !in first && host == first + "." + rest
  {
    if host != "" && host[0] != '.' {
      FirstDot(host[1..]);
      if AfterFirstDot(host).Some? {
        var rest := AfterFirstDot(host).value;
        var first :| '.' !in first && host[1..] == first + "." + rest;
        assert host == ([host[0]] + first) + "." + rest;
      }
    } else if host != "" {
      assert host == "" + "." + host[1..];
    }
  }

  // ---- history ---------------------------------------------------------------------------

  datatype Op = Add(route: Route) | Remove(name: string)

  function Apply(t: Table, op: Op): Table {
    match op
    case Add(r) => if SlotOf(Normal(r)) in t then t else WithRoute(t, r)
    case Remove(name) => Without(t, name)
  }

  function Replay(ops: seq<Op>): Table {
    if ops == [] then map[] else Apply(Replay(ops[..|ops| - 1]), ops[|ops| - 1])
  }

  // Operation i put r where it is: the slot was free, and r's name was not removed since.
  ghost predicate PutBy(ops: seq<Op>, i: int, r: Route) {
    && 0 <= i < |ops| && ops[i].Add? && Normal(ops[i].route) == r
    && SlotOf(r) !in Replay(ops[..i])
    && forall j | i < j < |ops| :: ops[j] != Remove(r.proxyName)
  }

  // The table holds exactly the routes added to a free slot and not removed since.
  lemma {:induction false} HistoryExact(ops: seq<Op>, slot: Slot, r: Route)
    ensures slot in Replay(ops) && Replay(ops)[slot] == r <==> SlotOf(r) == slot && EverPut(ops, r)
  {
    if ops != [] {
      var last := |ops| - 1;
      HistoryExact(ops[..last], slot, r);
      LastOrEarlier(ops, r);
      if slot == SlotOf(r) && slot in Replay(ops[..last]) {
        HistoryExact(ops[..last], slot, Replay(ops[..last])[slot]);
      }
    }
  }

  ghost predicate EverPut(ops: seq<Op>, r: Route) {
    exists i :: PutBy(ops, i, r)
  }

  // r was put by the last operation, or earlier and the last one does not remove it.
  lemma LastOrEarlier(ops: seq<Op>, r: Route)
    requires ops != []
    ensures var (last, before) := (ops[|ops| - 1], ops[..|ops| - 1]);
            EverPut(ops, r) <==>
            || (last.Add? && Normal(last.route) == r && SlotOf(r) !in Replay(before))
            || (last != Remove(r.proxyName) && EverPut(before, r))
  {
    var n := |ops| - 1;
    var before := ops[..n];
    if i :| PutBy(ops, i, r) {
      if i < n {
        assert before[..i] == ops[..i];
        assert forall j | i < j < n :: before[j] == ops[j];
        assert PutBy(before, i, r);
      }
    }
    if i :| ops[n] != Remove(r.proxyName) && PutBy(before, i, r) {
      assert before[..i] == ops[..i];
      forall j | i < j < |ops| ensures ops[j] != Remove(r.proxyName) {
        if j < n {
          assert before[j] == ops[j];
        }
      }
      assert PutBy(ops, i, r);
    }
    if ops[n].Add? && Normal(ops[n].route) == r && SlotOf(r) !in Replay(before) {
      assert PutBy(ops, n, r);
    }
  }
}
