// What a lookup answers in terms of the routes' own domains: which hosts a route serves,
// and which of the routes that serve a host wins.
module HostLookup {
  import opened Wrappers
  import opened RouteTable

  ghost predicate In(t: Table, r: Route) {
    exists slot :: slot in t && t[slot] == r
  }

  predicate NoDot(s: string) {
    forall i | 0 <= i < |s| :: s[i] != '.'
  }

  // "*.example.com" covers every host that has one label in front of ".example.com".
  ghost predicate Covers(domain: string, host: string) {
    exists first, rest :: CoversWith(domain, host, first, rest)
  }

  predicate CoversWith(domain: string, host: string, first: string, rest: string) {
    NoDot(first) && host == first + "." + rest && domain == "*." + rest
  }

  // ---- the tables any history leads to ---------------------------------------------------

  ghost predicate SlotsOk(t: Table) {
    forall slot | slot in t :: SlotOf(t[slot]) == slot && slot.location != ""
  }

  lemma {:induction false} ReplaySlots(ops: seq<Op>)
    ensures SlotsOk(Replay(ops))
  {
    if ops != [] {
      ReplaySlots(ops[..|ops| - 1]);
    }
  }

  // Two routes share a slot exactly if they share domain and location.
  lemma SameSlotIff(a: Route, b: Route)
    ensures SlotOf(a) == SlotOf(b) <==> a.domain == b.domain && a.location == b.location
  {
    if SlotOf(a) == SlotOf(b) && IsWildcard(a.domain) {
      assert a.domain == "*." + a.domain[2..] && b.domain == "*." + b.domain[2..];
    }
  }

  // An Add is refused exactly if a route of that domain and location is there; otherwise
  // it is the route's own domain, name and run, at the root if no location is given.
  lemma AddsByDomain(ops: seq<Op>, r: Route)
    ensures var (t, u) := (Replay(ops), Replay(ops + [Add(r)]));
            var location := if r.location == "" then "/" else r.location;
            && ((exists x :: In(t, x) && x.domain == r.domain && x.location == location) ==> u == t)
            && ((forall x :: In(t, x) ==> x.domain != r.domain || x.location != location) ==>
                  forall x :: In(u, x) <==> In(t, x) || x == Route(r.domain, location, r.proxyName, r.runId))
  {
    var t := Replay(ops);
    var n := Normal(r);
    assert (ops + [Add(r)])[..|ops|] == ops;
    ReplaySlots(ops);
    if SlotOf(n) in t {
      SameSlotIff(n, t[SlotOf(n)]);
      assert In(t, t[SlotOf(n)]);
    } else {
      assert WithRoute(t, r)[SlotOf(n)] == n;
      forall x | In(t, x) ensures In(WithRoute(t, r), x) && !(x.domain == n.domain && x.location == n.location) {
        var slot :| slot in t && t[slot] == x;
        SameSlotIff(n, x);
        assert WithRoute(t, r)[slot] == x;
      }
    }
  }

  lemma RemovesByName(ops: seq<Op>, name: string)
    ensures forall x :: In(Replay(ops + [Remove(name)]), x) <==> In(Replay(ops), x) && x.proxyName != name
  {
    var (t, u) := (Replay(ops), Replay(ops + [Remove(name)]));
    assert (ops + [Remove(name)])[..|ops|] == ops;
    forall x ensures In(u, x) <==> In(t, x) && x.proxyName != name {
      if slot :| slot in t && t[slot] == x && x.proxyName != name {
        assert u[slot] == x;
      }
    }
  }

  // ---- slots and hosts -----------------------------------------------------------------------

  // Whose wildcard slots a host looks at.
  lemma WildcardKey(domain: string, host: string)
    ensures Covers(domain, host) <==>
              IsWildcard(domain) && AfterFirstDot(host).Some? && KeyOf(domain) == AfterFirstDot(host).value
  {
    FirstDot(host);
    if first, rest :| CoversWith(domain, host, first, rest) {
      FirstLabel(first, rest);
      assert domain[2..] == rest;
    }
    if IsWildcard(domain) && AfterFirstDot(host).Some? && KeyOf(domain) == AfterFirstDot(host).value {
      var rest := AfterFirstDot(host).value;
      var first := host[..|host| - |rest| - 1];
      assert host == first + "." + rest;
      assert domain == "*." + rest;
      assert CoversWith(domain, host, first, rest);
    }
  }

  lemma {:induction false} FirstLabel(first: string, rest: string)
    requires NoDot(first)
    ensures AfterFirstDot(first + "." + rest) == Some(rest)
  {
    var host := first + "." + rest;
    if first == [] {
      assert host[1..] == rest;
    } else {
      assert host[0] == first[0] != '.';
      assert host[1..] == first[1..] + "." + rest;
      FirstLabel(first[1..], rest);
    }
  }

  // A route of the table serves the host exactly, or by its wildcard.
  lemma ServesIff(t: Table, r: Route, host: string, path: string)
    requires SlotsOk(t) && In(t, r)
    ensures Matches(t, false, host, path, SlotOf(r)) <==> r.domain == host && !IsWildcard(host) && r.location <= path
    ensures AfterFirstDot(host).Some? ==>
              (Matches(t, true, AfterFirstDot(host).value, path, SlotOf(r)) <==>
                 Covers(r.domain, host) && r.location <= path)
  {
    WildcardKey(r.domain, host);
    var slot :| slot in t && t[slot] == r;
  }

  // ---- the answer ------------------------------------------------------------------------------

  ghost predicate ExactFor(t: Table, host: string, path: string, r: Route) {
    In(t, r) && r.domain == host && !IsWildcard(host) && r.location <= path
  }

  ghost predicate WildcardFor(t: Table, host: string, path: string, r: Route) {
    In(t, r) && Covers(r.domain, host) && r.location <= path
  }

  // The longest location among the routes of the host itself, else among the wildcard
  // routes that cover it, else nothing.
  ghost predicate HostAnswer(t: Table, host: string, path: string, ans: Option<Route>) {
    match ans
    case Some(a) =>
      || (ExactFor(t, host, path, a) && forall r | ExactFor(t, host, path, r) :: |r.location| <= |a.location|)
      || (WildcardFor(t, host, path, a) && (forall r :: !ExactFor(t, host, path, r))
          && forall r | WildcardFor(t, host, path, r) :: |r.location| <= |a.location|)
    case None => forall r :: !ExactFor(t, host, path, r) && !WildcardFor(t, host, path, r)
  }

  lemma BestIsLongest(t: Table, wild: bool, key: string, path: string, a: Route)
    requires SlotsOk(t) && Best(t, wild, key, path, a)
    ensures In(t, a)
    ensures forall r | In(t, r) && Matches(t, wild, key, path, SlotOf(r)) :: |r.location| <= |a.location|
  {
  }

  lemma NoMatch(t: Table, wild: bool, key: string, path: string)
    requires SlotsOk(t) && !AnyMatch(t, wild, key, path)
    ensures forall r :: In(t, r) ==> !Matches(t, wild, key, path, SlotOf(r))
  {
  }

  // After any history, what a lookup answers is the answer in terms of domains.
  lemma AnswerByDomain(ops: seq<Op>, host: string, path: string, ans: Option<Route>)
    requires IsAnswer(Replay(ops), host, path, ans)
    ensures HostAnswer(Replay(ops), host, path, ans)
  {
    var t := Replay(ops);
    ReplaySlots(ops);
    FirstDot(host);
    forall r | In(t, r)
      ensures ExactFor(t, host, path, r) <==> Matches(t, false, host, path, SlotOf(r))
      ensures AfterFirstDot(host).Some? ==>
                (WildcardFor(t, host, path, r) <==> Matches(t, true, AfterFirstDot(host).value, path, SlotOf(r)))
      ensures AfterFirstDot(host).None? ==> !WildcardFor(t, host, path, r)
    {
      ServesIff(t, r, host, path);
      WildcardKey(r.domain, host);
    }
    if AnyMatch(t, false, host, path) {
      BestIsLongest(t, false, host, path, ans.value);
    } else {
      NoMatch(t, false, host, path);
      if AfterFirstDot(host).Some? {
        var key := AfterFirstDot(host).value;
        if AnyMatch(t, true, key, path) {
          BestIsLongest(t, true, key, path, ans.value);
        } else {
          NoMatch(t, true, key, path);
        }
      }
    }
  }
}
