// handleNewProxy of internal/server/proxy_register.go: one NewProxy message becomes
// routes, domain by domain and location by location, with a rollback on conflict.
module Registration {
  import opened RouteTable
  import opened RouterIndex
  import opened Framing

  // ---- what a message asks for ----------------------------------------------------------

  function RouteFor(m: Message, runId: string, domain: string, location: string): Route
    requires m.NewProxy?
  {
    Route(domain, location, m.proxyName, runId)
  }

  function LocationRoutes(m: Message, runId: string, domain: string, locations: seq<string>): seq<Route>
    requires m.NewProxy?
  {
    if locations == [] then []
    else
      var n := |locations| - 1;
      LocationRoutes(m, runId, domain, locations[..n]) + [RouteFor(m, runId, domain, locations[n])]
  }

  // No Locations means the root.
  function Locations(m: Message): seq<string>
    requires m.NewProxy?
  {
    if m.locations == [] then ["/"] else m.locations
  }

  function Routes(m: Message, runId: string, domains: seq<string>): seq<Route>
    requires m.NewProxy?
  {
    if domains == [] then []
    else
      var n := |domains| - 1;
      Routes(m, runId, domains[..n]) + LocationRoutes(m, runId, domains[n], Locations(m))
  }

  // ---- adding in order --------------------------------------------------------------------

  function AddAll(t: Table, rs: seq<Route>): Table {
    if rs == [] then t else WithRoute(AddAll(t, rs[..|rs| - 1]), rs[|rs| - 1])
  }

  // Each route finds its slot free when its turn comes.
  predicate Fits(t: Table, rs: seq<Route>) {
    rs == [] ||
    var n := |rs| - 1;
    Fits(t, rs[..n]) && SlotOf(Normal(rs[n])) !in AddAll(t, rs[..n])
  }

  // The first c routes fit and the next one, if any, does not.
  predicate Stops(t: Table, rs: seq<Route>, c: nat) {
    c <= |rs| && Fits(t, rs[..c]) && (c < |rs| ==> !Fits(t, rs[..c + 1]))
  }

  // The table after the message, when c of its routes could be added: a conflict rolls
  // back by name, except among the first domain's Locations, where nothing is rolled back.
  function Outcome(t: Table, m: Message, rs: seq<Route>, c: nat): Table
    requires m.NewProxy? && c <= |rs|
  {
    var added := AddAll(t, rs[..c]);
    if c == |rs| || (m.locations != [] && c < |m.locations|) then added else Without(added, m.proxyName)
  }

  // ---- the handler ---------------------------------------------------------------------------

  const ONLY_HTTP := "only http proxy type is supported"

  function ConflictText(r: Route, holder: string): (text: string)
    ensures text != ""
  {
    "domain " + r.domain + " location " + r.location + " already registered by " + holder
  }

  lemma AppendFits(t: Table, rs: seq<Route>, r: Route)
    ensures Fits(t, rs + [r]) <==> Fits(t, rs) && SlotOf(Normal(r)) !in AddAll(t, rs)
    ensures AddAll(t, rs + [r]) == WithRoute(AddAll(t, rs), r)
  {
    assert (rs + [r])[..|rs|] == rs;
  }

  lemma {:induction false} RoutesPrefix(m: Message, runId: string, domains: seq<string>, d: nat)
    requires m.NewProxy? && d <= |domains|
    ensures Routes(m, runId, domains[..d]) <= Routes(m, runId, domains)
  {
    if d == |domains| {
      assert domains[..d] == domains;
    } else {
      RoutesPrefix(m, runId, domains[..|domains| - 1], d);
      assert domains[..|domains| - 1][..d] == domains[..d];
    }
  }

  lemma {:induction false} LocationsPrefix(m: Message, runId: string, domain: string, locations: seq<string>, l: nat)
    requires m.NewProxy? && l <= |locations|
    ensures LocationRoutes(m, runId, domain, locations[..l]) <= LocationRoutes(m, runId, domain, locations)
    ensures |LocationRoutes(m, runId, domain, locations)| == |locations|
  {
    if locations == [] {
      assert locations[..l] == locations;
    } else if l == |locations| {
      LocationsPrefix(m, runId, domain, locations[..|locations| - 1], 0);
      assert locations[..l] == locations;
    } else {
      LocationsPrefix(m, runId, domain, locations[..|locations| - 1], l);
      assert locations[..|locations| - 1][..l] == locations[..l];
    }
  }

  // Where the loops stand: d whole domains and l locations of the next one.
  lemma Position(m: Message, runId: string, d: nat, l: nat)
    requires m.NewProxy? && d < |m.customDomains| && l <= |Locations(m)|
    ensures var here := Routes(m, runId, m.customDomains[..d])
                        + LocationRoutes(m, runId, m.customDomains[d], Locations(m)[..l]);
            && here <= Routes(m, runId, m.customDomains)
            && (l == |Locations(m)| ==> here == Routes(m, runId, m.customDomains[..d + 1]))
            && (l < |Locations(m)| ==> |here| < |Routes(m, runId, m.customDomains)|)
            && (d == 0 ==> |here| == l) && (d > 0 ==> |here| >= |Locations(m)|)
  {
    var domains := m.customDomains;
    RoutesPrefix(m, runId, domains, d + 1);
    LocationsPrefix(m, runId, domains[d], Locations(m), l);
    LocationsPrefix(m, runId, domains[d], Locations(m)[..l], 0);
    assert domains[..d + 1][..d] == domains[..d];
    assert l == |Locations(m)| ==> Locations(m)[..l] == Locations(m);
    if d > 0 {
      LocationsPrefix(m, runId, domains[d - 1], Locations(m), 0);
      assert domains[..d][d - 1] == domains[d - 1];
    }
  }

  // The router holds t with rs added, each to a free slot.
  ghost predicate Holds(router: Router, t: Table, rs: seq<Route>)
    reads router
  {
    router.Valid() && Fits(t, rs) && router.table == AddAll(t, rs)
  }

  // The text names the conflict: the route that did not fit, and who holds its slot.
  ghost predicate Explains(t: Table, now: seq<Route>, cfg: Route, error: string) {
    var slot := SlotOf(Normal(cfg));
    slot in AddAll(t, now) && error == ConflictText(Normal(cfg), AddAll(t, now)[slot].proxyName)
  }

  method AddOne(router: Router, cfg: Route, ghost t: Table, ghost now: seq<Route>) returns (r: AddResult)
    requires Holds(router, t, now)
    modifies router
    ensures r.Added? ==> Holds(router, t, now + [cfg])
    ensures r.Conflict? ==> Holds(router, t, now) && !Fits(t, now + [cfg])
    ensures r.Conflict? ==> Explains(t, now, cfg, ConflictText(Normal(cfg), r.registeredBy))
  {
    AppendFits(t, now, cfg);
    r := router.Add(cfg);
  }

  // The routes added so far: those of earlier domains and i locations of this one.
  ghost function Reached(m: Message, runId: string, domain: string, before: seq<Route>, i: nat): seq<Route>
    requires m.NewProxy? && i <= |Locations(m)|
  {
    before + LocationRoutes(m, runId, domain, Locations(m)[..i])
  }

  method AddLocation(router: Router, m: Message, runId: string, domain: string, i: nat, ghost t: Table,
      ghost before: seq<Route>)
      returns (ok: bool, error: string)
    requires m.NewProxy? && i < |Locations(m)| && Holds(router, t, Reached(m, runId, domain, before, i))
    modifies router
    ensures Holds(router, t, Reached(m, runId, domain, before, if ok then i + 1 else i))
    ensures !ok ==> !Fits(t, Reached(m, runId, domain, before, i + 1))
    ensures !ok ==>
              Explains(t, Reached(m, runId, domain, before, i), RouteFor(m, runId, domain, Locations(m)[i]), error)
  {
    var cfg := RouteFor(m, runId, domain, Locations(m)[i]);
    LastLocation(m, runId, domain, i);
    assert Reached(m, runId, domain, before, i) + [cfg] == Reached(m, runId, domain, before, i + 1);
    var r := AddOne(router, cfg, t, Reached(m, runId, domain, before, i));
    ok := r.Added?;
    error := if ok then "" else ConflictText(Normal(cfg), r.registeredBy);
  }

  // Adds one domain's routes; ok when all went in, else the conflict's text.
  method AddDomain(router: Router, m: Message, runId: string, domain: string, ghost t: Table, ghost before: seq<Route>)
      returns (ok: bool, error: string, ghost l: nat)
    requires m.NewProxy? && Holds(router, t, Reached(m, runId, domain, before, 0))
    modifies router
    ensures l <= |Locations(m)| && (ok <==> l == |Locations(m)|)
    ensures Holds(router, t, Reached(m, runId, domain, before, l))
    ensures !ok ==> !Fits(t, Reached(m, runId, domain, before, l + 1))
    ensures !ok ==>
              Explains(t, Reached(m, runId, domain, before, l), RouteFor(m, runId, domain, Locations(m)[l]), error)
  {
    l := 0;
    for i := 0 to |Locations(m)|
      invariant l == i && Holds(router, t, Reached(m, runId, domain, before, i))
    {
      ok, error := AddLocation(router, m, runId, domain, i, t, before);
      if !ok {
        return;
      }
      l := i + 1;
    }
    ok, error := true, "";
  }

  lemma WithoutTwice(t: Table, name: string)
    ensures Without(Without(t, name), name) == Without(t, name)
  {
  }

  // The rollback loop removes the same name once for each domain already done.
  method RollBack(router: Router, registered: seq<string>, name: string)
    requires router.Valid() && forall i | 0 <= i < |registered| :: registered[i] == name
    modifies router
    ensures router.Valid()
    ensures router.table == if registered == [] then old(router.table) else Without(old(router.table), name)
  {
    WithoutTwice(router.table, name);
    for i := 0 to |registered|
      invariant router.Valid()
      invariant router.table == if i == 0 then old(router.table) else Without(old(router.table), name)
    {
      router.Remove(registered[i]);
    }
  }

  // What a conflict undoes.
  method Undo(router: Router, m: Message, registered: seq<string>)
    requires m.NewProxy? && router.Valid() && forall i | 0 <= i < |registered| :: registered[i] == m.proxyName
    modifies router
    ensures router.Valid()
    ensures router.table == if m.locations != [] && registered == [] then old(router.table)
                            else Without(old(router.table), m.proxyName)
  {
    if m.locations == [] {
      router.Remove(m.proxyName);
    } else {
      RollBack(router, registered, m.proxyName);
    }
  }

  // A conflict at location l of domain d, in terms of the whole list of routes.
  lemma ConflictAt(t: Table, m: Message, runId: string, d: nat, l: nat) returns (c: nat)
    requires m.NewProxy? && d < |m.customDomains| && l < |Locations(m)|
    requires var before := Routes(m, runId, m.customDomains[..d]);
             && Fits(t, Reached(m, runId, m.customDomains[d], before, l))
             && !Fits(t, Reached(m, runId, m.customDomains[d], before, l + 1))
    ensures var rs := Routes(m, runId, m.customDomains);
            && c < |rs| && Stops(t, rs, c)
            && rs[..c] == Reached(m, runId, m.customDomains[d], Routes(m, runId, m.customDomains[..d]), l)
            && rs[c] == RouteFor(m, runId, m.customDomains[d], Locations(m)[l])
            && (d == 0 <==> c < |Locations(m)|)
  {
    var before := Routes(m, runId, m.customDomains[..d]);
    var here := Reached(m, runId, m.customDomains[d], before, l);
    var next := Reached(m, runId, m.customDomains[d], before, l + 1);
    c := |here|;
    Position(m, runId, d, l);
    Position(m, runId, d, l + 1);
    LastLocation(m, runId, m.customDomains[d], l);
    var rs := Routes(m, runId, m.customDomains);
    assert rs[..c] == here;
    assert rs[..c + 1] == next;
    assert rs[c] == next[c];
  }

  ghost predicate RejectedAt(t: Table, m: Message, runId: string, c: nat)
    requires m.NewProxy?
  {
    var rs := Routes(m, runId, m.customDomains);
    c < |rs| && Stops(t, rs, c)
  }

  // The error path: what was added is undone, as far as the code undoes it.
  method Reject(router: Router, m: Message, runId: string, registered: seq<string>, error: string,
                ghost t: Table, ghost d: nat, ghost l: nat)
      returns (ghost c: nat)
    requires m.NewProxy? && d < |m.customDomains| && l < |Locations(m)|
    requires |registered| == d && forall i | 0 <= i < |registered| :: registered[i] == m.proxyName
    requires var before := Routes(m, runId, m.customDomains[..d]);
             && Holds(router, t, Reached(m, runId, m.customDomains[d], before, l))
             && !Fits(t, Reached(m, runId, m.customDomains[d], before, l + 1))
             && Explains(t, Reached(m, runId, m.customDomains[d], before, l),
                         RouteFor(m, runId, m.customDomains[d], Locations(m)[l]), error)
    modifies router
    ensures router.Valid()
    ensures RejectedAt(t, m, runId, c) && router.table == Outcome(t, m, Routes(m, runId, m.customDomains), c)
    ensures var rs := Routes(m, runId, m.customDomains); Explains(t, rs[..c], rs[c], error)
  {
    c := ConflictAt(t, m, runId, d, l);
    Undo(router, m, registered);
  }

  lemma DomainStart(m: Message, runId: string, d: nat)
    requires m.NewProxy? && d < |m.customDomains|
    ensures var before := Routes(m, runId, m.customDomains[..d]);
            && Reached(m, runId, m.customDomains[d], before, 0) == before
            && Reached(m, runId, m.customDomains[d], before, |Locations(m)|)
               == Routes(m, runId, m.customDomains[..d + 1])
  {
    Position(m, runId, d, |Locations(m)|);
  }

  // One domain: its routes are in, or the message is rejected.
  method RegisterDomain(router: Router, m: Message, runId: string, d: nat, registered: seq<string>, ghost t: Table)
      returns (ok: bool, error: string, ghost c: nat)
    requires m.NewProxy? && d < |m.customDomains|
    requires |registered| == d && forall i | 0 <= i < |registered| :: registered[i] == m.proxyName
    requires Holds(router, t, Routes(m, runId, m.customDomains[..d]))
    modifies router
    ensures ok ==> Holds(router, t, Routes(m, runId, m.customDomains[..d + 1]))
    ensures router.Valid()
    ensures !ok ==> RejectedAt(t, m, runId, c) && router.table == Outcome(t, m, Routes(m, runId, m.customDomains), c)
    ensures !ok ==> var rs := Routes(m, runId, m.customDomains); Explains(t, rs[..c], rs[c], error)
  {
    DomainStart(m, runId, d);
    ghost var l;
    c := 0;
    ok, error, l := AddDomain(router, m, runId, m.customDomains[d], t, Routes(m, runId, m.customDomains[..d]));
    if !ok {
      c := Reject(router, m, runId, registered, error, t, d, l);
    }
  }

  // handleNewProxy's routing part, the router present. c is how many routes were added.
  method RegisterRoutes(router: Router, m: Message, runId: string) returns (ok: bool, error: string, ghost c: nat)
    requires m.NewProxy? && router.Valid()
    modifies router
    ensures router.Valid()
    ensures var rs := Routes(m, runId, m.customDomains);
            && Stops(old(router.table), rs, c) && (ok <==> c == |rs|)
            && (if ok then error == "" else Explains(old(router.table), rs[..c], rs[c], error))
            && router.table == Outcome(old(router.table), m, rs, c)
  {
    ghost var t := router.table;
    var registered: seq<string> := [];
    WholeMessage(m, runId);
    for d := 0 to |m.customDomains|
      invariant |registered| == d && forall i | 0 <= i < |registered| :: registered[i] == m.proxyName
      invariant Holds(router, t, Routes(m, runId, m.customDomains[..d]))
    {
      ok, error, c := RegisterDomain(router, m, runId, d, registered, t);
      if !ok {
        return;
      }
      registered := registered + [m.proxyName];
    }
    ok, error, c := true, "", |Routes(m, runId, m.customDomains)|;
  }

  lemma WholeMessage(m: Message, runId: string)
    requires m.NewProxy?
    ensures Routes(m, runId, m.customDomains[..0]) == []
    ensures Routes(m, runId, m.customDomains[..|m.customDomains|]) == Routes(m, runId, m.customDomains)
    ensures var rs := Routes(m, runId, m.customDomains); rs[..|rs|] == rs
  {
    assert m.customDomains[..|m.customDomains|] == m.customDomains;
  }

  lemma LastLocation(m: Message, runId: string, domain: string, l: nat)
    requires m.NewProxy? && l < |Locations(m)|
    ensures LocationRoutes(m, runId, domain, Locations(m)[..l + 1])
            == LocationRoutes(m, runId, domain, Locations(m)[..l]) + [RouteFor(m, runId, domain, Locations(m)[l])]
  {
    assert Locations(m)[..l + 1][..l] == Locations(m)[..l];
  }

  // handleNewProxy: the reply, and the session's set of registered names. Without a
  // router every http proxy is accepted and nothing is recorded.
  method HandleNewProxy(router: Router?, m: Message, runId: string, registeredProxies: set<string>)
      returns (reply: Message, names: set<string>, ghost c: nat)
    requires m.NewProxy? && (router != null ==> router.Valid())
    modifies router
    ensures m.proxyType != "http" ==>
              && reply == NewProxyResp(m.proxyName, "", ONLY_HTTP) && names == registeredProxies
              && (router != null ==> router.table == old(router.table))
    ensures m.proxyType == "http" && router == null ==>
              reply == NewProxyResp(m.proxyName, ":80", "") && names == registeredProxies
    ensures m.proxyType == "http" && router != null ==>
              var rs := Routes(m, runId, m.customDomains);
              && Stops(old(router.table), rs, c)
              && router.table == Outcome(old(router.table), m, rs, c)
              && (if c == |rs| then
                    reply == NewProxyResp(m.proxyName, ":80", "") && names == registeredProxies + {m.proxyName}
                  else reply.NewProxyResp? && reply.proxyName == m.proxyName && reply.remoteAddr == ""
                       && Explains(old(router.table), rs[..c], rs[c], reply.error) && reply.error != ""
                       && names == registeredProxies)
    ensures router != null ==> router.Valid()
  {
    names, c := registeredProxies, 0;
    if m.proxyType != "http" {
      return NewProxyResp(m.proxyName, "", ONLY_HTTP), names, c;
    }
    if router != null {
      var ok, error;
      ok, error, c := RegisterRoutes(router, m, runId);
      if !ok {
        return NewProxyResp(m.proxyName, "", error), names, c;
      }
      names := names + {m.proxyName};
    }
    reply := NewProxyResp(m.proxyName, ":80", "");
  }

  // ---- what registration promises ------------------------------------------------------------

  // All slots free in the table and pairwise different.
  ghost predicate FreeAndDistinct(t: Table, rs: seq<Route>) {
    && (forall i | 0 <= i < |rs| :: SlotOf(Normal(rs[i])) !in t)
    && (forall i, j | 0 <= i < j < |rs| :: SlotOf(Normal(rs[i])) != SlotOf(Normal(rs[j])))
  }

  lemma {:induction false} AddAllKeys(t: Table, rs: seq<Route>, slot: Slot)
    ensures slot in AddAll(t, rs) <==> slot in t || exists i :: 0 <= i < |rs| && SlotOf(Normal(rs[i])) == slot
  {
    if rs != [] {
      var n := |rs| - 1;
      AddAllKeys(t, rs[..n], slot);
      assert forall i | 0 <= i < n :: rs[..n][i] == rs[i];
    }
  }

  // A message goes through if and only if its slots are all free and all different.
  lemma {:induction false} FitsIff(t: Table, rs: seq<Route>)
    ensures Fits(t, rs) <==> FreeAndDistinct(t, rs)
  {
    if rs != [] {
      var n := |rs| - 1;
      FitsIff(t, rs[..n]);
      AddAllKeys(t, rs[..n], SlotOf(Normal(rs[n])));
      FreeAndDistinctStep(t, rs);
    }
  }

  lemma FreeAndDistinctStep(t: Table, rs: seq<Route>)
    requires rs != []
    ensures var (front, last) := (rs[..|rs| - 1], SlotOf(Normal(rs[|rs| - 1])));
            FreeAndDistinct(t, rs) <==>
              FreeAndDistinct(t, front) && last !in t
              && !exists i :: 0 <= i < |front| && SlotOf(Normal(front[i])) == last
  {
    var n := |rs| - 1;
    assert forall i | 0 <= i < n :: rs[..n][i] == rs[i];
  }

  // ... and then adds exactly its own routes.
  lemma {:induction false} AddsOwn(t: Table, rs: seq<Route>, i: nat)
    requires Fits(t, rs) && i < |rs|
    ensures SlotOf(Normal(rs[i])) in AddAll(t, rs) && AddAll(t, rs)[SlotOf(Normal(rs[i]))] == Normal(rs[i])
  {
    var n := |rs| - 1;
    if i < n {
      AddsOwn(t, rs[..n], i);
    }
  }

  lemma {:induction false} KeepsOthers(t: Table, rs: seq<Route>, slot: Slot)
    requires Fits(t, rs) && slot in t
    ensures slot in AddAll(t, rs) && AddAll(t, rs)[slot] == t[slot]
  {
    if rs != [] {
      KeepsOthers(t, rs[..|rs| - 1], slot);
    }
  }

  lemma {:induction false} FitsDown(t: Table, rs: seq<Route>, c: nat)
    requires Fits(t, rs) && c <= |rs|
    ensures Fits(t, rs[..c])
  {
    if c < |rs| {
      FitsDown(t, rs[..|rs| - 1], c);
      assert rs[..|rs| - 1][..c] == rs[..c];
    } else {
      assert rs[..c] == rs;
    }
  }

  // So whether a message is accepted depends on the table and the message alone.
  lemma AcceptedIff(t: Table, m: Message, runId: string, c: nat)
    requires m.NewProxy? && Stops(t, Routes(m, runId, m.customDomains), c)
    ensures c == |Routes(m, runId, m.customDomains)| <==> FreeAndDistinct(t, Routes(m, runId, m.customDomains))
  {
    var rs := Routes(m, runId, m.customDomains);
    FitsIff(t, rs);
    assert rs[..|rs|] == rs;
    if c < |rs| && Fits(t, rs) {
      FitsDown(t, rs, c + 1);
    }
  }

  lemma {:induction false} LocationNames(m: Message, runId: string, domain: string, locations: seq<string>)
    requires m.NewProxy?
    ensures forall r | r in LocationRoutes(m, runId, domain, locations) :: r.proxyName == m.proxyName
  {
    if locations != [] {
      LocationNames(m, runId, domain, locations[..|locations| - 1]);
    }
  }

  lemma {:induction false} RouteNames(m: Message, runId: string, domains: seq<string>)
    requires m.NewProxy?
    ensures forall r | r in Routes(m, runId, domains) :: r.proxyName == m.proxyName
  {
    if domains != [] {
      RouteNames(m, runId, domains[..|domains| - 1]);
      LocationNames(m, runId, domains[|domains| - 1], Locations(m));
    }
  }

  // What a message asks for: its own name and run at every one of its locations, or the
  // root if it gives none, of every one of its domains, domain by domain.
  lemma RoutesAre(m: Message, runId: string, domains: seq<string>, d: nat, l: nat)
    requires m.NewProxy? && d < |domains| && l < |if m.locations == [] then ["/"] else m.locations|
    ensures var locations := if m.locations == [] then ["/"] else m.locations;
            var (rs, before) := (Routes(m, runId, domains), |Routes(m, runId, domains[..d])|);
            && before + |locations| == |Routes(m, runId, domains[..d + 1])| <= |rs|
            && rs[before + l] == Route(domains[d], locations[l], m.proxyName, runId)
  {
    var upTo := domains[..d + 1];
    RoutesPrefix(m, runId, domains, d + 1);
    LocationsAre(m, runId, domains[d], Locations(m), l);
    assert upTo[..d] == domains[..d];
    var (front, here) := (Routes(m, runId, domains[..d]), LocationRoutes(m, runId, domains[d], Locations(m)));
    assert Routes(m, runId, upTo) == front + here;
    assert Routes(m, runId, domains)[|front| + l] == (front + here)[|front| + l];
  }

  lemma {:induction false} LocationsAre(m: Message, runId: string, domain: string, locations: seq<string>, l: nat)
    requires m.NewProxy? && l < |locations|
    ensures var rs := LocationRoutes(m, runId, domain, locations);
            |rs| == |locations| && rs[l] == Route(domain, locations[l], m.proxyName, runId)
  {
    var last := |locations| - 1;
    if last > 0 {
      LocationsAre(m, runId, domain, locations[..last], if l < last then l else 0);
    }
  }

  // Removing by name undoes the additions, and takes older routes of the name along.
  lemma {:induction false} RollbackUndoes(t: Table, rs: seq<Route>, name: string)
    requires Fits(t, rs) && forall r | r in rs :: r.proxyName == name
    ensures Without(AddAll(t, rs), name) == Without(t, name)
  {
    if rs != [] {
      var n := |rs| - 1;
      RollbackUndoes(t, rs[..n], name);
      assert Normal(rs[n]).proxyName == name;
      var u := AddAll(t, rs[..n]);
      assert Without(WithRoute(u, rs[n]), name) == Without(u, name);
    }
  }

  // No route of the table has the name.
  predicate Unused(t: Table, name: string) {
    forall slot | slot in t :: t[slot].proxyName != name
  }

  lemma UnusedIff(t: Table, name: string)
    ensures Without(t, name) == t <==> Unused(t, name)
  {
    forall slot | slot in t && t[slot].proxyName == name ensures Without(t, name) != t {
      assert slot !in Without(t, name);
    }
  }

  // The conflict is among the first domain's Locations, where nothing is rolled back.
  predicate NotRolledBack(m: Message, c: nat)
    requires m.NewProxy?
  {
    m.locations != [] && c < |m.locations|
  }

  // What a rejection leaves: the first domain's Locations before the conflict, or the
  // table without any route of the name, older ones included.
  lemma OutcomeOfRejection(t: Table, m: Message, runId: string, c: nat)
    requires m.NewProxy?
    requires var rs := Routes(m, runId, m.customDomains); Stops(t, rs, c) && c < |rs|
    ensures var rs := Routes(m, runId, m.customDomains);
            Outcome(t, m, rs, c) == if NotRolledBack(m, c) then AddAll(t, rs[..c]) else Without(t, m.proxyName)
  {
    var rs := Routes(m, runId, m.customDomains);
    RouteNames(m, runId, m.customDomains);
    assert forall r | r in rs[..c] :: r in rs;
    RollbackUndoes(t, rs[..c], m.proxyName);
  }

  // In terms of where it stopped, exactly when a rejection leaves the table alone.
  lemma OutcomeUnchangedIff(t: Table, m: Message, runId: string, c: nat)
    requires m.NewProxy?
    requires var rs := Routes(m, runId, m.customDomains); Stops(t, rs, c) && c < |rs|
    ensures var rs := Routes(m, runId, m.customDomains);
            Outcome(t, m, rs, c) == t <==> if NotRolledBack(m, c) then c == 0 else Unused(t, m.proxyName)
  {
    var rs := Routes(m, runId, m.customDomains);
    OutcomeOfRejection(t, m, runId, c);
    UnusedIff(t, m.proxyName);
    if c > 0 {
      AddsOwn(t, rs[..c], 0);
      FitsDown(t, rs[..c], 1);
      FirstSlot(t, rs);
      assert rs[..c][..1] == rs[..1];
    }
  }

  lemma FirstSlot(t: Table, rs: seq<Route>)
    requires rs != []
    ensures Fits(t, rs[..1]) <==> SlotOf(Normal(rs[0])) !in t
  {
    assert rs[..1][..0] == [];
  }

  // The same, as a caller can tell beforehand: with Locations of which the first domain's
  // do not all fit, the table is left alone if and only if the very first slot was taken;
  // otherwise if and only if no older route has the name.
  lemma RejectionUnchangedIff(t: Table, m: Message, runId: string, c: nat)
    requires m.NewProxy?
    requires var rs := Routes(m, runId, m.customDomains); Stops(t, rs, c) && c < |rs|
    ensures var rs := Routes(m, runId, m.customDomains);
            var first := if |m.locations| <= |rs| then rs[..|m.locations|] else rs;
            Outcome(t, m, rs, c) == t <==>
              if m.locations != [] && !FreeAndDistinct(t, first) then SlotOf(Normal(rs[0])) in t
              else Unused(t, m.proxyName)
  {
    var rs := Routes(m, runId, m.customDomains);
    OutcomeUnchangedIff(t, m, runId, c);
    FirstDomain(t, m, rs, c);
    FirstSlot(t, rs);
    if c > 0 {
      FitsDown(t, rs[..c], 1);
      assert rs[..c][..1] == rs[..1];
    }
  }

  // The first domain fits as a whole exactly when the conflict comes after it.
  lemma FirstDomain(t: Table, m: Message, rs: seq<Route>, c: nat)
    requires m.NewProxy? && Stops(t, rs, c) && c < |rs|
    ensures FreeAndDistinct(t, if |m.locations| <= |rs| then rs[..|m.locations|] else rs) <==> c >= |m.locations|
  {
    var k := |m.locations|;
    var first := if k <= |rs| then rs[..k] else rs;
    FitsIff(t, first);
    if c >= k {
      FitsDown(t, rs[..c], k);
      assert rs[..c][..k] == first;
    } else {
      assert first[..c + 1] == rs[..c + 1];
      if Fits(t, first) {
        FitsDown(t, first, c + 1);
      }
    }
  }

  // All-or-nothing fails: "/a" stays behind although the message is rejected for "/b".
  lemma RejectionLeavesRoute(runId: string)
    ensures var m := NewProxy("p", "http", ["d"], ["/a", "/b"]);
            var t: Table := map[Slot(false, "d", "/b") := Route("d", "/b", "other", runId)];
            var rs := Routes(m, runId, m.customDomains);
            && Stops(t, rs, 1) && |rs| == 2
            && Slot(false, "d", "/a") !in t && Slot(false, "d", "/a") in Outcome(t, m, rs, 1)
  {
    var m := NewProxy("p", "http", ["d"], ["/a", "/b"]);
    var t: Table := map[Slot(false, "d", "/b") := Route("d", "/b", "other", runId)];
    var (a, b) := (Route("d", "/a", "p", runId), Route("d", "/b", "p", runId));
    assert ["/a", "/b"][..1] == ["/a"] && ["/a"][..0] == [];
    assert LocationRoutes(m, runId, "d", ["/a"]) == [a];
    assert LocationRoutes(m, runId, "d", ["/a", "/b"]) == [a, b];
    assert ["d"][..0] == [];
    var rs := Routes(m, runId, ["d"]);
    assert rs == Routes(m, runId, ["d"][..0]) + LocationRoutes(m, runId, "d", ["/a", "/b"]);
    assert rs == [a, b];
    assert rs[..1] == [] + [a] && rs[..2] == [a] + [b];
    AppendFits(t, [], a);
    AppendFits(t, [a], b);
  }

  // Nor does it fail safely: the same message sent twice is rejected the second time, and
  // the route of the first is gone.
  lemma RepeatDeletesRoute(runId: string)
    ensures var m := NewProxy("p", "http", ["d"], []);
            var t := WithRoute(map[], Route("d", "/", "p", runId));
            var rs := Routes(m, runId, m.customDomains);
            && Stops(map[], rs, 1) && |rs| == 1 && Outcome(map[], m, rs, 1) == t
            && Stops(t, rs, 0) && Outcome(t, m, rs, 0) == map[] != t
  {
    var m := NewProxy("p", "http", ["d"], []);
    var r := Route("d", "/", "p", runId);
    assert ["/"][..0] == [] && ["d"][..0] == [];
    assert LocationRoutes(m, runId, "d", ["/"]) == [r];
    var rs := Routes(m, runId, ["d"]);
    assert rs == Routes(m, runId, ["d"][..0]) + LocationRoutes(m, runId, "d", ["/"]);
    assert rs == [r];
    assert rs[..0] == [] && rs[..1] == [] + [r];
    AppendFits(map[], [], r);
    AppendFits(WithRoute(map[], r), [], r);
  }
}
