// The routes of many sessions in one router, while each session works through its
// NewProxy and CloseProxy messages and in the end cleans up (controlLoop,
// handleNewProxy and cleanupControlSession). Every Router.Add and Router.Remove is one
// step, so the messages of different sessions interleave between them.
module SessionRoutes {
  import opened Wrappers
  import opened RouteTable
  import F = Framing
  import R = Registration

  datatype Pc =
    | Idle
    | Adding(name: string, routes: seq<Route>, next: nat, locations: nat)
    | Undoing(name: string, times: nat)
    | Closing(name: string)
    | Forgetting(name: string)
    | Cleaning(todo: set<string>)
    | Gone

  // A session's registeredProxies and what it is doing.
  datatype Session = Session(names: set<string>, pc: Pc)

  // `owner` observes which session added each route.
  datatype World = World(table: Table, owner: map<Slot, nat>, sessions: seq<Session>)

  datatype Action =
    | Start
    | NewProxy(k: nat, m: F.Message, runId: string)
    | CloseProxy(k: nat, name: string)
    | End(k: nat)
    | Step(k: nat, pick: string)

  function New(): World {
    World(map[], map[], [])
  }

  predicate Enabled(w: World, a: Action) {
    a.Start? ||
    (a.k < |w.sessions| &&
     var pc := w.sessions[a.k].pc;
     match a
     case NewProxy(_, m, _) => pc.Idle? && m.NewProxy?
     case CloseProxy(_, _) => pc.Idle?
     case End(_) => pc.Idle?
     case _ => !pc.Idle? && !pc.Gone? && (pc.Cleaning? && pc.todo != {} ==> a.pick in pc.todo))
  }

  function Goto(w: World, k: nat, pc: Pc): World
    requires k < |w.sessions|
  {
    w.(sessions := w.sessions[k := w.sessions[k].(pc := pc)])
  }

  // Router.Remove.
  function Drop(w: World, name: string): World {
    var t := Without(w.table, name);
    w.(table := t, owner := map slot | slot in w.owner && slot in t :: w.owner[slot])
  }

  // Router.Add of r by session k, the slot being free.
  function Put(w: World, k: nat, r: Route): World {
    w.(table := WithRoute(w.table, r), owner := w.owner[SlotOf(Normal(r)) := k])
  }

  // How many Removes a conflict at route `next` triggers: one without Locations, else
  // one for each whole domain already done.
  function Removes(next: nat, locations: nat): nat {
    if locations == 0 then 1 else next / locations
  }

  function Work(w: World, k: nat, pick: string): World
    requires k < |w.sessions| && Enabled(w, Step(k, pick))
  {
    var s := w.sessions[k];
    match s.pc
    case Adding(name, routes, next, locations) =>
      if next >= |routes| then w.(sessions := w.sessions[k := Session(s.names + {name}, Idle)])
      else if SlotOf(Normal(routes[next])) in w.table then Goto(w, k, Undoing(name, Removes(next, locations)))
      else Goto(Put(w, k, routes[next]), k, Adding(name, routes, next + 1, locations))
    case Undoing(name, times) =>
      if times == 0 then Goto(w, k, Idle) else Goto(Drop(w, name), k, Undoing(name, times - 1))
    case Closing(name) => Goto(Drop(w, name), k, Forgetting(name))
    case Forgetting(name) => w.(sessions := w.sessions[k := Session(s.names - {name}, Idle)])
    case Cleaning(todo) =>
      if todo == {} then Goto(w, k, Gone) else Goto(Drop(w, pick), k, Cleaning(todo - {pick}))
  }

  function Next(w: World, a: Action): World
    requires Enabled(w, a)
  {
    match a
    case Start => w.(sessions := w.sessions + [Session({}, Idle)])
    case NewProxy(k, m, runId) =>
      if m.proxyType != "http" then w
      else Goto(w, k, Adding(m.proxyName, R.Routes(m, runId, m.customDomains), 0, |m.locations|))
    case CloseProxy(k, name) => Goto(w, k, Closing(name))
    case End(k) => Goto(w, k, Cleaning(w.sessions[k].names))
    case Step(k, pick) => Work(w, k, pick)
  }

  function After(w: World, acts: seq<Action>): Option<World> {
    if acts == [] then Some(w)
    else
      match After(w, acts[..|acts| - 1])
      case None => None
      case Some(v) =>
        var a := acts[|acts| - 1];
        if Enabled(v, a) then Some(Next(v, a)) else None
  }

  // ---- cleanup is complete ------------------------------------------------------------------

  // The session will still remove its routes of this name.
  predicate Covers(s: Session, name: string) {
    match s.pc
    case Idle => name in s.names
    case Adding(n, _, next, _) => name in s.names || (name == n && next > 0)
    case Undoing(n, times) => name in s.names || (name == n && times > 0)
    case Closing(_) => name in s.names
    case Forgetting(n) => name in s.names && name != n
    case Cleaning(todo) => name in todo
    case Gone => false
  }

  // A message in progress has at most one Location and adds routes of its own name.
  ghost predicate MessageOk(pc: Pc) {
    pc.Adding? ==> pc.locations <= 1 && forall r | r in pc.routes :: r.proxyName == pc.name
  }

  ghost predicate Inv(w: World) {
    && w.owner.Keys == w.table.Keys
    && (forall slot | slot in w.table ::
          w.owner[slot] < |w.sessions| && Covers(w.sessions[w.owner[slot]], w.table[slot].proxyName))
    && (forall s | s in w.sessions :: MessageOk(s.pc))
  }

  // Session k moved on; the routes in the table may have thinned, not changed.
  lemma ThinnedKeeps(w: World, v: World, k: nat)
    requires Inv(w) && k < |w.sessions|
    requires |v.sessions| == |w.sessions| && v.sessions == w.sessions[k := v.sessions[k]]
    requires v.owner.Keys == v.table.Keys && MessageOk(v.sessions[k].pc)
    requires forall slot | slot in v.table ::
               slot in w.table && v.table[slot] == w.table[slot] && v.owner[slot] == w.owner[slot]
    requires forall slot | slot in v.table && v.owner[slot] == k :: Covers(v.sessions[k], v.table[slot].proxyName)
    ensures Inv(v)
  {
    forall s | s in v.sessions ensures MessageOk(s.pc) {
      var j :| 0 <= j < |v.sessions| && v.sessions[j] == s;
      assert j == k || w.sessions[j] in w.sessions;
    }
  }

  lemma PutKeeps(w: World, k: nat)
    requires Inv(w) && k < |w.sessions| && w.sessions[k].pc.Adding?
    requires w.sessions[k].pc.next < |w.sessions[k].pc.routes|
    requires SlotOf(Normal(w.sessions[k].pc.routes[w.sessions[k].pc.next])) !in w.table
    ensures Inv(Work(w, k, ""))
  {
    var pc := w.sessions[k].pc;
    assert w.sessions[k] in w.sessions && pc.routes[pc.next] in pc.routes;
    var v := Work(w, k, "");
    var moved := Goto(w, k, v.sessions[k].pc);
    ThinnedKeeps(w, moved, k);
    assert v == Put(moved, k, pc.routes[pc.next]);
  }

  lemma AddingKeeps(w: World, k: nat)
    requires Inv(w) && k < |w.sessions| && w.sessions[k].pc.Adding?
    ensures Inv(Work(w, k, ""))
  {
    var s := w.sessions[k];
    assert s in w.sessions;
    if s.pc.next < |s.pc.routes| && SlotOf(Normal(s.pc.routes[s.pc.next])) !in w.table {
      PutKeeps(w, k);
    } else {
      ThinnedKeeps(w, Work(w, k, ""), k);
    }
  }

  lemma WorkKeeps(w: World, k: nat, pick: string)
    requires Inv(w) && k < |w.sessions| && Enabled(w, Step(k, pick))
    ensures Inv(Work(w, k, pick))
  {
    if w.sessions[k].pc.Adding? {
      AddingKeeps(w, k);
    } else {
      ThinnedKeeps(w, Work(w, k, pick), k);
    }
  }

  predicate OneLocation(a: Action) {
    a.NewProxy? && a.m.NewProxy? ==> |a.m.locations| <= 1
  }

  lemma StepKeeps(w: World, a: Action)
    requires Inv(w) && Enabled(w, a) && OneLocation(a)
    ensures Inv(Next(w, a))
  {
    match a
    case Start =>
    case Step(k, pick) => WorkKeeps(w, k, pick);
    case NewProxy(k, m, runId) =>
      R.RouteNames(m, runId, m.customDomains);
      if m.proxyType == "http" {
        ThinnedKeeps(w, Next(w, a), k);
      }
    case _ => ThinnedKeeps(w, Next(w, a), a.k);
  }

  lemma {:induction false} Reachable(acts: seq<Action>)
    requires After(New(), acts).Some? && forall a | a in acts :: OneLocation(a)
    ensures Inv(After(New(), acts).value)
  {
    if acts != [] {
      var last := |acts| - 1;
      assert acts[last] in acts && forall a | a in acts[..last] :: a in acts;
      Reachable(acts[..last]);
      StepKeeps(After(New(), acts[..last]).value, acts[last]);
    }
  }

  // Whatever the other sessions do meanwhile: if every NewProxy has at most one
  // Location, a session that has cleaned up has no route left, and every route of an
  // idle session has its name in registeredProxies.
  lemma CleanupComplete(acts: seq<Action>, k: nat)
    requires After(New(), acts).Some? && forall a | a in acts :: OneLocation(a)
    requires k < |After(New(), acts).value.sessions|
    ensures var w := After(New(), acts).value;
            && (w.sessions[k].pc.Gone? ==> forall slot | slot in w.table :: slot in w.owner && w.owner[slot] != k)
            && (w.sessions[k].pc.Idle? ==> forall slot | slot in w.table && slot in w.owner && w.owner[slot] == k ::
                                             w.table[slot].proxyName in w.sessions[k].names)
  {
    Reachable(acts);
  }

  // ---- names that are not shared --------------------------------------------------------------

  // The proxy names a session may still remove or add by.
  function NamesOf(s: Session): set<string> {
    s.names +
    match s.pc
    case Adding(n, _, _, _) => {n}
    case Undoing(n, _) => {n}
    case Closing(n) => {n}
    case Forgetting(n) => {n}
    case Cleaning(todo) => todo
    case _ => {}
  }

  ghost predicate TableIsOf(w: World, of: string -> nat) {
    && w.owner.Keys == w.table.Keys
    && (forall slot | slot in w.table :: of(w.table[slot].proxyName) == w.owner[slot])
  }

  ghost predicate SessionIsOf(s: Session, k: nat, of: string -> nat) {
    && (forall name | name in NamesOf(s) :: of(name) == k)
    && (s.pc.Adding? ==> forall r | r in s.pc.routes :: r.proxyName == s.pc.name)
  }

  // Each name belongs to one session.
  ghost predicate Private(w: World, of: string -> nat) {
    TableIsOf(w, of) && forall k | 0 <= k < |w.sessions| :: SessionIsOf(w.sessions[k], k, of)
  }

  predicate Respects(a: Action, of: string -> nat) {
    match a
    case NewProxy(k, m, _) => m.NewProxy? ==> of(m.proxyName) == k
    case CloseProxy(k, name) => of(name) == k
    case _ => true
  }

  // The session acting, if any.
  predicate By(a: Action, k: nat) {
    !a.Start? && a.k == k
  }

  // No session's step then touches another session's routes.
  lemma OthersUntouched(w: World, a: Action, of: string -> nat, slot: Slot)
    requires Private(w, of) && Enabled(w, a) && Respects(a, of)
    requires slot in w.table && !By(a, w.owner[slot])
    ensures var v := Next(w, a);
            slot in v.table && v.table[slot] == w.table[slot] && slot in v.owner && v.owner[slot] == w.owner[slot]
  {
    if a.Step? {
      var s := w.sessions[a.k];
      assert SessionIsOf(s, a.k, of);
      assert s.pc.Adding? || s.pc.Undoing? || s.pc.Closing? || s.pc.Forgetting? ==> s.pc.name in NamesOf(s);
    }
  }

  lemma TableStaysOf(w: World, a: Action, of: string -> nat)
    requires Private(w, of) && Enabled(w, a)
    ensures TableIsOf(Next(w, a), of)
  {
    if a.Step? {
      var s := w.sessions[a.k];
      assert SessionIsOf(s, a.k, of);
      if s.pc.Adding? && s.pc.next < |s.pc.routes| {
        assert s.pc.routes[s.pc.next] in s.pc.routes && s.pc.name in NamesOf(s);
      }
    }
  }

  lemma SessionStaysOf(w: World, a: Action, of: string -> nat)
    requires Private(w, of) && Enabled(w, a) && Respects(a, of) && !a.Start?
    ensures SessionIsOf(Next(w, a).sessions[a.k], a.k, of)
  {
    var s := w.sessions[a.k];
    assert SessionIsOf(s, a.k, of);
    if a.NewProxy? {
      R.RouteNames(a.m, a.runId, a.m.customDomains);
    } else if a.Step? {
      assert NamesOf(Next(w, a).sessions[a.k]) <= NamesOf(s);
    }
  }

  lemma PrivateKept(w: World, a: Action, of: string -> nat)
    requires Private(w, of) && Enabled(w, a) && Respects(a, of)
    ensures Private(Next(w, a), of)
  {
    TableStaysOf(w, a, of);
    var v := Next(w, a);
    forall k | 0 <= k < |v.sessions| ensures SessionIsOf(v.sessions[k], k, of) {
      if By(a, k) {
        SessionStaysOf(w, a, of);
      } else {
        assert k < |w.sessions| ==> SessionIsOf(w.sessions[k], k, of) && v.sessions[k] == w.sessions[k];
      }
    }
  }

  lemma {:induction false} StaysPrivate(acts: seq<Action>, of: string -> nat)
    requires After(New(), acts).Some? && forall a | a in acts :: Respects(a, of)
    ensures Private(After(New(), acts).value, of)
  {
    if acts != [] {
      var last := |acts| - 1;
      assert acts[last] in acts && forall a | a in acts[..last] :: a in acts;
      StaysPrivate(acts[..last], of);
      PrivateKept(After(New(), acts[..last]).value, acts[last], of);
    }
  }

  // Over a whole run: with private names a route leaves the table, or changes, only by
  // an action of the session that added it.
  lemma RoutesOnlyLeaveByOwner(acts: seq<Action>, a: Action, of: string -> nat, slot: Slot)
    requires After(New(), acts).Some? && forall x | x in acts + [a] :: Respects(x, of)
    requires var w := After(New(), acts).value;
             Enabled(w, a) && slot in w.table
    ensures var w := After(New(), acts).value;
            && slot in w.owner
            && (!By(a, w.owner[slot]) ==> slot in Next(w, a).table && Next(w, a).table[slot] == w.table[slot])
  {
    assert a in acts + [a] && forall x | x in acts :: x in acts + [a];
    StaysPrivate(acts, of);
    var w := After(New(), acts).value;
    if !By(a, w.owner[slot]) {
      OthersUntouched(w, a, of, slot);
    }
  }

  // ---- a second Location can leak ----------------------------------------------------------------

  lemma Extend(acts: seq<Action>, w: World, a: Action) returns (longer: seq<Action>, v: World)
    requires After(New(), acts) == Some(w) && Enabled(w, a)
    ensures longer == acts + [a] && v == Next(w, a) && After(New(), longer) == Some(v)
  {
    longer, v := acts + [a], Next(w, a);
    assert longer[..|longer| - 1] == acts;
  }

  // The two messages of the leak: one takes d/b, the other asks for d/a and d/b.
  function Taker(): F.Message { F.NewProxy("other", "http", ["d"], ["/b"]) }

  function Leaker(): F.Message { F.NewProxy("p", "http", ["d"], ["/a", "/b"]) }

  function At(location: string, name: string): Route { Route("d", location, name, "r") }

  lemma TakerRoutes()
    ensures R.Routes(Taker(), "r", ["d"]) == [At("/b", "other")]
  {
    assert ["/b"][..0] == [] && ["d"][..0] == [];
    assert R.LocationRoutes(Taker(), "r", "d", ["/b"]) == [At("/b", "other")];
    assert R.Routes(Taker(), "r", ["d"])
        == R.Routes(Taker(), "r", ["d"][..0]) + R.LocationRoutes(Taker(), "r", "d", ["/b"]);
  }

  lemma LeakerRoutes()
    ensures R.Routes(Leaker(), "r", ["d"]) == [At("/a", "p"), At("/b", "p")]
  {
    assert ["/a", "/b"][..1] == ["/a"] && ["/a"][..0] == [] && ["d"][..0] == [];
    assert R.LocationRoutes(Leaker(), "r", "d", ["/a"]) == [At("/a", "p")];
    assert R.LocationRoutes(Leaker(), "r", "d", ["/a", "/b"]) == [At("/a", "p"), At("/b", "p")];
    assert R.Routes(Leaker(), "r", ["d"])
        == R.Routes(Leaker(), "r", ["d"][..0]) + R.LocationRoutes(Leaker(), "r", "d", ["/a", "/b"]);
  }

  lemma Taken() returns (acts: seq<Action>, w: World)
    ensures After(New(), acts) == Some(w)
    ensures w.sessions == [Session({}, Idle), Session({}, Adding("other", [At("/b", "other")], 1, 1))]
    ensures w.table == map[SlotOf(At("/b", "other")) := At("/b", "other")]
    ensures w.owner == map[SlotOf(At("/b", "other")) := 1]
  {
    TakerRoutes();
    acts, w := Extend([], New(), Start);
    acts, w := Extend(acts, w, Start);
    assert w.sessions == [Session({}, Idle), Session({}, Idle)];
    acts, w := Extend(acts, w, NewProxy(1, Taker(), "r"));
    acts, w := Extend(acts, w, Step(1, ""));
  }

  lemma HalfAdded() returns (acts: seq<Action>, w: World)
    ensures After(New(), acts) == Some(w)
    ensures |w.sessions| == 2 && w.sessions[0] == Session({}, Adding("p", [At("/a", "p"), At("/b", "p")], 1, 2))
    ensures SlotOf(At("/a", "p")) in w.owner && w.owner[SlotOf(At("/a", "p"))] == 0
    ensures SlotOf(At("/a", "p")) in w.table && SlotOf(At("/b", "p")) in w.table
  {
    LeakerRoutes();
    acts, w := Taken();
    acts, w := Extend(acts, w, NewProxy(0, Leaker(), "r"));
    acts, w := Extend(acts, w, Step(0, ""));
  }

  // A session whose two-Location message conflicted on the second one has cleaned up,
  // and still owns the first one's route.
  lemma SecondLocationLeaks() returns (acts: seq<Action>, w: World)
    ensures After(New(), acts) == Some(w)
    ensures |w.sessions| == 2 && w.sessions[0].pc.Gone?
    ensures SlotOf(At("/a", "p")) in w.table && SlotOf(At("/a", "p")) in w.owner && w.owner[SlotOf(At("/a", "p"))] == 0
  {
    acts, w := HalfAdded();
    acts, w := Extend(acts, w, Step(0, ""));
    assert w.sessions[0] == Session({}, Undoing("p", 0));
    acts, w := Extend(acts, w, Step(0, ""));
    assert w.sessions[0] == Session({}, Idle);
    acts, w := Extend(acts, w, End(0));
    acts, w := Extend(acts, w, Step(0, ""));
  }
}
