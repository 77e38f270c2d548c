// What a session leaves in the router, with any number of Locations per message: exactly
// the routes of a rejected message that nothing rolled back and nobody removed since.
module RouteLeaks {
  import opened Wrappers
  import opened RouteTable
  import opened SessionRoutes
  import R = Registration

  // Session k's message is rejected at a conflict after some of its routes went in, no
  // rollback follows and the session does not hold the name by an earlier message.
  predicate LosesCover(w: World, a: Action, k: nat, name: string) {
    a.Step? && a.k == k && k < |w.sessions| &&
    var s := w.sessions[k];
    match s.pc
    case Adding(n, routes, next, locations) =>
      && n == name && name !in s.names
      && 0 < next < |routes| && SlotOf(Normal(routes[next])) in w.table && Removes(next, locations) == 0
    case _ => false
  }

  // The action is a Router.Remove of the name.
  predicate RemovesName(w: World, a: Action, name: string) {
    a.Step? && a.k < |w.sessions| &&
    match w.sessions[a.k].pc
    case Undoing(n, times) => n == name && times > 0
    case Closing(n) => n == name
    case Cleaning(todo) => todo != {} && a.pick == name
    case _ => false
  }

  // Action i left session k's route of that name at the slot without cover.
  ghost predicate LeakAt(acts: seq<Action>, i: nat, k: nat, slot: Slot, name: string) {
    i < |acts| && After(New(), acts[..i]).Some? &&
    var w := After(New(), acts[..i]).value;
    LosesCover(w, acts[i], k, name) && Has(w, k, slot, name)
  }

  // Session k added the route of that name at the slot.
  ghost predicate Has(w: World, k: nat, slot: Slot, name: string) {
    slot in w.table && slot in w.owner && w.owner[slot] == k && w.table[slot].proxyName == name
  }

  ghost predicate RemovedAt(acts: seq<Action>, j: nat, name: string) {
    j < |acts| && After(New(), acts[..j]).Some? && RemovesName(After(New(), acts[..j]).value, acts[j], name)
  }

  // It leaked, and no Remove of the name came since.
  ghost predicate LeftBehind(acts: seq<Action>, k: nat, slot: Slot, name: string) {
    exists i :: LeakAt(acts, i, k, slot, name) && NotRemovedSince(acts, i, name)
  }

  ghost predicate NotRemovedSince(acts: seq<Action>, i: nat, name: string) {
    forall j: nat | i < j < |acts| :: !RemovedAt(acts, j, name)
  }

  // ---- one action ----------------------------------------------------------------------

  ghost predicate Sane(w: World) {
    && w.owner.Keys == w.table.Keys
    && (forall slot | slot in w.owner :: w.owner[slot] < |w.sessions|)
    && (forall k | 0 <= k < |w.sessions| :: OwnName(w.sessions[k].pc))
  }

  // A message in progress adds routes of its own name.
  ghost predicate OwnName(pc: Pc) {
    pc.Adding? ==> forall r | r in pc.routes :: r.proxyName == pc.name
  }

  lemma SaneKept(w: World, a: Action)
    requires Sane(w) && Enabled(w, a)
    ensures Sane(Next(w, a))
  {
    if a.NewProxy? {
      R.RouteNames(a.m, a.runId, a.m.customDomains);
    }
    var v := Next(w, a);
    assert |w.sessions| <= |v.sessions| && v.owner.Keys == v.table.Keys;
    forall k | 0 <= k < |v.sessions| ensures OwnName(v.sessions[k].pc) {
      if !a.Start? && a.k == k {
        assert OwnName(w.sessions[k].pc);
      }
    }
  }

  // A route stays, with its owner, unless its name is removed.
  lemma StaysUnlessRemoved(w: World, a: Action, k: nat, slot: Slot, name: string)
    requires Sane(w) && Enabled(w, a) && Has(w, k, slot, name)
    ensures Has(Next(w, a), k, slot, name) <==> !RemovesName(w, a, name)
  {
  }

  // A route that is there was there, or its owner covers it.
  lemma ComesFrom(w: World, a: Action, k: nat, slot: Slot, name: string)
    requires Sane(w) && Enabled(w, a) && Has(Next(w, a), k, slot, name)
    ensures Has(w, k, slot, name) || Covers(Next(w, a).sessions[k], name)
  {
    if a.Step? && w.sessions[a.k].pc.Adding? {
      var pc := w.sessions[a.k].pc;
      if pc.next < |pc.routes| {
        assert pc.routes[pc.next] in pc.routes;
      }
    }
  }

  // Cover is lost by a leak, or where the name has just been removed.
  lemma CoverKept(w: World, a: Action, k: nat, name: string)
    requires Enabled(w, a) && k < |w.sessions| && Covers(w.sessions[k], name)
    ensures Covers(Next(w, a).sessions[k], name) || LosesCover(w, a, k, name) || RemovesName(w, a, name)
  {
  }

  // ---- every run -------------------------------------------------------------------------

  ghost predicate Explained(acts: seq<Action>, k: nat, slot: Slot, name: string)
    requires After(New(), acts).Some?
  {
    var w := After(New(), acts).value;
    && (Has(w, k, slot, name) && k < |w.sessions| ==> Covers(w.sessions[k], name) || LeftBehind(acts, k, slot, name))
    && (LeftBehind(acts, k, slot, name) ==> Has(w, k, slot, name))
  }

  lemma AtInPrefix(acts: seq<Action>, n: nat, i: nat, k: nat, slot: Slot, name: string)
    requires i < n <= |acts|
    ensures LeakAt(acts[..n], i, k, slot, name) <==> LeakAt(acts, i, k, slot, name)
    ensures RemovedAt(acts[..n], i, name) <==> RemovedAt(acts, i, name)
  {
    assert acts[..n][..i] == acts[..i];
  }

  lemma SinceInPrefix(acts: seq<Action>, i: nat, slot: Slot, name: string)
    requires i < |acts| - 1
    ensures NotRemovedSince(acts, i, name) <==>
              NotRemovedSince(acts[..|acts| - 1], i, name) && !RemovedAt(acts, |acts| - 1, name)
  {
    var n := |acts| - 1;
    forall j: nat | i < j < n ensures RemovedAt(acts[..n], j, name) <==> RemovedAt(acts, j, name) {
      AtInPrefix(acts, n, j, 0, slot, name);
    }
  }

  // The last action leaked it, or it was left behind before and is not removed now.
  lemma LeftBehindNext(acts: seq<Action>, k: nat, slot: Slot, name: string)
    requires acts != []
    ensures var n := |acts| - 1;
            LeftBehind(acts, k, slot, name) <==>
            || LeakAt(acts, n, k, slot, name)
            || (LeftBehind(acts[..n], k, slot, name) && !RemovedAt(acts, n, name))
  {
    var n := |acts| - 1;
    forall i: nat | i < n
      ensures LeakAt(acts, i, k, slot, name) && NotRemovedSince(acts, i, name) <==>
              LeakAt(acts[..n], i, k, slot, name) && NotRemovedSince(acts[..n], i, name) && !RemovedAt(acts, n, name)
    {
      AtInPrefix(acts, n, i, k, slot, name);
      SinceInPrefix(acts, i, slot, name);
    }
    assert NotRemovedSince(acts, n, name);
  }

  lemma ExplainedNext(acts: seq<Action>, k: nat, slot: Slot, name: string)
    requires acts != [] && After(New(), acts).Some?
    requires Sane(After(New(), acts[..|acts| - 1]).value) && Explained(acts[..|acts| - 1], k, slot, name)
    ensures Explained(acts, k, slot, name)
  {
    var n := |acts| - 1;
    var w, a := After(New(), acts[..n]).value, acts[n];
    LeftBehindNext(acts, k, slot, name);
    if Has(w, k, slot, name) {
      StaysUnlessRemoved(w, a, k, slot, name);
      if Covers(w.sessions[k], name) {
        CoverKept(w, a, k, name);
      }
    } else if Has(Next(w, a), k, slot, name) {
      ComesFrom(w, a, k, slot, name);
    }
  }

  lemma {:induction false} Reachable(acts: seq<Action>, k: nat, slot: Slot, name: string)
    requires After(New(), acts).Some?
    ensures Sane(After(New(), acts).value) && Explained(acts, k, slot, name)
  {
    if acts != [] {
      Reachable(acts[..|acts| - 1], k, slot, name);
      SaneKept(After(New(), acts[..|acts| - 1]).value, acts[|acts| - 1]);
      ExplainedNext(acts, k, slot, name);
    }
  }

  // After its cleanup a session still has a route if and only if a rejected message of its
  // left it behind and no session removed the name since. An idle session has a route
  // whose name is not in registeredProxies exactly then.
  lemma LeftAfterCleanupIff(acts: seq<Action>, k: nat, slot: Slot, name: string)
    requires After(New(), acts).Some? && k < |After(New(), acts).value.sessions|
    ensures var w := After(New(), acts).value;
            && (w.sessions[k].pc.Gone? ==> (Has(w, k, slot, name) <==> LeftBehind(acts, k, slot, name)))
            && (w.sessions[k].pc.Idle? && name !in w.sessions[k].names ==>
                  (Has(w, k, slot, name) <==> LeftBehind(acts, k, slot, name)))
  {
    Reachable(acts, k, slot, name);
  }
}
