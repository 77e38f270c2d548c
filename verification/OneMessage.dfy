// One NewProxy message on its own: the steps a session takes for it, with no other session
// in between, end in the outcome that handleNewProxy has.
module OneMessage {
  import opened Wrappers
  import opened RouteTable
  import opened SessionRoutes
  import F = Framing
  import R = Registration

  // n steps of session k, as long as it has any to take.
  ghost function Alone(w: World, k: nat, n: nat): World
    requires k < |w.sessions|
    ensures |Alone(w, k, n).sessions| == |w.sessions|
    decreases n
  {
    if n == 0 || !Enabled(w, Step(k, "")) then w else Alone(Work(w, k, ""), k, n - 1)
  }

  // Session k is at pc, with these names, and the table is t.
  predicate At(w: World, k: nat, pc: Pc, names: set<string>, t: Table) {
    k < |w.sessions| && w.sessions[k] == Session(names, pc) && w.table == t
  }

  lemma Onward(w: World, k: nat, n: nat)
    requires k < |w.sessions| && Enabled(w, Step(k, ""))
    ensures Alone(w, k, n + 1) == Alone(Work(w, k, ""), k, n)
  {
  }

  lemma {:induction false} InTwo(w: World, k: nat, n: nat, more: nat)
    requires k < |w.sessions|
    ensures Alone(w, k, n + more) == Alone(Alone(w, k, n), k, more)
    decreases n
  {
    if n > 0 && Enabled(w, Step(k, "")) {
      Onward(w, k, n - 1);
      Onward(w, k, n - 1 + more);
      InTwo(Work(w, k, ""), k, n - 1, more);
    }
  }

  // The first i routes of the message are in.
  predicate Added(w: World, k: nat, name: string, rs: seq<Route>, i: nat, locations: nat,
                  names: set<string>, t: Table)
  {
    i <= |rs| && At(w, k, Adding(name, rs, i, locations), names, R.AddAll(t, rs[..i]))
  }

  predicate Fitting(t: Table, rs: seq<Route>, c: nat) {
    c <= |rs| && R.Fits(t, rs[..c])
  }

  lemma FitsFront(t: Table, rs: seq<Route>, c: nat, i: nat)
    requires i <= c <= |rs| && R.Fits(t, rs[..c])
    ensures R.Fits(t, rs[..i])
  {
    R.FitsDown(t, rs[..c], i);
    assert rs[..c][..i] == rs[..i];
  }

  // The next route finds its slot free and goes in.
  lemma AddsOne(w: World, k: nat, name: string, rs: seq<Route>, i: nat, c: nat, locations: nat,
                names: set<string>, t: Table)
    requires i < c && Fitting(t, rs, c) && Added(w, k, name, rs, i, locations, names, t)
    ensures Enabled(w, Step(k, "")) && Added(Work(w, k, ""), k, name, rs, i + 1, locations, names, t)
  {
    FitsFront(t, rs, c, i + 1);
    assert rs[..i + 1][..i] == rs[..i];
  }

  // Each of the first c routes does.
  lemma {:induction false} AddsUpTo(w: World, k: nat, name: string, rs: seq<Route>, i: nat, c: nat, locations: nat,
                                    names: set<string>, t: Table) returns (n: nat)
    requires i <= c && Fitting(t, rs, c) && Added(w, k, name, rs, i, locations, names, t)
    ensures Added(Alone(w, k, n), k, name, rs, c, locations, names, t)
    decreases c - i
  {
    n := 0;
    if i < c {
      AddsOne(w, k, name, rs, i, c, locations, names, t);
      var m := AddsUpTo(Work(w, k, ""), k, name, rs, i + 1, c, locations, names, t);
      n := m + 1;
      Onward(w, k, m);
    }
  }

  // The Removes of a rollback.
  lemma {:induction false} Undoes(w: World, k: nat, name: string, times: nat, names: set<string>, t: Table)
      returns (n: nat)
    requires At(w, k, Undoing(name, times), names, t)
    ensures At(Alone(w, k, n), k, Idle, names, if times == 0 then t else Without(t, name))
    decreases times
  {
    var m := 0;
    if times > 0 {
      R.WithoutTwice(t, name);
      m := Undoes(Work(w, k, ""), k, name, times - 1, names, Without(t, name));
    }
    n := m + 1;
    Onward(w, k, m);
  }

  // What happens after the first c routes: the message is done, or rolled back.
  lemma Ends(w: World, k: nat, m: F.Message, rs: seq<Route>, c: nat, names: set<string>, t: Table) returns (n: nat)
    requires m.NewProxy? && R.Stops(t, rs, c)
    requires At(w, k, Adding(m.proxyName, rs, c, |m.locations|), names, R.AddAll(t, rs[..c]))
    ensures At(Alone(w, k, n), k, Idle, if c == |rs| then names + {m.proxyName} else names, R.Outcome(t, m, rs, c))
  {
    if c == |rs| {
      n := 1;
      Onward(w, k, 0);
    } else {
      assert rs[..c + 1][..c] == rs[..c];
      var times := Removes(c, |m.locations|);
      NoRemovesIff(c, |m.locations|);
      var l := Undoes(Work(w, k, ""), k, m.proxyName, times, names, R.AddAll(t, rs[..c]));
      n := l + 1;
      Onward(w, k, l);
    }
  }

  lemma NoRemovesIff(c: nat, locations: nat)
    ensures Removes(c, locations) == 0 <==> locations > 0 && c < locations
  {
  }

  // Undisturbed, the message ends with the table that Registration says, with its name
  // recorded exactly if it was accepted.
  lemma MessageEnds(w: World, k: nat, m: F.Message, runId: string, c: nat) returns (n: nat)
    requires k < |w.sessions| && w.sessions[k].pc.Idle? && m.NewProxy? && m.proxyType == "http"
    requires R.Stops(w.table, R.Routes(m, runId, m.customDomains), c)
    ensures Enabled(w, NewProxy(k, m, runId))
    ensures var rs := R.Routes(m, runId, m.customDomains);
            var names := w.sessions[k].names;
            At(Alone(Next(w, NewProxy(k, m, runId)), k, n), k, Idle,
               if c == |rs| then names + {m.proxyName} else names, R.Outcome(w.table, m, rs, c))
  {
    var rs, names := R.Routes(m, runId, m.customDomains), w.sessions[k].names;
    var v := Next(w, NewProxy(k, m, runId));
    assert rs[..0] == [];
    var a := AddsUpTo(v, k, m.proxyName, rs, 0, c, |m.locations|, names, w.table);
    var b := Ends(Alone(v, k, a), k, m, rs, c, names, w.table);
    n := a + b;
    InTwo(v, k, a, b);
  }

  // A CloseProxy removes the name's routes and forgets the name.
  lemma CloseEnds(w: World, k: nat, name: string)
    requires k < |w.sessions| && w.sessions[k].pc.Idle?
    ensures Enabled(w, CloseProxy(k, name))
    ensures At(Alone(Next(w, CloseProxy(k, name)), k, 2), k, Idle, w.sessions[k].names - {name}, Without(w.table, name))
  {
    var v := Next(w, CloseProxy(k, name));
    Onward(v, k, 1);
    Onward(Work(v, k, ""), k, 0);
  }
}
