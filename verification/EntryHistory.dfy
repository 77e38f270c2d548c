// Why a live session is not the one its run id finds: exactly because another session's
// Remove took its entry away.
module EntryHistory {
  import opened Wrappers
  import opened Sums
  import opened ControlPlane
  import opened D = SessionDisplacement

  // GetEntry finds session k under its run id.
  predicate Owns(g: Shared, k: nat) {
    k < |g.sessions| && g.sessions[k].run in g.entries && g.entries[g.sessions[k].run] == k
  }

  predicate Alive(g: Shared, k: nat) {
    k < |g.sessions| && g.sessions[k].registered && !g.sessions[k].cancelled
  }

  predicate Registered(g: Shared, k: nat) {
    k < |g.sessions| && g.sessions[k].registered
  }

  // The action is another session's Remove, and the entry it takes away is session k's.
  predicate Evicts(s: System, a: Action, k: nat) {
    && a.Run? && a.i < |s.threads| && s.threads[a.i].Removing?
    && var j := s.threads[a.i].k;
       j != k && j < |s.g.sessions| && Owns(s.g, k) && s.g.sessions[j].run == s.g.sessions[k].run
  }

  ghost predicate EvictedAt(acts: seq<Action>, i: nat, k: nat) {
    i < |acts| && After(New(), acts[..i]).Some? && Evicts(After(New(), acts[..i]).value, acts[i], k)
  }

  ghost predicate Evicted(acts: seq<Action>, k: nat) {
    exists i :: EvictedAt(acts, i, k)
  }

  // ---- one action ----------------------------------------------------------------------

  // What an action may do to the standing of session k.
  ghost predicate Explains(s: System, a: Action, t: System, k: nat) {
    && (Evicts(s, a, k) ==> Registered(t.g, k) && !Owns(t.g, k))
    && (Registered(s.g, k) && !Owns(s.g, k) ==> Registered(t.g, k) && !Owns(t.g, k))
    && (Alive(t.g, k) ==> Owns(t.g, k) || Evicts(s, a, k) || (Alive(s.g, k) && !Owns(s.g, k)))
  }

  lemma RegisterExplains(s: System, i: nat, k: nat)
    requires Inv(s) && Enabled(s, Run(i, Plain)) && s.threads[i].Registering?
    ensures Explains(s, Run(i, Plain), Next(s, Run(i, Plain)), k)
  {
    var j := s.threads[i].k;
    assert s.threads[i] in s.threads;
    TotalAtLeast(Prelude(j), s.threads, i);
    assert SessionOk(s, j);
    assert EntryOk(s, s.g.sessions[j].run);
  }

  lemma CancelExplains(s: System, i: nat, k: nat)
    requires Enabled(s, Run(i, Plain)) && s.threads[i].Cancelling?
    ensures Explains(s, Run(i, Plain), Next(s, Run(i, Plain)), k)
  {
  }

  lemma RemoveExplains(s: System, i: nat, k: nat)
    requires Inv(s) && Enabled(s, Run(i, Plain)) && s.threads[i].Removing?
    ensures Explains(s, Run(i, Plain), Next(s, Run(i, Plain)), k)
  {
    assert s.threads[i] in s.threads && PcOk(s.g, s.threads[i]);
    if k < |s.g.sessions| {
      assert EntryOk(s, s.g.sessions[k].run);
    }
  }

  lemma OthersExplain(s: System, i: nat, c: Choice, k: nat)
    requires Enabled(s, Run(i, c)) && !Touches(s.threads[i])
    ensures Explains(s, Run(i, c), Next(s, Run(i, c)), k)
  {
    OthersKeepRegistry(s.g, s.threads[i], c);
    var h := Next(s, Run(i, c)).g;
    if k < |s.g.sessions| {
      assert h.sessions[k].(queued := 0, taken := 0) == s.g.sessions[k].(queued := 0, taken := 0);
    }
  }

  lemma StepExplains(s: System, a: Action, k: nat)
    requires Inv(s) && Enabled(s, a)
    ensures Explains(s, a, Next(s, a), k)
  {
    match a
    case Login(r, n) =>
      if k < |s.g.sessions| {
        assert EntryOk(s, s.g.sessions[k].run);
      }
    case Call(r) =>
    case Run(i, c) =>
      match s.threads[i]
      case Registering(_) => RegisterExplains(s, i, k);
      case Cancelling(_) => CancelExplains(s, i, k);
      case Removing(_) => RemoveExplains(s, i, k);
      case _ => OthersExplain(s, i, c, k);
  }

  // ---- every run -------------------------------------------------------------------------

  ghost predicate Standing(acts: seq<Action>, k: nat)
    requires After(New(), acts).Some?
  {
    var g := After(New(), acts).value.g;
    && (Evicted(acts, k) ==> Registered(g, k) && !Owns(g, k))
    && (Alive(g, k) ==> Owns(g, k) || Evicted(acts, k))
  }

  lemma EvictedNext(acts: seq<Action>, k: nat)
    requires acts != []
    ensures Evicted(acts, k) <==> Evicted(acts[..|acts| - 1], k) || EvictedAt(acts, |acts| - 1, k)
  {
    var n := |acts| - 1;
    forall i: nat | i < n ensures EvictedAt(acts[..n], i, k) <==> EvictedAt(acts, i, k) {
      assert acts[..n][..i] == acts[..i];
    }
  }

  lemma {:induction false} Reachable(acts: seq<Action>, k: nat)
    requires After(New(), acts).Some?
    ensures Standing(acts, k)
  {
    if acts != [] {
      var front, a := acts[..|acts| - 1], acts[|acts| - 1];
      var s := After(New(), front).value;
      Reachable(front, k);
      D.Reachable(front);
      StepExplains(s, a, k);
      EvictedNext(acts, k);
    }
  }

  // A live session is the one its run id finds if and only if no other session's Remove
  // has taken its entry since it registered.
  lemma FoundIffNotEvicted(acts: seq<Action>, k: nat)
    requires After(New(), acts).Some? && Alive(After(New(), acts).value.g, k)
    ensures Owns(After(New(), acts).value.g, k) <==> !Evicted(acts, k)
  {
    Reachable(acts, k);
  }
}
