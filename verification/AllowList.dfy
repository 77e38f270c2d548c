// The allow-list of test/compat/compare/compare.go: each difference may use up one
// declared divergence, and what was declared but not seen is reported.
module AllowList {
  datatype Diff = Diff(kind: string, name: string, drps: string, frps: string)

  datatype Divergence = Divergence(kind: string, name: string, drps: string, frps: string, reason: string)

  function Lower(c: char): char {
    if 'A' <= c <= 'Z' then (c as int + 32) as char else c
  }

  // strings.EqualFold on ASCII.
  predicate EqualFold(a: string, b: string) {
    |a| == |b| && forall i | 0 <= i < |a| :: Lower(a[i]) == Lower(b[i])
  }

  predicate DivergenceMatches(a: Divergence, d: Diff) {
    if a.kind == "status_code" then d.kind == "status" && d.drps == a.drps && d.frps == a.frps
    else if a.kind == "body" then d.kind == "body"
    else if a.kind == "content_type" || a.kind == "http_header" then
      d.kind == "content_type" && (a.name == "" || EqualFold(a.name, d.name)) && d.drps == a.drps && d.frps == a.frps
    else false
  }

  // Case folding on ASCII.
  function Folded(s: string): string {
    seq(|s|, i requires 0 <= i < |s| => Lower(s[i]))
  }

  lemma LowerFolds(c: char)
    ensures 'A' <= c <= 'Z' ==> 'a' <= Lower(c) <= 'z' && Lower(c) as int - 'a' as int == c as int - 'A' as int
    ensures !('A' <= c <= 'Z') ==> Lower(c) == c
  {
  }

  // Which kinds of entry excuse which kinds of difference.
  const EXCUSES := {("status_code", "status"), ("body", "body"),
                    ("content_type", "content_type"), ("http_header", "content_type")}

  // An entry matches a difference of the kind it excuses; except for bodies the two values
  // must be the declared ones, and for headers the name, if one is declared, up to case.
  lemma MatchesIff(a: Divergence, d: Diff)
    ensures DivergenceMatches(a, d) <==>
              && (a.kind, d.kind) in EXCUSES
              && (d.kind != "body" ==> a.drps == d.drps && a.frps == d.frps)
              && (d.kind == "content_type" ==> a.name == "" || Folded(a.name) == Folded(d.name))
  {
    FoldIff(a.name, d.name);
  }

  lemma FoldIff(a: string, b: string)
    ensures EqualFold(a, b) <==> Folded(a) == Folded(b)
  {
    if Folded(a) == Folded(b) {
      assert |Folded(a)| == |a| && |Folded(b)| == |b|;
      forall i | 0 <= i < |a| ensures Lower(a[i]) == Lower(b[i]) {
        assert Folded(a)[i] == Folded(b)[i];
      }
    }
  }

  // ---- which entry each difference uses -------------------------------------------------

  predicate InRange<T>(picks: seq<int>, allow: seq<T>) {
    forall j | 0 <= j < |picks| :: picks[j] < |allow|
  }

  // picks[j] is the entry the j-th difference uses, negative for none. Every difference
  // takes the first entry that matches it and is not yet used.
  ghost predicate FirstFit(diffs: seq<Diff>, allow: seq<Divergence>, picks: seq<int>) {
    |picks| == |diffs| && InRange(picks, allow)
    && forall j | 0 <= j < |diffs| :: FitsAt(diffs[j], allow, picks, j)
  }

  ghost predicate FitsAt(d: Diff, allow: seq<Divergence>, picks: seq<int>, j: int)
    requires 0 <= j < |picks|
  {
    var before := picks[..j];
    if picks[j] < 0 then forall i | 0 <= i < |allow| && DivergenceMatches(allow[i], d) :: i in before
    else
      && picks[j] < |allow| && DivergenceMatches(allow[picks[j]], d) && picks[j] !in before
      && forall i | 0 <= i < picks[j] && DivergenceMatches(allow[i], d) :: i in before
  }

  function Remaining(diffs: seq<Diff>, picks: seq<int>): seq<Diff>
    requires |picks| == |diffs|
  {
    if diffs == [] then []
    else
      var n := |diffs| - 1;
      var rest := Remaining(diffs[..n], picks[..n]);
      if picks[n] < 0 then rest + [diffs[n]] else rest
  }

  function Used<T>(allow: seq<T>, picks: seq<int>): seq<T>
    requires InRange(picks, allow)
  {
    if picks == [] then []
    else
      var n := |picks| - 1;
      var rest := Used(allow, picks[..n]);
      if picks[n] < 0 then rest else rest + [allow[picks[n]]]
  }

  function Missing<T>(allow: seq<T>, picks: seq<int>, n: nat): seq<T>
    requires n <= |allow|
  {
    if n == 0 then []
    else
      var rest := Missing(allow, picks, n - 1);
      if n - 1 in picks then rest else rest + [allow[n - 1]]
  }

  // used[i] says whether entry i has been picked.
  predicate Marks(used: seq<bool>, picks: seq<int>) {
    forall i | 0 <= i < |used| :: used[i] <==> i in picks
  }

  // ---- the report ---------------------------------------------------------------------------

  class Report {
    var diffs: seq<Diff>
    var matched: seq<Divergence>
    var missing: seq<Divergence>

    constructor (diffs: seq<Diff>)
      ensures this.diffs == diffs && matched == [] && missing == []
    {
      this.diffs, matched, missing := diffs, [], [];
    }

    predicate Pass()
      reads this
    {
      |diffs| == 0 && |missing| == 0
    }

    // The inner loop: the first unused entry that matches.
    static method Claim(d: Diff, allow: seq<Divergence>, used: array<bool>, ghost picks: seq<int>) returns (pick: int)
      requires used.Length == |allow| && Marks(used[..], picks)
      modifies used
      ensures FitsAt(d, allow, picks + [pick], |picks|) && pick < |allow|
      ensures Marks(used[..], picks + [pick])
    {
      pick := -1;
      for i := 0 to |allow|
        invariant pick == -1 && forall j | 0 <= j < |allow| :: used[j] <==> j in picks
        invariant forall j | 0 <= j < i && DivergenceMatches(allow[j], d) :: j in picks
      {
        if !used[i] && DivergenceMatches(allow[i], d) {
          used[i] := true;
          assert (picks + [i])[..|picks|] == picks;
          return i;
        }
      }
      assert (picks + [-1])[..|picks|] == picks;
    }

    // The outer loop: one difference after another.
    method Match(allow: seq<Divergence>, used: array<bool>) returns (remaining: seq<Diff>, ghost picks: seq<int>)
      requires used.Length == |allow| && Marks(used[..], [])
      modifies this`matched, used
      ensures Progress(diffs, allow, picks, remaining, old(matched), matched)
      ensures Marks(used[..], picks)
    {
      remaining, picks := [], [];
      for j := 0 to |diffs|
        invariant |picks| == j && Marks(used[..], picks)
        invariant Progress(diffs[..j], allow, picks, remaining, old(matched), matched)
      {
        var pick := Claim(diffs[j], allow, used, picks);
        Extended(diffs, allow, picks, remaining, old(matched), matched, j, pick);
        if pick >= 0 {
          matched := matched + [allow[pick]];
        } else {
          remaining := remaining + [diffs[j]];
        }
        picks := picks + [pick];
      }
      assert diffs[..|diffs|] == diffs;
    }

    // The last loop: what was declared and not seen.
    method Declare(allow: seq<Divergence>, used: array<bool>, ghost picks: seq<int>)
      requires used.Length == |allow| && Marks(used[..], picks)
      modifies this`missing
      ensures missing == old(missing) + Missing(allow, picks, |allow|)
    {
      for i := 0 to |allow|
        invariant missing == old(missing) + Missing(allow, picks, i)
      {
        if !used[i] {
          missing := missing + [allow[i]];
        }
      }
    }

    // applyAllowList; without entries it does nothing at all.
    method ApplyAllowList(allow: seq<Divergence>) returns (ghost picks: seq<int>)
      modifies this
      ensures FirstFit(old(diffs), allow, picks)
      ensures diffs == Remaining(old(diffs), picks)
      ensures matched == old(matched) + Used(allow, picks)
      ensures missing == old(missing) + Missing(allow, picks, |allow|)
      ensures old(missing) == [] ==> (Pass() <==> AllMatched(allow, picks))
    {
      if |allow| == 0 {
        picks := NoPicks(diffs, allow);
        PassIff(diffs, allow, picks);
        return;
      }
      var used := new bool[|allow|](i => false);
      var remaining: seq<Diff>;
      remaining, picks := Match(allow, used);
      Declare(allow, used, picks);
      PassIff(diffs, allow, picks);
      diffs := remaining;
    }
  }

  lemma {:induction false} NoPicks(diffs: seq<Diff>, allow: seq<Divergence>) returns (picks: seq<int>)
    requires allow == []
    ensures FirstFit(diffs, allow, picks)
    ensures Remaining(diffs, picks) == diffs && Used(allow, picks) == []
  {
    if diffs == [] {
      picks := [];
    } else {
      var n := |diffs| - 1;
      var front := NoPicks(diffs[..n], allow);
      picks := front + [-1];
      assert picks[..n] == front && diffs == diffs[..n] + [diffs[n]];
    }
  }

  // The picks made for the differences looked at so far, and what came of them.
  ghost predicate Progress(
    diffs: seq<Diff>, allow: seq<Divergence>, picks: seq<int>,
    remaining: seq<Diff>, start: seq<Divergence>, matched: seq<Divergence>)
  {
    FirstFit(diffs, allow, picks)
    && remaining == Remaining(diffs, picks) && matched == start + Used(allow, picks)
  }

  // One more difference has been looked at.
  lemma Extended(
    diffs: seq<Diff>, allow: seq<Divergence>, picks: seq<int>,
    remaining: seq<Diff>, start: seq<Divergence>, matched: seq<Divergence>, j: nat, pick: int)
    requires j < |diffs| && Progress(diffs[..j], allow, picks, remaining, start, matched)
    requires pick < |allow| && FitsAt(diffs[j], allow, picks + [pick], j)
    ensures Progress(diffs[..j + 1], allow, picks + [pick],
                     if pick < 0 then remaining + [diffs[j]] else remaining,
                     start, if pick < 0 then matched else matched + [allow[pick]])
  {
    var longer, looked := picks + [pick], diffs[..j + 1];
    assert longer[..j] == picks && looked[..j] == diffs[..j];
    forall x | 0 <= x < |looked| ensures FitsAt(looked[x], allow, longer, x) {
      if x < j {
        assert FitsAt(diffs[..j][x], allow, picks, x);
        assert longer[..x] == picks[..x];
      }
    }
  }

  // ---- what the matching promises ---------------------------------------------------------------

  lemma SameMembers(p: seq<int>, q: seq<int>, i: nat)
    requires |p| == |q| && forall j | 0 <= j < |p| :: p[j] == q[j] || (p[j] < 0 && q[j] < 0)
    ensures i in p <==> i in q
  {
    if i in p {
      var j :| 0 <= j < |p| && p[j] == i;
      assert q[j] == i;
    }
    if i in q {
      var j :| 0 <= j < |q| && q[j] == i;
      assert p[j] == i;
    }
  }

  // First fit leaves no choice.
  lemma {:induction false} FirstFitUnique(diffs: seq<Diff>, allow: seq<Divergence>, p: seq<int>, q: seq<int>, n: nat)
    requires FirstFit(diffs, allow, p) && FirstFit(diffs, allow, q) && n <= |diffs|
    ensures forall j | 0 <= j < n :: p[j] == q[j] || (p[j] < 0 && q[j] < 0)
  {
    if n > 0 {
      FirstFitUnique(diffs, allow, p, q, n - 1);
      assert FitsAt(diffs[n - 1], allow, p, n - 1) && FitsAt(diffs[n - 1], allow, q, n - 1);
      var d, before, front := diffs[n - 1], p[..n - 1], q[..n - 1];
      forall i | 0 <= i < |allow| && DivergenceMatches(allow[i], d) ensures i in before <==> i in front {
        SameMembers(before, front, i);
      }
      if p[n - 1] >= 0 {
        SameMembers(before, front, p[n - 1]);
      }
      if q[n - 1] >= 0 {
        SameMembers(before, front, q[n - 1]);
      }
    }
  }

  lemma FrontFits(diffs: seq<Diff>, allow: seq<Divergence>, picks: seq<int>, n: nat)
    requires FirstFit(diffs, allow, picks) && n < |diffs|
    ensures FirstFit(diffs[..n], allow, picks[..n]) && FitsAt(diffs[n], allow, picks, n)
  {
    forall x | 0 <= x < n ensures FitsAt(diffs[..n][x], allow, picks[..n], x) {
      assert FitsAt(diffs[x], allow, picks, x) && picks[..n][..x] == picks[..x];
    }
  }

  lemma {:induction false} UsedCounts(allow: seq<Divergence>, picks: seq<int>, diffs: seq<Diff>)
    requires |picks| == |diffs| && InRange(picks, allow)
    ensures |Used(allow, picks)| + |Remaining(diffs, picks)| == |diffs|
  {
    if diffs != [] {
      UsedCounts(allow, picks[..|diffs| - 1], diffs[..|diffs| - 1]);
    }
  }

  lemma {:induction false} UsedOnce(allow: seq<Divergence>, picks: seq<int>, diffs: seq<Diff>)
    requires FirstFit(diffs, allow, picks)
    ensures multiset(Used(allow, picks)) == Taken(allow, picks, |allow|)
  {
    if diffs == [] {
      NothingTaken(allow, picks, |allow|);
    } else {
      var n := |diffs| - 1;
      var front, pick := picks[..n], picks[n];
      FrontFits(diffs, allow, picks, n);
      UsedOnce(allow, front, diffs[..n]);
      TakenGrows(allow, front, pick, |allow|);
      assert picks == front + [pick];
    }
  }

  // The multiset of the first n entries that were picked.
  ghost function Taken<T>(allow: seq<T>, picks: seq<int>, n: nat): multiset<T>
    requires n <= |allow|
  {
    if n == 0 then multiset{}
    else
      var rest := Taken(allow, picks, n - 1);
      if n - 1 in picks then rest + multiset{allow[n - 1]} else rest
  }

  lemma {:induction false} NothingTaken<T>(allow: seq<T>, picks: seq<int>, n: nat)
    requires n <= |allow| && picks == []
    ensures Taken(allow, picks, n) == multiset{}
  {
    if n > 0 {
      NothingTaken(allow, picks, n - 1);
    }
  }

  lemma {:induction false} TakenGrows<T>(allow: seq<T>, picks: seq<int>, pick: int, n: nat)
    requires n <= |allow| && (pick !in picks || pick < 0)
    ensures Taken(allow, picks + [pick], n)
            == Taken(allow, picks, n) + if 0 <= pick < n then multiset{allow[pick]} else multiset{}
  {
    if n > 0 {
      TakenGrows(allow, picks, pick, n - 1);
      assert n - 1 in picks + [pick] <==> n - 1 in picks || n - 1 == pick;
    }
  }

  lemma {:induction false} TakenOrMissing<T>(allow: seq<T>, picks: seq<int>, n: nat)
    requires n <= |allow|
    ensures Taken(allow, picks, n) + multiset(Missing(allow, picks, n)) == multiset(allow[..n])
  {
    if n == 0 {
      assert allow[..0] == [];
    } else {
      TakenOrMissing(allow, picks, n - 1);
      assert allow[..n] == allow[..n - 1] + [allow[n - 1]];
    }
  }

  // One-to-one: each difference is matched by one entry or remains, each entry is used
  // once or missing, and all the counts add up.
  lemma OneToOne(diffs: seq<Diff>, allow: seq<Divergence>, picks: seq<int>)
    requires FirstFit(diffs, allow, picks)
    ensures |Used(allow, picks)| + |Remaining(diffs, picks)| == |diffs|
    ensures multiset(Used(allow, picks)) + multiset(Missing(allow, picks, |allow|)) == multiset(allow)
    ensures |Used(allow, picks)| + |Missing(allow, picks, |allow|)| == |allow|
    ensures forall i, j | 0 <= i < j < |picks| && picks[j] >= 0 :: picks[i] != picks[j]
  {
    UsedCounts(allow, picks, diffs);
    UsedOnce(allow, picks, diffs);
    TakenOrMissing(allow, picks, |allow|);
    assert allow[..|allow|] == allow;
    assert |multiset(Used(allow, picks)) + multiset(Missing(allow, picks, |allow|))| == |multiset(allow)|;
    forall i, j | 0 <= i < j < |picks| && picks[j] >= 0 ensures picks[i] != picks[j] {
      assert FitsAt(diffs[j], allow, picks, j) && picks[..j][i] == picks[i];
    }
  }

  lemma {:induction false} RemainingFrom(diffs: seq<Diff>, picks: seq<int>, d: Diff)
    requires |picks| == |diffs|
    ensures d in Remaining(diffs, picks) <==> exists j :: 0 <= j < |diffs| && diffs[j] == d && picks[j] < 0
  {
    if diffs != [] {
      var n := |diffs| - 1;
      RemainingFrom(diffs[..n], picks[..n], d);
      assert forall j | 0 <= j < n :: diffs[..n][j] == diffs[j] && picks[..n][j] == picks[j];
    }
  }

  lemma {:induction false} MissingFrom<T>(allow: seq<T>, picks: seq<int>, n: nat, a: T)
    requires n <= |allow|
    ensures a in Missing(allow, picks, n) <==> exists i :: 0 <= i < n && allow[i] == a && i !in picks
  {
    if n > 0 {
      MissingFrom(allow, picks, n - 1, a);
    }
  }

  // Maximal: nothing that remains could have used anything that is missing.
  lemma Maximal(diffs: seq<Diff>, allow: seq<Divergence>, picks: seq<int>, d: Diff, a: Divergence)
    requires FirstFit(diffs, allow, picks)
    requires d in Remaining(diffs, picks) && a in Missing(allow, picks, |allow|)
    ensures !DivergenceMatches(a, d)
  {
    RemainingFrom(diffs, picks, d);
    MissingFrom(allow, picks, |allow|, a);
    var j :| 0 <= j < |diffs| && diffs[j] == d && picks[j] < 0;
    var i :| 0 <= i < |allow| && allow[i] == a && i !in picks;
    assert FitsAt(diffs[j], allow, picks, j);
    assert forall x | x in picks[..j] :: x in picks;
  }

  // The positions of the unmatched differences.
  function Unmatched(picks: seq<int>): seq<nat> {
    if picks == [] then []
    else
      var n := |picks| - 1;
      var rest := Unmatched(picks[..n]);
      if picks[n] < 0 then rest + [n] else rest
  }

  lemma {:induction false} UnmatchedIff(picks: seq<int>, j: nat)
    ensures j in Unmatched(picks) <==> j < |picks| && picks[j] < 0
  {
    if picks != [] {
      UnmatchedIff(picks[..|picks| - 1], j);
    }
  }

  lemma {:induction false} UnmatchedAscends(picks: seq<int>)
    ensures forall x | 0 <= x < |Unmatched(picks)| :: Unmatched(picks)[x] < |picks|
    ensures forall x, y | 0 <= x < y < |Unmatched(picks)| :: Unmatched(picks)[x] < Unmatched(picks)[y]
  {
    if picks != [] {
      UnmatchedAscends(picks[..|picks| - 1]);
    }
  }

  // Order kept: the remaining differences are all the unmatched ones, as they came.
  lemma {:induction false} RemainingInOrder(diffs: seq<Diff>, picks: seq<int>)
    requires |picks| == |diffs|
    ensures var at := Unmatched(picks);
            && |Remaining(diffs, picks)| == |at|
            && (forall x | 0 <= x < |at| :: at[x] < |diffs| && Remaining(diffs, picks)[x] == diffs[at[x]])
            && (forall x, y | 0 <= x < y < |at| :: at[x] < at[y])
            && (forall j: nat | j < |diffs| && picks[j] < 0 :: j in at)
  {
    UnmatchedAscends(picks);
    forall j: nat ensures j in Unmatched(picks) <==> j < |picks| && picks[j] < 0 {
      UnmatchedIff(picks, j);
    }
    if diffs != [] {
      RemainingInOrder(diffs[..|diffs| - 1], picks[..|diffs| - 1]);
    }
  }

  // Every difference found an entry and every entry was used.
  ghost predicate AllMatched(allow: seq<Divergence>, picks: seq<int>) {
    (forall j | 0 <= j < |picks| :: picks[j] >= 0) && (forall i | 0 <= i < |allow| :: i in picks)
  }

  // Nothing remains and nothing is missing exactly when all is matched; this is what Pass
  // says of a report that was fresh (see ApplyAllowList).
  lemma PassIff(diffs: seq<Diff>, allow: seq<Divergence>, picks: seq<int>)
    requires FirstFit(diffs, allow, picks)
    ensures Remaining(diffs, picks) == [] && Missing(allow, picks, |allow|) == [] <==> AllMatched(allow, picks)
  {
    forall j | 0 <= j < |diffs| && picks[j] < 0 ensures diffs[j] in Remaining(diffs, picks) {
      RemainingFrom(diffs, picks, diffs[j]);
    }
    forall i | 0 <= i < |allow| && i !in picks ensures allow[i] in Missing(allow, picks, |allow|) {
      MissingFrom(allow, picks, |allow|, allow[i]);
    }
    if Remaining(diffs, picks) != [] {
      RemainingFrom(diffs, picks, Remaining(diffs, picks)[0]);
    }
    if Missing(allow, picks, |allow|) != [] {
      MissingFrom(allow, picks, |allow|, Missing(allow, picks, |allow|)[0]);
    }
  }
}
