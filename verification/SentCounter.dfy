// What the `sent` counter of internal/server/stats.go says of the signals that were
// written: writeReq adds a Count to it before WriteMsg is called.
module SentCounter {
  import opened Wrappers
  import opened Sums
  import opened ControlPlane
  import B = Bootstrap
  import ControlWitnesses

  // The signals of a writeReq that has counted them and not yet written them.
  function BeingWritten(p: Pc): int {
    if p.WriteInflight? || p.WriteOut? then p.n else 0
  }

  // The signals whose message the action writes, or fails to write.
  function WrittenBy(s: System, a: Action): nat {
    if a.Run? && a.i < |s.threads| && s.threads[a.i].WriteOut? && !a.choice.Fail? then s.threads[a.i].n else 0
  }

  function LostBy(s: System, a: Action): nat {
    if a.Run? && a.i < |s.threads| && s.threads[a.i].WriteOut? && a.choice.Fail? then s.threads[a.i].n else 0
  }

  ghost function Written(acts: seq<Action>): nat
    requires After(New(), acts).Some?
  {
    if acts == [] then 0
    else
      var front := acts[..|acts| - 1];
      Written(front) + WrittenBy(After(New(), front).value, acts[|acts| - 1])
  }

  ghost function Lost(acts: seq<Action>): nat
    requires After(New(), acts).Some?
  {
    if acts == [] then 0
    else
      var front := acts[..|acts| - 1];
      Lost(front) + LostBy(After(New(), front).value, acts[|acts| - 1])
  }

  // Action i is a failed write of a ReqWorkConn.
  ghost predicate FailsAt(acts: seq<Action>, i: nat) {
    i < |acts| && After(New(), acts[..i]).Some? && LostBy(After(New(), acts[..i]).value, acts[i]) > 0
  }

  // ---- one action --------------------------------------------------------------------

  lemma CallSent(g: Shared, p: Pc, c: Choice)
    requires InRange(g, p) && CanCall(g, p, c)
    ensures var (h, q) := MoveCall(g, p, c); h.stats.sent == g.stats.sent && BeingWritten(q) == BeingWritten(p) == 0
  {
  }

  lemma LoginSent(g: Shared, p: Pc, c: Choice)
    requires InRange(g, p) && CanLogin(g, p, c)
    ensures var (h, q) := MoveLogin(g, p, c); h.stats.sent == g.stats.sent && BeingWritten(q) == BeingWritten(p) == 0
  {
  }

  lemma WriterSent(g: Shared, p: Pc, c: Choice)
    requires InRange(g, p) && CanWrite(g, p, c)
    ensures var (h, q) := MoveWriter(g, p, c);
            h.stats.sent - BeingWritten(q) == g.stats.sent - BeingWritten(p) + if p.WriteOut? then p.n else 0
  {
  }

  lemma StepSent(s: System, a: Action)
    requires Enabled(s, a)
    ensures var t := Next(s, a);
            t.g.stats.sent - Total(BeingWritten, t.threads)
            == s.g.stats.sent - Total(BeingWritten, s.threads) + WrittenBy(s, a) + LostBy(s, a)
  {
    match a
    case Login(r, n) =>
      TwoMore(s.threads, Boot(|s.g.sessions|, if n > 0 then n else 0), Head(|s.g.sessions|));
    case Call(r) => TotalAppend(BeingWritten, s.threads, Lookup(r));
    case Run(i, c) =>
      var p := s.threads[i];
      TotalUpdate(BeingWritten, s.threads, i, Move(s.g, p, c).1);
      if InCall(p) {
        CallSent(s.g, p, c);
      } else if InLogin(p) {
        LoginSent(s.g, p, c);
      } else {
        WriterSent(s.g, p, c);
      }
  }

  lemma TwoMore(ts: seq<Pc>, p: Pc, q: Pc)
    requires BeingWritten(p) == BeingWritten(q) == 0
    ensures Total(BeingWritten, ts + [p, q]) == Total(BeingWritten, ts)
  {
    TotalAppend(BeingWritten, ts, p);
    TotalAppend(BeingWritten, ts + [p], q);
    assert ts + [p] + [q] == ts + [p, q];
  }

  // ---- every run -----------------------------------------------------------------------

  // `sent` counts what was written, what was lost in a failed write, and what is being
  // written.
  lemma {:induction false} SentIs(acts: seq<Action>)
    requires After(New(), acts).Some?
    ensures var s := After(New(), acts).value;
            s.g.stats.sent == Written(acts) + Lost(acts) + Total(BeingWritten, s.threads)
  {
    if acts != [] {
      var front := acts[..|acts| - 1];
      SentIs(front);
      StepSent(After(New(), front).value, acts[|acts| - 1]);
    }
  }

  lemma {:induction false} LostIff(acts: seq<Action>)
    requires After(New(), acts).Some?
    ensures Lost(acts) > 0 <==> exists i :: FailsAt(acts, i)
  {
    if acts != [] {
      var n := |acts| - 1;
      LostIff(acts[..n]);
      forall i: nat | i < n ensures FailsAt(acts[..n], i) <==> FailsAt(acts, i) {
        assert acts[..n][..i] == acts[..i];
      }
      assert FailsAt(acts, n) <==> LostBy(After(New(), acts[..n]).value, acts[n]) > 0;
    }
  }

  // While no writer is between counting and writing, `sent` is the number of signals that
  // were written if and only if no write of a ReqWorkConn has failed.
  lemma SentIsWrittenIff(acts: seq<Action>)
    requires After(New(), acts).Some?
    requires forall p | p in After(New(), acts).value.threads :: BeingWritten(p) == 0
    ensures After(New(), acts).value.g.stats.sent == Written(acts) <==> !exists i :: FailsAt(acts, i)
  {
    var ts := After(New(), acts).value.threads;
    assert forall i | 0 <= i < |ts| :: ts[i] in ts;
    TotalZero(BeingWritten, ts);
    SentIs(acts);
    LostIff(acts);
  }

  // It does fail: one bootstrap signal, taken and counted, whose write fails.
  lemma SentOvercounts(r: RunId) returns (acts: seq<Action>)
    ensures After(New(), acts).Some? && After(New(), acts).value.threads == [Boot(0, 0), WriterExited(0)]
    ensures After(New(), acts).value.g.stats.sent > Written(acts)
  {
    var front := B.Opened(r, 1);
    front := B.SendsOne(front, Head(0), 1, 0, 0, 1);
    front := B.WriterTakes(front, 0, 1);
    front := B.WriterCounts(front, 0, 1);
    acts := FailLast(front);
    SentIs(acts);
  }

  lemma FailLast(front: seq<Action>) returns (acts: seq<Action>)
    requires B.Reaches(front, Boot(0, 0), WriteOut(0, 1, true), 0, 1, 1)
    ensures After(New(), acts).Some? && After(New(), acts).value.threads == [Boot(0, 0), WriterExited(0)]
    ensures Lost(acts) > 0 && Total(BeingWritten, After(New(), acts).value.threads) == 0
  {
    var s := After(New(), front).value;
    var t;
    acts, t := ControlWitnesses.Extend(front, s, Run(1, Fail));
    assert acts[..|acts| - 1] == front;
    assert LostBy(s, Run(1, Fail)) == 1;
    TotalZero(BeingWritten, t.threads);
  }
}
