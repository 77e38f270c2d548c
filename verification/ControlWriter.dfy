// The single writer of a control session, internal/server/control_writer.go.
//
// Between any two operations of the writer the rest of the server may act: refill
// signals and responses arrive, the session is cancelled, the flush timer fires. That
// is method Environment; nothing else changes the writer's channels behind its back.
module ControlWriter {
  import opened Wrappers
  import opened Batching
  import opened Bytes
  import opened Framing

  // What WriteMsg writes for a message, None where it fails before writing anything.
  type Encoder = Message -> Option<seq<Byte>>

  // A one-shot timer: not running, running, or fired with its tick unread.
  datatype Timer = Stopped | Armed | Ticked

  datatype Ready = Done | Signal | Response | Flushing | Nothing

  datatype Exit = Cancelled | WriteError | StillRunning

  function Min(a: nat, b: nat): nat {
    if a < b then a else b
  }

  // ---- the message log --------------------------------------------------------------

  // The encodings of the logged messages, in order.
  ghost function Encoded(encode: Encoder, log: seq<Message>): seq<Byte> {
    if log == [] then []
    else
      var m := log[|log| - 1];
      Encoded(encode, log[..|log| - 1]) + if encode(m).Some? then encode(m).value else []
  }

  // The Counts of the logged ReqWorkConn messages.
  ghost function Counts(log: seq<Message>): seq<int> {
    if log == [] then []
    else
      var m := log[|log| - 1];
      Counts(log[..|log| - 1]) + if m.ReqWorkConn? then [m.count] else []
  }

  // Everything else in the log.
  ghost function Replies(log: seq<Message>): seq<Message> {
    if log == [] then []
    else
      var m := log[|log| - 1];
      Replies(log[..|log| - 1]) + if m.ReqWorkConn? then [] else [m]
  }

  ghost function Sum(ns: seq<int>): int {
    if ns == [] then 0 else Sum(ns[..|ns| - 1]) + ns[|ns| - 1]
  }

  ghost predicate Bounded(counts: seq<int>) {
    forall i | 0 <= i < |counts| :: 1 <= counts[i] <= BATCH_MAX
  }

  // No refill request goes through sendCh.
  ghost predicate Responses(ms: seq<Message>) {
    forall i | 0 <= i < |ms| :: !ms[i].ReqWorkConn?
  }

  lemma Appended(encode: Encoder, log: seq<Message>, m: Message)
    ensures encode(m).Some? ==> Encoded(encode, log + [m]) == Encoded(encode, log) + encode(m).value
    ensures m.ReqWorkConn? ==> Counts(log + [m]) == Counts(log) + [m.count] && Replies(log + [m]) == Replies(log)
    ensures !m.ReqWorkConn? ==> Counts(log + [m]) == Counts(log) && Replies(log + [m]) == Replies(log) + [m]
  {
    assert (log + [m])[..|log|] == log;
  }

  // The log's Counts and responses are these.
  ghost predicate Whole(log: seq<Message>, counts: seq<int>, replies: seq<Message>) {
    Counts(log) == counts && Replies(log) == replies
  }

  // ... or at most one of these is missing.
  ghost predicate Short(log: seq<Message>, counts: seq<int>, replies: seq<Message>) {
    Counts(log) <= counts && Replies(log) <= replies && |counts| + |replies| <= |log| + 1
  }

  lemma NextCount(encode: Encoder, log: seq<Message>, count: int, counts: seq<int>, replies: seq<Message>)
    requires Whole(log, counts, replies)
    ensures Whole(log + [ReqWorkConn(count)], counts + [count], replies)
    ensures Short(log, counts + [count], replies) && Short(log + [ReqWorkConn(count)], counts + [count], replies)
  {
    PartsCount(log);
    Appended(encode, log, ReqWorkConn(count));
  }

  lemma NextReply(encode: Encoder, log: seq<Message>, m: Message, counts: seq<int>, replies: seq<Message>)
    requires Whole(log, counts, replies) && !m.ReqWorkConn?
    ensures Whole(log + [m], counts, replies + [m])
    ensures Short(log, counts, replies + [m]) && Short(log + [m], counts, replies + [m])
  {
    PartsCount(log);
    Appended(encode, log, m);
  }

  lemma WholeIsShort(encode: Encoder, log: seq<Message>, counts: seq<int>, replies: seq<Message>)
    requires Whole(log, counts, replies)
    ensures Short(log, counts, replies)
    ensures log != [] ==> Encoded(encode, log[..|log| - 1]) <= Encoded(encode, log)
  {
    PartsCount(log);
  }

  lemma {:induction false} PartsCount(log: seq<Message>)
    ensures |Counts(log)| + |Replies(log)| == |log|
  {
    if log != [] {
      PartsCount(log[..|log| - 1]);
    }
  }

  lemma MovedOver(done: seq<Message>, left: seq<Message>)
    requires left != []
    ensures (done + [left[0]]) + left[1..] == done + left
  {
  }

  lemma SumAppended(ns: seq<int>, n: int)
    ensures Sum(ns + [n]) == Sum(ns) + n
  {
    assert (ns + [n])[..|ns|] == ns;
  }

  // ---- the writer ----------------------------------------------------------------------

  class Writer {
    const encode: Encoder
    const bw: BufWriter
    // No arrivals and no cancellation from here on.
    const quiet: bool

    var timer: Timer
    var pendingFlush: bool
    var queued: nat
    var sendCh: seq<Message>
    var done: bool
    var sent: int
    var inflight: int

    // What the writer has done: signals received from reqCh, the Counts handed to
    // writeReq, responses received from sendCh, messages begun to be written.
    ghost var taken: nat
    ghost var passed: seq<int>
    ghost var replied: seq<Message>
    ghost var log: seq<Message>
    // The signals whose message WriteMsg took, and those of the one it failed on.
    ghost var accepted: int
    ghost var lost: nat

    // sendLoop's set-up: nothing buffered, the timer stopped.
    constructor (encode: Encoder, bw: BufWriter, queued: nat, sendCh: seq<Message>, inflight: int, quiet: bool)
      requires bw.Content() == [] && !bw.broken
      requires Responses(sendCh)
      ensures this.encode == encode && this.bw == bw && this.quiet == quiet
      ensures this.queued == queued && this.sendCh == sendCh && !done && this.inflight == inflight
      ensures taken == 0 && sent == 0 && log == [] && passed == [] && replied == [] && accepted == 0
      ensures AtHead()
    {
      this.encode, this.bw, this.quiet := encode, bw, quiet;
      timer, pendingFlush := Stopped, false;
      this.queued, this.sendCh, done := queued, sendCh, false;
      sent, this.inflight := 0, inflight;
      taken, passed, replied, log := 0, [], [], [];
      accepted, lost := 0, 0;
    }

    // The Counts are within bounds and, with `hand` signals not yet handed on, add up to
    // the signals taken; `sent` says the same.
    ghost predicate Counted(hand: nat)
      reads this
    {
      && Sum(passed) + hand == taken && sent == Sum(passed)
      && Bounded(passed) && Responses(sendCh)
    }

    // The byte stream is the log, the log is what was handed on, and `sent` is what was
    // written.
    ghost predicate InStep()
      reads this, bw
    {
      !bw.broken && bw.Content() == Encoded(encode, log) && Whole(log, passed, replied)
      && sent == accepted && lost == 0
    }

    // Unflushed bytes have a pending flush, and a pending flush has a timer.
    ghost predicate FlushDue()
      reads this, bw
    {
      (bw.buffered != [] ==> pendingFlush) && (pendingFlush <==> timer != Stopped)
    }

    // What holds whenever the event loop is at its head.
    ghost predicate AtHead()
      reads this, bw
    {
      Counted(0) && InStep() && FlushDue()
    }

    // At most the last message is cut short.
    ghost predicate Truncated()
      reads this, bw
    {
      && bw.Content() <= Encoded(encode, log)
      && (log != [] ==> Encoded(encode, log[..|log| - 1]) <= bw.Content())
    }

    // What holds after a failed write: beside the cut, at most one Count or response that
    // was received is not in the log, and `sent` is off by the Count that failed.
    ghost predicate Cut()
      reads this, bw
    {
      && Truncated()
      && Short(log, passed, replied)
      && sent == accepted + lost
    }

    // What holds after writing: the head's invariant, or a cut-short stream.
    ghost predicate Written(ok: bool)
      reads this, bw
    {
      Counted(0) && if ok then InStep() && FlushDue() else Cut()
    }

    // The rest of the server, and time.
    method Environment()
      modifies this`queued, this`sendCh, this`done, this`timer, this`inflight
      ensures old(queued) <= queued && old(sendCh) <= sendCh && (old(done) ==> done)
      ensures Responses(old(sendCh)) ==> Responses(sendCh)
      ensures timer == old(timer) || (old(timer).Armed? && timer.Ticked?)
      ensures quiet ==> queued == old(queued) && done == old(done) && sendCh == old(sendCh)
    {
      var fires: bool := *;
      if timer.Armed? && fires {
        timer := Ticked;
      }
      if !quiet {
        var cancelled: bool := *;
        done := done || cancelled;
        var arrivals: int :| arrivals >= 0;
        var counted: int := *;
        var m: Message := *;
        queued, inflight := queued + arrivals, inflight + counted;
        if !m.ReqWorkConn? {
          sendCh := sendCh + [m];
        }
      }
    }

    // Stop, and drain the tick if the timer had already fired.
    method StopTimer()
      modifies this`timer
      ensures timer == Stopped
    {
      var stopped := timer.Armed?;
      if stopped {
        timer := Stopped;
      } else if timer.Ticked? {
        timer := Stopped;
      }
    }

    method ResetTimer()
      modifies this`timer
      ensures timer == Armed
    {
      StopTimer();
      timer := Armed;
    }

    // flush: afterwards nothing is buffered and no flush is due.
    method Flush() returns (ok: bool)
      requires InStep() && (bw.buffered != [] || timer != Stopped ==> pendingFlush)
      modifies this`pendingFlush, this`timer, bw
      ensures bw.Content() == old(bw.Content())
      ensures ok ==> InStep() && bw.buffered == [] && !pendingFlush && timer == Stopped
      ensures !ok ==> Cut()
    {
      if !pendingFlush {
        return true;
      }
      WholeIsShort(encode, log, passed, replied);
      ok := bw.Flush();
      if ok {
        pendingFlush := false;
        StopTimer();
      }
    }

    // WriteMsg into bw, and the log.
    method Emit(m: Message) returns (ok: bool)
      requires !bw.broken && bw.Content() == Encoded(encode, log)
      modifies this`log, bw
      ensures log == old(log) || log == old(log) + [m]
      ensures ok ==> log == old(log) + [m] && !bw.broken && bw.Content() == Encoded(encode, log)
      ensures !ok ==> Truncated()
    {
      Appended(encode, log, m);
      var frame := encode(m);
      if frame.None? {
        assert log != [] ==> Encoded(encode, log[..|log| - 1]) <= Encoded(encode, log);
        return false;
      }
      ok := bw.Write(frame.value);
      assert (log + [m])[..|log|] == log;
      log := log + [m];
    }

    // The counters of writeReq move before anything is written.
    method CountSent(count: nat)
      requires 1 <= count <= BATCH_MAX && Counted(count)
      modifies this`sent, this`inflight, this`passed
      ensures passed == old(passed) + [count] && Counted(0)
      ensures sent == old(sent) + count && inflight == old(inflight) - count
    {
      sent := sent + count;
      inflight := inflight - count;
      SumAppended(passed, count);
      passed := passed + [count];
    }

    // The write of writeReq, with its Count already on the books.
    method EmitCount(count: nat, ghost before: seq<int>) returns (ok: bool)
      requires !bw.broken && bw.Content() == Encoded(encode, log)
      requires passed == before + [count] && Whole(log, before, replied)
      requires sent == accepted + count && lost == 0
      modifies this`log, this`pendingFlush, this`timer, this`accepted, this`lost, bw
      ensures ok ==> InStep() && FlushDue() && pendingFlush && timer.Armed? && accepted == old(accepted) + count
      ensures !ok ==> Cut() && lost == count && accepted == old(accepted)
    {
      NextCount(encode, log, count, before, replied);
      ok := Emit(ReqWorkConn(count));
      if ok {
        pendingFlush := true;
        accepted := accepted + count;
        ResetTimer();
      } else {
        lost := count;
      }
    }

    // writeReq: a Count that is not positive is not written.
    method WriteReq(count: nat) returns (ok: bool)
      requires count <= BATCH_MAX && Counted(count) && InStep() && FlushDue()
      modifies this`sent, this`inflight, this`passed, this`log, this`pendingFlush, this`timer, this`accepted,
              this`lost, bw
      ensures passed == if count > 0 then old(passed) + [count] else old(passed)
      ensures inflight == old(inflight) - count && Written(ok)
      ensures ok && count > 0 ==> pendingFlush && timer.Armed?
    {
      ok := true;
      if count > 0 {
        ghost var before := passed;
        CountSent(count);
        ok := EmitCount(count, before);
      }
    }

    // The non-blocking receives of writeReqBatch, up to the limit for the backlog.
    method TakeBatch() returns (limit: nat, batch: nat)
      requires AtHead()
      modifies this`queued, this`sendCh, this`done, this`timer, this`inflight, this`taken
      ensures batch <= limit <= BATCH_MAX && Counted(batch) && InStep() && FlushDue()
      ensures old(taken + queued) <= taken + queued && old(sendCh) <= sendCh
      ensures quiet ==>
                && done == old(done) && limit == BatchLimit(old(queued))
                && batch == Min(limit, old(queued)) && queued == old(queued) - batch
    {
      Environment();
      limit, batch := BatchLimit(queued), 0;
      ghost var q := queued;
      var empty := false;
      while batch < limit && !empty
        invariant batch <= limit && Counted(batch) && FlushDue()
        invariant old(taken + queued) <= taken + queued && old(sendCh) <= sendCh
        invariant quiet ==> done == old(done) && queued + batch == q
        invariant empty && quiet ==> queued == 0
        decreases limit - batch, !empty
      {
        Environment();
        if queued > 0 {
          queued, taken, batch := queued - 1, taken + 1, batch + 1;
        } else {
          empty := true;
        }
      }
    }

    // Its write; a full batch of the upper two buckets is flushed at once.
    method FinishBatch(limit: nat, batch: nat) returns (ok: bool)
      requires batch <= limit <= BATCH_MAX && Counted(batch) && InStep() && FlushDue()
      modifies this`sent, this`inflight, this`passed, this`accepted, this`lost, this`log, this`pendingFlush,
              this`timer, bw
      ensures Written(ok)
      ensures |passed| <= |old(passed)| + 1
      ensures ok && batch == limit && limit >= BATCH_MID ==> bw.buffered == [] && !pendingFlush
    {
      ok := WriteReq(batch);
      if ok && batch == limit && limit >= BATCH_MID {
        ok := Flush();
      }
    }

    // writeReqBatch; with nothing to take it writes nothing.
    method WriteReqBatch() returns (ok: bool)
      requires AtHead()
      modifies this`queued, this`sendCh, this`done, this`timer, this`inflight, this`taken
      modifies this`sent, this`passed, this`accepted, this`lost, this`log, this`pendingFlush, bw
      ensures Written(ok)
      ensures |passed| <= |old(passed)| + 1
      ensures old(taken + queued) <= taken + queued && old(sendCh) <= sendCh
      ensures quiet ==> done == old(done) && queued == old(queued) - Min(BatchLimit(old(queued)), old(queued))
    {
      var limit, batch := TakeBatch();
      ok := FinishBatch(limit, batch);
    }

    // One signal, received and written on its own.
    method RefillOne() returns (ok: bool)
      requires AtHead() && queued > 0
      modifies this`queued, this`taken, this`sent, this`inflight, this`passed, this`accepted, this`lost, this`log,
              this`pendingFlush, this`timer, bw
      ensures Written(ok)
      ensures |passed| == |old(passed)| + 1 && queued == old(queued) - 1 && taken == old(taken) + 1
    {
      queued, taken := queued - 1, taken + 1;
      ok := WriteReq(1);
    }

    // The fast path's turn: one signal on its own, then a batch.
    method Refill() returns (ok: bool)
      requires AtHead() && queued > 0
      modifies this`queued, this`sendCh, this`done, this`timer, this`inflight, this`taken
      modifies this`sent, this`passed, this`accepted, this`lost, this`log, this`pendingFlush, bw
      ensures Written(ok)
      ensures |passed| <= |old(passed)| + 2
      ensures old(taken + queued) <= taken + queued && old(sendCh) <= sendCh
      ensures quiet ==> done == old(done)
      ensures quiet && ok ==> queued == LeftAfterTurn(old(queued))
    {
      ok := RefillOne();
      if ok {
        ok := WriteReqBatch();
      }
    }

    method EmitReply(m: Message, ghost before: seq<Message>) returns (ok: bool)
      requires !bw.broken && bw.Content() == Encoded(encode, log) && !m.ReqWorkConn?
      requires replied == before + [m] && Whole(log, passed, before)
      requires sent == accepted && lost == 0
      modifies this`log, this`pendingFlush, bw
      ensures ok ==> InStep() && pendingFlush
      ensures !ok ==> Cut()
    {
      NextReply(encode, log, m, passed, before);
      ok := Emit(m);
      if ok {
        pendingFlush := true;
      }
    }

    // A response: flushed before and after, so it never waits in the buffer.
    method Reply(m: Message) returns (ok: bool)
      requires AtHead() && !m.ReqWorkConn?
      modifies this`log, this`replied, this`pendingFlush, this`timer, bw
      ensures if ok then InStep() && FlushDue() && bw.buffered == [] else Cut()
      ensures replied == old(replied) + [m]
    {
      ghost var before := replied;
      NextReply(encode, log, m, passed, before);
      ok := Flush();
      replied := before + [m];
      if ok {
        ok := WriteReply(m, before);
      }
    }

    method WriteReply(m: Message, ghost before: seq<Message>) returns (ok: bool)
      requires !bw.broken && bw.Content() == Encoded(encode, log) && !m.ReqWorkConn?
      requires replied == before + [m] && Whole(log, passed, before)
      requires sent == accepted && lost == 0
      modifies this`log, this`pendingFlush, this`timer, bw
      ensures if ok then InStep() && FlushDue() && bw.buffered == [] else Cut()
    {
      ok := EmitReply(m, before);
      if ok {
        ok := Flush();
      }
    }

    // The select's response case.
    method ReplyNext() returns (ok: bool)
      requires AtHead() && sendCh != []
      modifies this`sendCh, this`log, this`replied, this`pendingFlush, this`timer, bw
      ensures Written(ok)
      ensures replied == old(replied) + [old(sendCh)[0]] && sendCh == old(sendCh)[1..]
      ensures replied + sendCh == old(replied + sendCh)
      ensures ok ==> bw.buffered == []
    {
      var m := sendCh[0];
      MovedOver(replied, sendCh);
      sendCh := sendCh[1..];
      ok := Reply(m);
    }

    // The select's timer case: the tick is read, then flushed.
    method Tick() returns (ok: bool)
      requires AtHead() && timer.Ticked?
      modifies this`pendingFlush, this`timer, bw
      ensures Written(ok) && (ok ==> bw.buffered == [] && timer == Stopped)
    {
      timer := Stopped;
      ok := Flush();
    }

    // Nothing but a response is ready, and no timer can become so.
    ghost predicate OnlyResponses()
      reads this
    {
      !done && queued == 0 && sendCh != [] && timer.Stopped?
    }

    predicate IsReady(r: Ready)
      reads this
    {
      match r
      case Done => done
      case Signal => queued > 0
      case Response => sendCh != []
      case Flushing => timer.Ticked?
      case Nothing => !done && queued == 0 && sendCh == [] && !timer.Ticked?
    }

    // The blocking select: one of the cases that are ready, whichever; if none is, the
    // writer goes on waiting.
    method Select() returns (r: Ready)
      requires AtHead()
      modifies this`queued, this`sendCh, this`done, this`timer, this`inflight
      ensures AtHead() && IsReady(r)
      ensures old(queued) <= queued && old(sendCh) <= sendCh
      ensures timer == old(timer) || (old(timer).Armed? && timer.Ticked?)
      ensures quiet ==> queued == old(queued) && done == old(done) && sendCh == old(sendCh)
    {
      Environment();
      if
      case done => r := Done;
      case queued > 0 => r := Signal;
      case sendCh != [] => r := Response;
      case timer.Ticked? => r := Flushing;
      case IsReady(Nothing) => r := Nothing;
    }

    // The blocking part of a turn.
    method Wait() returns (cancelled: bool, ok: bool)
      requires AtHead()
      modifies this, bw
      ensures Written(ok) && (cancelled ==> ok && done)
      ensures old(taken + queued) <= taken + queued
      ensures old(replied + sendCh) <= replied + sendCh
      ensures quiet ==> done == old(done)
      ensures quiet && old(queued) == 0 ==> queued == 0 && passed == old(passed)
      ensures |passed| <= |old(passed)| + 2
      ensures quiet && old(OnlyResponses()) && ok ==>
                replied == old(replied) + [old(sendCh)[0]] && sendCh == old(sendCh)[1..] && bw.buffered == []
    {
      var ready := Select();
      cancelled := ready == Done;
      ok := Handle(ready);
    }

    // What the select leads to.
    method Handle(ready: Ready) returns (ok: bool)
      requires AtHead() && IsReady(ready)
      modifies this, bw
      ensures Written(ok) && (ready.Done? ==> ok && done)
      ensures old(taken + queued) <= taken + queued
      ensures old(replied + sendCh) <= replied + sendCh
      ensures quiet ==> done == old(done)
      ensures ready.Signal? || (queued == old(queued) && passed == old(passed))
      ensures |passed| <= |old(passed)| + 2
      ensures ready.Response? && ok ==>
                replied == old(replied) + [old(sendCh)[0]] && sendCh == old(sendCh)[1..] && bw.buffered == []
    {
      ok := true;
      match ready {
        case Signal => ok := Refill();
        case Response => ok := ReplyNext();
        case Flushing => ok := Tick();
        case _ =>
      }
    }

    // One turn of run's loop.
    method Turn() returns (cancelled: bool, ok: bool)
      requires AtHead()
      modifies this, bw
      ensures old(done) ==> cancelled && ok && taken == old(taken) && log == old(log) && replied == old(replied)
      ensures Written(ok) && (cancelled ==> ok && done)
      ensures old(taken + queued) <= taken + queued
      ensures old(replied + sendCh) <= replied + sendCh
      ensures quiet ==> done == old(done)
      ensures quiet && old(queued) == 0 ==> queued == 0 && passed == old(passed)
      ensures |passed| <= |old(passed)| + 2
      ensures quiet && ok && !cancelled ==> queued == LeftAfterTurn(old(queued))
      ensures quiet && old(OnlyResponses()) && ok ==>
                replied == old(replied) + [old(sendCh)[0]] && sendCh == old(sendCh)[1..] && bw.buffered == []
    {
      cancelled, ok := false, true;
      Environment();
      if done {
        return true, true;
      }
      Environment();
      if queued > 0 {
        ok := Refill();
      } else {
        cancelled, ok := Wait();
      }
    }

    // The deferred flush on leaving the loop.
    method Leave(cancelled: bool) returns (exit: Exit)
      requires if cancelled then AtHead() else Counted(0) && Cut()
      modifies bw
      ensures Counted(0) && Cut() && exit == if cancelled then Cancelled else WriteError
      ensures cancelled ==> Whole(log, passed, replied) && sent == accepted
      ensures cancelled && !bw.broken ==> bw.buffered == [] && bw.emitted == Encoded(encode, log)
    {
      if cancelled {
        WholeIsShort(encode, log, passed, replied);
      }
      var flushed := bw.Flush();
      exit := if cancelled then Cancelled else WriteError;
    }

    // run, observed for any number of turns of its loop.
    method Run(turns: nat) returns (exit: Exit)
      requires AtHead()
      modifies this, bw
      ensures old(done) && turns > 0 ==>
                exit.Cancelled? && taken == old(taken) && log == old(log) && replied == old(replied)
      ensures exit.StillRunning? ==> AtHead()
      ensures exit.Cancelled? ==> Counted(0) && Cut() && Whole(log, passed, replied) && sent == accepted
      ensures exit.Cancelled? && !bw.broken ==> bw.buffered == [] && bw.emitted == Encoded(encode, log)
      ensures exit.WriteError? ==> Counted(0) && Cut()
      ensures old(taken + queued) <= taken + queued
      ensures old(replied + sendCh) <= replied + sendCh
      ensures quiet && !old(done) ==> !exit.Cancelled?
      ensures quiet && exit.StillRunning? && turns >= Rounds(old(queued)) ==> queued == 0
      ensures quiet ==> |passed| <= |old(passed)| + 2 * Rounds(old(queued))
    {
      var turn := 0;
      while turn < turns
        invariant AtHead()
        invariant turn <= turns
        invariant old(taken + queued) <= taken + queued && old(replied + sendCh) <= replied + sendCh
        invariant turn > 0 ==> !old(done)
        invariant turn == 0 ==>
                    done == old(done) && taken == old(taken) && log == old(log) && replied == old(replied)
        invariant quiet ==> done == old(done)
        invariant quiet ==> OnPace(old(queued), |old(passed)|, turn, queued, |passed|)
      {
        ghost var (q, p) := (queued, |passed|);
        var cancelled, ok := Turn();
        if quiet {
          NextOnPace(old(queued), |old(passed)|, turn, q, p, queued, |passed|);
        }
        if cancelled || !ok {
          exit := Leave(cancelled);
          return;
        }
        turn := turn + 1;
      }
      exit := StillRunning;
    }
  }

  // ---- what a client reads ---------------------------------------------------------------

  // With frp framing as the encoding, the logged bytes are the messages' frames in
  // order, so whatever a Cancelled or flushed writer has emitted reads back as its log.
  lemma {:induction false} LogIsFramed(c: Codec, log: seq<Message>)
    requires forall m | m in log :: Encode(c, m).Some?
    ensures Encoded((m: Message) => Encode(c, m), log) == EncodeAll(c, log)
  {
    if log != [] {
      var last := |log| - 1;
      LogIsFramed(c, log[..last]);
      EncodeAllAppend(c, log[..last], log[last]);
      assert log[..last] + [log[last]] == log;
    }
  }

  lemma {:induction false} EncodeAllAppend(c: Codec, ms: seq<Message>, m: Message)
    requires Encode(c, m).Some? && forall x | x in ms :: Encode(c, x).Some?
    ensures forall x | x in ms + [m] :: Encode(c, x).Some?
    ensures EncodeAll(c, ms + [m]) == EncodeAll(c, ms) + Encode(c, m).value
  {
    if ms == [] {
      assert EncodeAll(c, [m]) == Encode(c, m).value + EncodeAll(c, [m][1..]);
      assert ms + [m] == [m];
    } else {
      EncodeAllAppend(c, ms[1..], m);
      assert (ms + [m])[1..] == ms[1..] + [m];
    }
  }

  // A frame cut short is no message.
  lemma CutFrame(c: Codec, m: Message, part: seq<Byte>)
    requires Encode(c, m).Some? && |c.marshal(m).value| <= MAX_BODY_SIZE
    requires part <= Encode(c, m).value && |part| < |Encode(c, m).value|
    ensures Parse(c, part) == (Eof, [])
  {
    if |part| >= HEADER_SIZE {
      var frame := Encode(c, m).value;
      FrameParts(TypeOf(m).value, c.marshal(m).value, []);
      assert frame + [] == frame;
      assert part[1..HEADER_SIZE] == frame[1..HEADER_SIZE] && part[0] == frame[0];
      TypesInverse(m, 0);
    }
  }

  // How many messages have been emitted whole.
  ghost function EmittedWhole(c: Codec, log: seq<Message>, emitted: seq<Byte>): (k: nat)
    requires forall m | m in log :: Encode(c, m).Some?
    ensures k <= |log|
  {
    if log == [] || |emitted| < |Encode(c, log[0]).value| then 0
    else 1 + EmittedWhole(c, log[1..], emitted[|Encode(c, log[0]).value|..])
  }

  // A client reads k messages of the log, and then the end of the stream or a frame cut
  // short.
  ghost predicate ReadsAs(c: Codec, emitted: seq<Byte>, log: seq<Message>, k: nat)
    requires k <= |log|
  {
    var (read, rest) := ParseMany(c, emitted, k);
    read == AllOk(log[..k]) && Parse(c, rest) == (Eof, []) && (k == |log| ==> rest == [])
  }

  lemma ReadsOneMore(c: Codec, emitted: seq<Byte>, log: seq<Message>, k: nat, more: seq<Byte>)
    requires log != [] && k < |log| && Parse(c, emitted) == (Ok(log[0]), more) && ReadsAs(c, more, log[1..], k)
    ensures ReadsAs(c, emitted, log, k + 1)
  {
    ParseOne(c, emitted, k + 1, log[0], more);
    assert log[..k + 1][1..] == log[1..][..k];
  }

  lemma FrameThen(c: Codec, log: seq<Message>, emitted: seq<Byte>) returns (more: seq<Byte>)
    requires log != [] && forall m | m in log :: Encode(c, m).Some?
    requires emitted <= EncodeAll(c, log) && |emitted| >= |Encode(c, log[0]).value|
    ensures emitted == Encode(c, log[0]).value + more && more == emitted[|Encode(c, log[0]).value|..]
    ensures more <= EncodeAll(c, log[1..])
  {
    var frame := Encode(c, log[0]).value;
    var all, rest := EncodeAll(c, log), EncodeAll(c, log[1..]);
    more := emitted[|frame|..];
    assert all == frame + rest;
    assert emitted == all[..|emitted|];
    assert emitted[..|frame|] == frame;
    assert more == rest[..|more|];
  }

  lemma {:induction false} ClientReads(c: Codec, log: seq<Message>, emitted: seq<Byte>)
    requires Inverts(c)
    requires forall m | m in log :: Encode(c, m).Some? && |c.marshal(m).value| <= MAX_BODY_SIZE
    requires emitted <= EncodeAll(c, log)
    ensures ReadsAs(c, emitted, log, EmittedWhole(c, log, emitted))
  {
    if log != [] {
      var frame := Encode(c, log[0]).value;
      if |emitted| < |frame| {
        assert EncodeAll(c, log)[..|frame|] == frame;
        CutFrame(c, log[0], emitted);
      } else {
        var more := FrameThen(c, log, emitted);
        ClientReads(c, log[1..], more);
        RoundTrip(c, log[0], more);
        ReadsOneMore(c, emitted, log, EmittedWhole(c, log[1..], more), more);
      }
    }
  }

  // Of a writer's stream, cut short or not, a client reads a part of the log from its
  // start; of a flushed writer's, all of it.
  lemma ClientReadsLog(c: Codec, log: seq<Message>, emitted: seq<Byte>)
    requires Inverts(c)
    requires forall m | m in log :: Encode(c, m).Some? && |c.marshal(m).value| <= MAX_BODY_SIZE
    requires emitted <= Encoded((m: Message) => Encode(c, m), log)
    ensures ReadsAs(c, emitted, log, EmittedWhole(c, log, emitted))
    ensures emitted == Encoded((m: Message) => Encode(c, m), log) ==> EmittedWhole(c, log, emitted) == |log|
  {
    LogIsFramed(c, log);
    ClientReads(c, log, emitted);
    if emitted == EncodeAll(c, log) {
      AllEmitted(c, log);
    }
  }

  lemma {:induction false} AllEmitted(c: Codec, log: seq<Message>)
    requires forall m | m in log :: Encode(c, m).Some?
    ensures EmittedWhole(c, log, EncodeAll(c, log)) == |log|
  {
    if log != [] {
      var frame := Encode(c, log[0]).value;
      assert EncodeAll(c, log)[|frame|..] == EncodeAll(c, log[1..]);
      AllEmitted(c, log[1..]);
    }
  }

  // ---- what `sent` says of the wire ---------------------------------------------------------

  // Some ReqWorkConn is past the first k messages.
  ghost predicate CountAfter(log: seq<Message>, k: nat) {
    exists i :: k <= i < |log| && log[i].ReqWorkConn?
  }

  lemma CountAfterFront(log: seq<Message>, k: nat)
    requires k < |log|
    ensures CountAfter(log, k) <==> CountAfter(log[..|log| - 1], k) || log[|log| - 1].ReqWorkConn?
  {
    var n := |log| - 1;
    assert forall i | k <= i < n :: log[..n][i] == log[i];
  }

  lemma CountsOfFront(log: seq<Message>)
    requires log != [] && Bounded(Counts(log))
    ensures var (front, m) := (log[..|log| - 1], log[|log| - 1]);
            && Counts(log) == (if m.ReqWorkConn? then Counts(front) + [m.count] else Counts(front))
            && Bounded(Counts(front)) && (m.ReqWorkConn? ==> m.count >= 1)
  {
    var (front, m) := (log[..|log| - 1], log[|log| - 1]);
    if m.ReqWorkConn? {
      BoundedFront(Counts(front), m.count);
    }
  }

  lemma BoundedFront(ns: seq<int>, n: int)
    requires Bounded(ns + [n])
    ensures Bounded(ns) && n >= 1
  {
    assert (ns + [n])[|ns|] == n;
    assert forall i | 0 <= i < |ns| :: (ns + [n])[i] == ns[i];
  }

  // The Counts up to some message fall short of all of them exactly if a Count follows.
  lemma {:induction false} SumShort(log: seq<Message>, k: nat)
    requires k <= |log| && Bounded(Counts(log))
    ensures Sum(Counts(log[..k])) <= Sum(Counts(log))
    ensures Sum(Counts(log[..k])) == Sum(Counts(log)) <==> !CountAfter(log, k)
  {
    if k == |log| {
      assert log[..k] == log;
    } else {
      var front, m := log[..|log| - 1], log[|log| - 1];
      CountsOfFront(log);
      CountAfterFront(log, k);
      SumShort(front, k);
      assert front[..k] == log[..k];
      if m.ReqWorkConn? {
        SumAppended(Counts(front), m.count);
      }
    }
  }

  lemma {:induction false} EncodedAgrees(encode: Encoder, other: Encoder, log: seq<Message>)
    requires forall m | m in log :: encode(m) == other(m)
    ensures Encoded(encode, log) == Encoded(other, log)
  {
    if log != [] {
      EncodedAgrees(encode, other, log[..|log| - 1]);
    }
  }

  // At every loop head, `sent` is the number of signals whose message has left the buffer
  // whole if and only if no later message of the log is a ReqWorkConn; it is never less.
  lemma SentOnWireIff(w: Writer, c: Codec)
    requires w.AtHead() && forall m | m in w.log :: Encode(c, m).Some? && w.encode(m) == Encode(c, m)
    ensures w.bw.emitted <= EncodeAll(c, w.log)
    ensures var k := EmittedWhole(c, w.log, w.bw.emitted);
            && Sum(Counts(w.log[..k])) <= w.sent
            && (w.sent == Sum(Counts(w.log[..k])) <==> !CountAfter(w.log, k))
  {
    EncodedAgrees(w.encode, (m: Message) => Encode(c, m), w.log);
    LogIsFramed(c, w.log);
    SumShort(w.log, EmittedWhole(c, w.log, w.bw.emitted));
  }

  // One Count that the buffered writer took and has not passed on: `sent` is ahead of the
  // wire, without any failure.
  lemma SentAheadOfWire(w: Writer, c: Codec, n: int)
    requires w.AtHead() && w.log == [ReqWorkConn(n)] && w.bw.emitted == []
    requires Encode(c, ReqWorkConn(n)).Some?
    ensures EmittedWhole(c, w.log, w.bw.emitted) == 0 && w.sent == n > 0
  {
    Appended(w.encode, [], ReqWorkConn(n));
    assert [] + [ReqWorkConn(n)] == w.log && [] + [n] == w.passed;
    SumAppended([], n);
    assert w.passed[0] == n;
  }

  // After so many turns, from q0 signals and p0 Counts to q and p.
  predicate OnPace(q0: nat, p0: nat, turns: nat, q: nat, p: nat) {
    (q == 0 || q + 17 * turns <= q0) && p + 2 * Rounds(q) <= p0 + 2 * Rounds(q0)
  }

  // One turn more, or the part of one before a failure.
  lemma NextOnPace(q0: nat, p0: nat, turns: nat, q: nat, p: nat, r: nat, s: nat)
    requires OnPace(q0, p0, turns, q, p) && s <= p + 2 && (q == 0 ==> r == 0 && s == p)
    ensures s <= p0 + 2 * Rounds(q0)
    ensures r + 17 <= q || r == 0 ==> OnPace(q0, p0, turns + 1, r, s)
  {
  }

  // Turns of the fast path that take care of q signals at 17 or more a turn.
  function Rounds(q: nat): nat {
    (q + 16) / 17
  }
}
