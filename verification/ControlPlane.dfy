// The control sessions of internal/server as a system of goroutines: logins
// (handleLogin), the writer each login starts (sendLoop), and the pools' refill
// callers (ReqWorkConnFunc), all sharing controlManager and ReqWorkConnStats.
module ControlPlane {
  import opened Wrappers
  import opened Batching

  type RunId = string

  // One login's channels and context: the length of reqCh and whether ctx is done; how
  // many signals its writer has taken, and how many the login wants to bootstrap.
  datatype Session = Session(run: RunId, queued: nat, cancelled: bool, registered: bool, taken: nat, wanted: nat)

  datatype Stats = Stats(requested: nat, enqueued: nat, dropped: nat, sent: nat, inflight: int)

  // Observers: the last session registered for each run, and how often a Remove for a
  // run was done by a session that was not the current entry.
  datatype History = History(latest: map<RunId, nat>, stale: map<RunId, nat>)

  datatype Shared = Shared(entries: map<RunId, nat>, sessions: seq<Session>, stats: Stats, history: History)

  datatype Pc =
      // ReqWorkConnFunc
    | Lookup(run: RunId) | CountRequested(k: nat) | Offer(k: nat) | CountEnqueued(k: nat)
    | CountInflight(k: nat) | CountDropped(k: nat) | CallerDone
      // handleLogin: bootstrapReqWorkConn, Register, controlLoop, cleanupControlSession
    | Boot(k: nat, left: nat) | BootEnqueued(k: nat, left: nat) | BootInflight(k: nat, left: nat)
    | BootSend(k: nat, left: nat) | Registering(k: nat) | Serving(k: nat)
    | Cancelling(k: nat) | Removing(k: nat) | Cleaned(k: nat)
      // the writer
    | Head(k: nat) | Fast(k: nat) | Select(k: nat) | Other(k: nat)
    | WriteSent(k: nat, n: nat, first: bool) | WriteInflight(k: nat, n: nat, first: bool)
    | WriteOut(k: nat, n: nat, first: bool)
    | Limit(k: nat) | Batch(k: nat, limit: nat, batch: nat) | WriterExited(k: nat)

  datatype System = System(g: Shared, threads: seq<Pc>)

  // How a select or a write turns out where it can go more than one way: the ordinary
  // way, the done channel, another ready channel, or a write error.
  datatype Choice = Plain | Done | Aside | Fail

  datatype Action = Login(run: RunId, poolCount: int) | Call(run: RunId) | Run(i: nat, choice: Choice)

  function New(): System {
    System(Shared(map[], [], Stats(0, 0, 0, 0, 0), History(map[], map[])), [])
  }

  // The session a goroutine belongs to or has looked up.
  function SessionOf(p: Pc): Option<nat> {
    if p.Lookup? || p.CallerDone? then None else Some(p.k)
  }

  predicate InRange(g: Shared, p: Pc) {
    SessionOf(p).Some? ==> SessionOf(p).value < |g.sessions|
  }

  function SetQueued(g: Shared, k: nat, n: nat): Shared
    requires k < |g.sessions|
  {
    g.(sessions := g.sessions[k := g.sessions[k].(queued := n)])
  }

  // The writer receives from reqCh.
  function TakeSignal(g: Shared, k: nat): Shared
    requires k < |g.sessions| && g.sessions[k].queued > 0
  {
    var x := g.sessions[k];
    g.(sessions := g.sessions[k := x.(queued := x.queued - 1, taken := x.taken + 1)])
  }

  function Cancel(ss: seq<Session>, k: nat): seq<Session> {
    if k < |ss| then ss[k := ss[k].(cancelled := true)] else ss
  }

  // controlManager.Register: cancel the old entry, install the new one.
  function Register(g: Shared, k: nat): Shared
    requires k < |g.sessions|
  {
    var r := g.sessions[k].run;
    var ss := if r in g.entries then Cancel(g.sessions, g.entries[r]) else g.sessions;
    Shared(g.entries[r := k], ss[k := ss[k].(registered := true)], g.stats,
           g.history.(latest := g.history.latest[r := k]))
  }

  function Stale(h: History, r: RunId): nat {
    if r in h.stale then h.stale[r] else 0
  }

  // controlManager.Remove, called for session k: whatever entry the run has goes.
  function Remove(g: Shared, k: nat): Shared
    requires k < |g.sessions|
  {
    var r := g.sessions[k].run;
    var h := if r in g.entries && g.entries[r] != k
             then g.history.(stale := g.history.stale[r := Stale(g.history, r) + 1]) else g.history;
    g.(entries := g.entries - {r}, history := h)
  }

  // ReqWorkConnFunc's closure and SendReqWorkConn.
  predicate InCall(p: Pc) {
    p.Lookup? || p.CountRequested? || p.Offer? || p.CountEnqueued? || p.CountInflight? || p.CountDropped?
  }

  predicate CanCall(g: Shared, p: Pc, c: Choice)
    requires InRange(g, p)
  {
    InCall(p) &&
    if p.Offer? then
      (c.Plain? && g.sessions[p.k].queued < REQ_CH_SIZE) || (c.Done? && g.sessions[p.k].cancelled)
    else c.Plain?
  }

  function MoveCall(g: Shared, p: Pc, c: Choice): (Shared, Pc)
    requires InRange(g, p) && CanCall(g, p, c)
  {
    match p
    case Lookup(r) => (g, if r in g.entries then CountRequested(g.entries[r]) else CallerDone)
    case CountRequested(k) => (g.(stats := g.stats.(requested := g.stats.requested + 1)), Offer(k))
    case Offer(k) =>
      if c.Plain? then (SetQueued(g, k, g.sessions[k].queued + 1), CountEnqueued(k)) else (g, CountDropped(k))
    case CountEnqueued(k) => (g.(stats := g.stats.(enqueued := g.stats.enqueued + 1)), CountInflight(k))
    case CountInflight(k) => (g.(stats := g.stats.(inflight := g.stats.inflight + 1)), CallerDone)
    case CountDropped(k) => (g.(stats := g.stats.(dropped := g.stats.dropped + 1)), CallerDone)
  }

  // handleLogin from bootstrapReqWorkConn on. Serving may end at any time.
  predicate InLogin(p: Pc) {
    p.Boot? || p.BootEnqueued? || p.BootInflight? || p.BootSend? || p.Registering? || p.Serving? ||
    p.Cancelling? || p.Removing?
  }

  predicate CanLogin(g: Shared, p: Pc, c: Choice)
    requires InRange(g, p)
  {
    InLogin(p) && c.Plain? && (p.BootSend? ==> g.sessions[p.k].queued < REQ_CH_SIZE)
  }

  function MoveLogin(g: Shared, p: Pc, c: Choice): (Shared, Pc)
    requires InRange(g, p) && CanLogin(g, p, c)
  {
    match p
    case Boot(k, left) =>
      if left == 0 then (g, Registering(k))
      else (g.(stats := g.stats.(requested := g.stats.requested + 1)), BootEnqueued(k, left))
    case BootEnqueued(k, left) =>
      (g.(stats := g.stats.(enqueued := g.stats.enqueued + 1)), BootInflight(k, left))
    case BootInflight(k, left) =>
      (g.(stats := g.stats.(inflight := g.stats.inflight + 1)), BootSend(k, left))
    case BootSend(k, left) =>
      (SetQueued(g, k, g.sessions[k].queued + 1), Boot(k, if left > 0 then left - 1 else 0))
    case Registering(k) => (Register(g, k), Serving(k))
    case Serving(k) => (g, Cancelling(k))
    case Cancelling(k) => (g.(sessions := Cancel(g.sessions, k)), Removing(k))
    case Removing(k) => (Remove(g, k), Cleaned(k))
  }

  // controlWriter.run; its writes may fail. A response can only be ready once the session
  // has its message loop, and the flush timer only runs once a signal was written.
  predicate InWriter(p: Pc) {
    p.Head? || p.Fast? || p.Select? || p.Other? || p.WriteSent? || p.WriteInflight? || p.WriteOut? ||
    p.Limit? || p.Batch?
  }

  // A full batch of the upper two buckets is flushed once it is written, and that flush may
  // fail although WriteMsg took the message: the choice Aside at WriteOut.
  predicate FlushesAtOnce(n: nat, first: bool) {
    !first && (n == BATCH_MID || n == BATCH_MAX)
  }

  predicate CanWrite(g: Shared, p: Pc, c: Choice)
    requires InRange(g, p)
  {
    InWriter(p) &&
    match p
    case Select(k) =>
      || (c.Aside? && (g.sessions[k].registered || g.sessions[k].taken > 0))
      || (c.Plain? && g.sessions[k].queued > 0)
      || (c.Done? && g.sessions[k].cancelled)
    case Other(_) => c.Plain? || c.Fail?
    case WriteOut(_, n, first) => c.Plain? || c.Fail? || (c.Aside? && FlushesAtOnce(n, first))
    case _ => c.Plain?
  }

  function MoveWriter(g: Shared, p: Pc, c: Choice): (Shared, Pc)
    requires InRange(g, p) && CanWrite(g, p, c)
  {
    match p
    case Head(k) => (g, if g.sessions[k].cancelled then WriterExited(k) else Fast(k))
    case Fast(k) =>
      var q := g.sessions[k].queued;
      if q > 0 then (TakeSignal(g, k), WriteSent(k, 1, true)) else (g, Select(k))
    case Select(k) =>
      if c.Plain? then (TakeSignal(g, k), WriteSent(k, 1, true))
      else (g, if c.Done? then WriterExited(k) else Other(k))
    case Other(k) => (g, if c.Fail? then WriterExited(k) else Head(k))
    case WriteSent(k, n, first) =>
      (g.(stats := g.stats.(sent := g.stats.sent + n)), WriteInflight(k, n, first))
    case WriteInflight(k, n, first) =>
      (g.(stats := g.stats.(inflight := g.stats.inflight - n)), WriteOut(k, n, first))
    case WriteOut(k, n, first) =>
      (g, if !c.Plain? then WriterExited(k) else if first then Limit(k) else Head(k))
    case Limit(k) => (g, Batch(k, BatchLimit(g.sessions[k].queued), 0))
    case Batch(k, limit, b) =>
      var q := g.sessions[k].queued;
      if b < limit && q > 0 then (TakeSignal(g, k), Batch(k, limit, b + 1))
      else (g, if b == 0 then Head(k) else WriteSent(k, b, false))
  }

  predicate CanMove(g: Shared, p: Pc, c: Choice) {
    InRange(g, p) && (CanCall(g, p, c) || CanLogin(g, p, c) || CanWrite(g, p, c))
  }

  function Move(g: Shared, p: Pc, c: Choice): (Shared, Pc)
    requires CanMove(g, p, c)
  {
    if InCall(p) then MoveCall(g, p, c)
    else if InLogin(p) then MoveLogin(g, p, c)
    else MoveWriter(g, p, c)
  }

  predicate Enabled(s: System, a: Action) {
    a.Run? ==> a.i < |s.threads| && CanMove(s.g, s.threads[a.i], a.choice)
  }

  // A negative pool count bootstraps nothing.
  function Next(s: System, a: Action): System
    requires Enabled(s, a)
  {
    match a
    case Login(r, poolCount) =>
      var k := |s.g.sessions|;
      var wanted := if poolCount > 0 then poolCount else 0;
      System(s.g.(sessions := s.g.sessions + [Session(r, 0, false, false, 0, wanted)]),
             s.threads + [Boot(k, wanted), Head(k)])
    case Call(r) => System(s.g, s.threads + [Lookup(r)])
    case Run(i, c) =>
      var (g, p) := Move(s.g, s.threads[i], c);
      System(g, s.threads[i := p])
  }

  function After(s: System, acts: seq<Action>): Option<System> {
    if acts == [] then Some(s)
    else
      match After(s, acts[..|acts| - 1])
      case None => None
      case Some(t) =>
        var a := acts[|acts| - 1];
        if Enabled(t, a) then Some(Next(t, a)) else None
  }
}
