// How many refill signals go into one message, by the length of reqCh: the tuning of
// internal/server/control_writer.go.
module Batching {
  const REQ_CH_SIZE := 2048
  const BATCH_MAX := 128
  const BATCH_MID := 64
  const BATCH_LOW := 16
  const BACKLOG_HIGH := 512
  const BACKLOG_MID := 128

  function BatchLimit(queued: nat): nat {
    if queued >= BACKLOG_HIGH then BATCH_MAX
    else if queued >= BACKLOG_MID then BATCH_MID
    else BATCH_LOW
  }

  // What one undisturbed turn of the fast path leaves of a backlog: 129 signals go from
  // above 512, 65 from above 128, otherwise 17 or all there are.
  function LeftAfterTurn(queued: nat): nat {
    if queued > 512 then queued - 129
    else if queued > 128 then queued - 65
    else if queued > 17 then queued - 17
    else 0
  }
}
