/** The sizes that every party of the protocol agrees on. */
module Limits {
  const HEADER_BYTES: nat := 5
  const MAX_FRAME_BYTES: nat := 128 * 1024
  const MAX_PAYLOAD_BYTES: nat := MAX_FRAME_BYTES - HEADER_BYTES
  const MAX_RESPONSE_CREDITS := 64
  const QUEUE_FRAMES := 16
  /** Late frames that a removed upload may still send. */
  const TRAILING_FRAMES := QUEUE_FRAMES
}
