/** ICMP frames and their bytes, include/lib/icmp.h. */
module Wire {
  type byte = x: int | 0 <= x < 256

  const TYPE_COMMAND: byte := 1
  const TYPE_RESPONSE: byte := 2
  const TYPE_NOTIFY: byte := 3
  const TYPE_HEARTBEAT: byte := 4
  const TYPE_INVALID: byte := 5

  /** The dummy message id of NOTIFY frames. */
  const NOTIFY_MSG_ID: byte := 255

  /** A frame as a value: the payload is the used part of the payload array, and its size is the
      length field. */
  datatype Frame = Frame(kind: byte, msgId: byte, target: byte, payload: seq<byte>)
}
