/** Response codes and reasons of the ASE Control Point, section 5 of ASCS v1.0. */
module AscsTypes {
  import opened Bytes

  const SUCCESS: byte := 0
  const UNSUPPORTED_OPCODE: byte := 1
  const INVALID_LENGTH: byte := 2
  const INVALID_ASE_ID: byte := 3
  const INVALID_TRANSITION: byte := 4
  const UNSUPPORTED_CONFIGURATION: byte := 7
  const INVALID_CONFIGURATION: byte := 9
  const UNSUPPORTED_METADATA: byte := 10

  const NOT_APPLICABLE: byte := 0
  const REASON_CODEC_SPECIFIC_CONFIGURATION: byte := 2
  const REASON_SDU_INTERVAL: byte := 3
  const REASON_FRAMING: byte := 4
  const REASON_PHY: byte := 5
  const REASON_MAX_SDU: byte := 6
  const REASON_MAX_TRANSPORT_LATENCY: byte := 8

  const CONFIG_CODEC: byte := 1
  const CONFIG_QOS: byte := 2
  const ENABLE: byte := 3
  const RECEIVER_START_READY: byte := 4
  const DISABLE: byte := 5
  const RECEIVER_STOP_READY: byte := 6
  const UPDATE_METADATA: byte := 7
  const RELEASE: byte := 8
  const OPCODE_MAX: byte := 10

  datatype Option<T> = None | Some(value: T)

  datatype Status = Status(aseId: byte, code: byte, reason: byte)
}
