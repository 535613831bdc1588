// The wire contract (include/new_mavlink/wire.hpp, src/wire.cpp).  Unsigned
// fixed-width integers are bit vectors of the same width, so wrap-around, shifts
// and truncation are the source's; byte lengths and clocks are integers.

module Wire {
  import opened Crc16

  datatype Option<+T> = None | Some(value: T)

  const HEADER_BYTES := 40
  const TAG_BYTES := 16
  const MAX_PAYLOAD_BYTES := 768
  const MAX_RECORD_BYTES := HEADER_BYTES + MAX_PAYLOAD_BYTES + TAG_BYTES

  const VERSION: bv8 := 1
  const FLAG_DELTA: bv8 := 0x01
  const FLAG_SNAPSHOT: bv8 := 0x04
  const KNOWN_FLAGS: bv8 := 0x0F

  // Message types.  Any byte can arrive in a header, so a type is a byte.
  const HELLO: bv8 := 1
  const ACCEPT: bv8 := 2
  const FINISH: bv8 := 3
  const SUBSCRIBE: bv8 := 4
  const RESYNC: bv8 := 5
  const UNSUBSCRIBE: bv8 := 6
  const HEARTBEAT: bv8 := 16
  const VEHICLE_STATE: bv8 := 17
  const POSITION: bv8 := 18
  const ATTITUDE: bv8 := 19
  const BATTERY: bv8 := 20
  const LINK_STATS: bv8 := 21
  const SAFETY_EVENT: bv8 := 22
  const FAILSAFE_EVENT: bv8 := 23
  const GEOFENCE_EVENT: bv8 := 24
  const COMMAND_REQUEST: bv8 := 48
  const COMMAND_ACK: bv8 := 49
  const COMMAND_RESULT: bv8 := 50
  const SCHEMA_MANIFEST: bv8 := 64
  const RATE_REPORT: bv8 := 65
  const DIAGNOSTIC_EVENT: bv8 := 66

  // Qualities of service.
  const CRITICAL_RELIABLE: bv8 := 0
  const COMMAND_RELIABLE: bv8 := 1
  const STATE_LATEST: bv8 := 2
  const EXPLICIT: bv8 := 5

  predicate StateType(t: bv8) {
    || t == VEHICLE_STATE || t == POSITION || t == ATTITUDE
    || t == BATTERY || t == LINK_STATS || t == RATE_REPORT
  }

  predicate CommandType(t: bv8) {
    t == COMMAND_REQUEST || t == COMMAND_ACK || t == COMMAND_RESULT
  }

  predicate ControlType(t: bv8) {
    || t == HELLO || t == ACCEPT || t == FINISH
    || t == SUBSCRIBE || t == UNSUBSCRIBE || t == RESYNC
  }

  predicate KnownType(t: bv8) {
    || ControlType(t) || StateType(t) || CommandType(t) || t == HEARTBEAT
    || t == SAFETY_EVENT || t == FAILSAFE_EVENT || t == GEOFENCE_EVENT
    || t == SCHEMA_MANIFEST || t == DIAGNOSTIC_EVENT
  }

  datatype RecordHeader = RecordHeader(
    version: bv8,
    flags: bv8,
    typ: bv8,
    qos: bv8,
    source: bv16,
    destination: bv16,
    sessionId: bv64,
    epoch: bv64,
    sequence: bv64,
    payloadLen: bv16,
    deadline: bv16,
    crc: bv16)

  /** A message or an opened record: its header and the bytes of its payload. */
  datatype NativeMessage = NativeMessage(header: RecordHeader, payload: Bytes)
}
