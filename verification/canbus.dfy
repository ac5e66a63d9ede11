/**
 * CAN frames and the abstract transport of the NI-CAN driver.
 *
 * The driver calls `ncGetAttribute(NC_ATTR_STATE)`, `ncWaitForState` and
 * `ncRead` are replaced by a finite script of events: each state query or
 * wait takes the next event of the script. Frames handed to `ncWrite` are
 * recorded, in order, in the bus's `sent` log.
 */
module CanBus {

  /** AMB_DATA_MSG_SIZE: the payload capacity of one CAN frame. */
  const AmbDataMsgSize: nat := 8

  const Modulus32: int := 0x1_0000_0000

  type Byte = b: int | 0 <= b < 0x100

  /** An unsigned 32-bit value (NCTYPE_UINT32, and `unsigned` on the target). */
  type U32 = n: int | 0 <= n < 0x1_0000_0000

  /** A frame's DataLength field: 0 to AMB_DATA_MSG_SIZE bytes. */
  type DataLen = n: int | 0 <= n <= 8

  /** The fixed 8-byte Data array of a frame. */
  type Payload = s: seq<Byte> | |s| == 8 witness [0, 0, 0, 0, 0, 0, 0, 0]

  /**
   * NC_FL_CAN_ARBID_XTD: the flag the NI-CAN driver adds to an arbitration
   * id to mark it as a 29-bit extended id. Every id of this protocol is
   * this base plus an offset.
   */
  const ArbIdXtd: U32 := 0x2000_0000

  const NoData: Payload := [0, 0, 0, 0, 0, 0, 0, 0]

  /** Reduction to 32 bits, as unsigned C arithmetic does. */
  function Wrap32(x: int): (r: U32)
    ensures 0 <= x < Modulus32 ==> r == x
    ensures (x - r) % Modulus32 == 0
  {
    x % Modulus32
  }

  /** NCTYPE_CAN_FRAME / NCTYPE_CAN_STRUCT, without the receive timestamp and frame type. */
  datatype Frame = Frame(arbId: U32, isRemote: bool, dataLength: DataLen, data: Payload)

  /** A frame structure after `memset(.., 0, ..)`. */
  const ZeroFrame: Frame := Frame(0, false, 0, NoData)

  /**
   * The arbitration id of a request to the node at `address`: the extended
   * base plus the address, stored in the 32-bit ArbitrationId field.
   */
  function RequestId(address: U32): (id: U32)
    ensures address < Modulus32 - ArbIdXtd ==> id == ArbIdXtd + address
    ensures address >= Modulus32 - ArbIdXtd ==> id == ArbIdXtd + address - Modulus32
  {
    Wrap32(ArbIdXtd + address)
  }

  /** What one `ncRead` returns: a frame, or a failure status. */
  datatype ReadResult = Got(frame: Frame) | ReadFault

  /**
   * What one state query or wait observes.
   *  - Ready(read): the state asked about holds (the wait returned a
   *    non-negative status, or the state attribute equals it). When that
   *    state is READ_AVAIL the caller reads next, and `read` is what that
   *    read returns; a wait for WRITE_SUCCESS reads nothing and ignores it.
   *  - NotReady: the attribute reports another state, or the wait failed,
   *    timed out, or threw (the code maps a thrown exception to -1).
   */
  datatype Event = Ready(read: ReadResult) | NotReady

  /**
   * The transport's behaviour from now on. Past its end the transport is
   * silent: every query and every wait observes NotReady.
   */
  type Script = seq<Event>

  /** The event the next query or wait observes. */
  function Next(s: Script): Event {
    if |s| == 0 then NotReady else s[0]
  }

  /** The script left once the next query or wait has happened. */
  function Later(s: Script): (rest: Script)
    ensures |s| > 0 ==> |rest| == |s| - 1
  {
    if |s| == 0 then [] else s[1..]
  }

  /** The transport behind one open handle: pending observations and frames written so far. */
  datatype Bus = Bus(script: Script, sent: seq<Frame>)

  /** `ncWrite`: the frame is put on the bus. Its status is never acted upon. */
  function Transmit(bus: Bus, f: Frame): (r: Bus)
    ensures r.script == bus.script
    ensures |r.sent| == |bus.sent| + 1 && r.sent[|bus.sent|] == f
    ensures r.sent[..|bus.sent|] == bus.sent
  {
    Bus(bus.script, bus.sent + [f])
  }
}
