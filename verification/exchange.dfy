/**
 * The two per-message exchanges: monitorImpl (request, then wait for the
 * reply whose arbitration id matches) and commandImpl (write, then wait
 * for the write to be acknowledged). Both report through the caller's
 * completion record and write only the slots the caller supplied.
 */
module Exchange {
  import opened Wrappers
  import opened CanBus
  import opened ReadBuffer

  /** AmbErr_t codes. Only the first three are written here; OtherErr stands for whatever the caller left in a slot. */
  datatype AmbErr = NoErr | WriteErr | Timeout | OtherErr(code: int)

  /** The caller's data buffer: at least AMB_DATA_MSG_SIZE bytes. */
  type Buffer = s: seq<Byte> | |s| >= 8 witness [0, 0, 0, 0, 0, 0, 0, 0]

  /**
   * AmbCompletion_t: three independent output slots. None is a null
   * address (the caller does not want that field); Some holds the current
   * contents of the caller's variable.
   */
  datatype Completion = Completion(status: Option<AmbErr>, dataLength: Option<nat>, data: Option<Buffer>)

  /** The fields of AmbMessage_t the exchanges read. */
  datatype AmbMessage = AmbMessage(address: U32, dataLen: DataLen, data: Payload)

  /** `*slot = v` guarded by `if (slot)`. */
  function Store<T>(slot: Option<T>, v: T): Option<T>
  {
    if slot.Some? then Some(v) else None
  }

  /** Each slot of `c'` is supplied exactly when it is supplied in `c`. */
  ghost predicate SameSlots(c: Completion, c': Completion)
  {
    && c'.status.Some? == c.status.Some?
    && c'.dataLength.Some? == c.dataLength.Some?
    && c'.data.Some? == c.data.Some?
  }

  /**
   * The completion of a matched monitor request: the reply's length, the
   * first `dataLength` bytes of its payload (later bytes of the caller's
   * buffer untouched) and a good status.
   */
  ghost predicate FilledWithReply(c: Completion, reply: Frame, c': Completion)
  {
    && SameSlots(c, c')
    && (c.status.Some? ==> c'.status == Some(NoErr))
    && (c.dataLength.Some? ==> c'.dataLength == Some(reply.dataLength))
    && (c.data.Some? ==>
          && |c'.data.value| == |c.data.value|
          && (forall i | 0 <= i < reply.dataLength :: c'.data.value[i] == reply.data[i])
          && (forall i | reply.dataLength <= i < |c.data.value| :: c'.data.value[i] == c.data.value[i]))
  }

  /**
   * The completion of a timed-out monitor request: length 0, the first
   * AMB_DATA_MSG_SIZE bytes of the buffer zeroed, a timeout status.
   */
  ghost predicate FilledWithTimeout(c: Completion, c': Completion)
  {
    && SameSlots(c, c')
    && (c.status.Some? ==> c'.status == Some(Timeout))
    && (c.dataLength.Some? ==> c'.dataLength == Some(0))
    && (c.data.Some? ==>
          && |c'.data.value| == |c.data.value|
          && (forall i | 0 <= i < AmbDataMsgSize :: c'.data.value[i] == 0)
          && (forall i | AmbDataMsgSize <= i < |c.data.value| :: c'.data.value[i] == c.data.value[i]))
  }

  /** How the monitor loop ended: on a reply with the request's id, or on a failed wait. */
  datatype Outcome = Matched(reply: Frame) | TimedOut

  /** The monitor loop's result: its outcome, how many frames it read, and the script left. */
  datatype Awaited = Awaited(outcome: Outcome, readCount: nat, rest: Script)

  /** The response buffer after one event: a successful read overwrites it, anything else leaves it. */
  function Latch(buf: Frame, e: Event): Frame
  {
    if e.Ready? && e.read.Got? then e.read.frame else buf
  }

  /** The response buffer after the events `evs`, starting from `buf`. */
  function Held(buf: Frame, evs: seq<Event>): Frame
    decreases |evs|
  {
    if |evs| == 0 then buf else Held(Latch(buf, evs[0]), evs[1..])
  }

  /**
   * The monitor loop's contract, stated over the script it ran on: every
   * event it consumed before the last was a successful wait whose buffered
   * reply did not carry the request id `q` (and was discarded); the loop
   * ended either on the first reply that did carry `q`, or on the first
   * failed wait.
   */
  ghost predicate Correlates(s: Script, q: U32, buf: Frame, r: Awaited)
  {
    && r.readCount <= |s|
    && (forall i | 0 <= i < r.readCount :: s[i].Ready?)
    && (forall i | 1 <= i < r.readCount :: Held(buf, s[..i]).arbId != q)
    && match r.outcome
       case Matched(f) =>
         && 1 <= r.readCount
         && f == Held(buf, s[..r.readCount])
         && f.arbId == q
         && r.rest == s[r.readCount..]
       case TimedOut =>
         && (r.readCount < |s| ==> s[r.readCount].NotReady?)
         && (1 <= r.readCount ==> Held(buf, s[..r.readCount]).arbId != q)
         && r.rest == AfterRun(s, r.readCount)
  }

  lemma {:induction false} HeldShift(buf: Frame, s: Script, i: nat)
    requires 1 <= i <= |s|
    ensures Held(buf, s[..i]) == Held(Latch(buf, s[0]), s[1..][..i - 1])
  {
    assert s[..i][0] == s[0];
    assert s[..i][1..] == s[1..][..i - 1];
  }

  lemma HeldShiftAll(buf: Frame, s: Script)
    requires 1 <= |s|
    ensures forall i | 1 <= i <= |s| :: Held(buf, s[..i]) == Held(Latch(buf, s[0]), s[1..][..i - 1])
  {
    forall i | 1 <= i <= |s|
      ensures Held(buf, s[..i]) == Held(Latch(buf, s[0]), s[1..][..i - 1])
    {
      HeldShift(buf, s, i);
    }
  }

  /**
   * The `while (!success && !timeout)` loop of monitorImpl: wait; on
   * failure time out; otherwise read into the response buffer `buf`, and
   * stop if the buffer now carries the request id `q`, else wait again.
   */
  function AwaitReply(s: Script, q: U32, buf: Frame): (r: Awaited)
    ensures Correlates(s, q, buf, r)
    decreases |s|
  {
    match Next(s)
    case NotReady => Awaited(TimedOut, 0, Later(s))
    case Ready(_) =>
      var held := Latch(buf, s[0]);
      HeldShiftAll(buf, s);
      assert Held(buf, s[..1]) == held;
      if held.arbId == q then
        Awaited(Matched(held), 1, s[1..])
      else
        var tail := AwaitReply(s[1..], q, held);
        assert tail.rest == s[1..][tail.readCount..] ==> tail.rest == s[tail.readCount + 1..];
        Awaited(tail.outcome, tail.readCount + 1, tail.rest)
  }

  /**
   * The correlation contract leaves no freedom: on a given script, request
   * id and starting buffer, one loop result satisfies it.
   */
  lemma CorrelatesUnique(s: Script, q: U32, buf: Frame, a: Awaited, b: Awaited)
    requires Correlates(s, q, buf, a) && Correlates(s, q, buf, b)
    ensures a == b
  {
  }

  /**
   * A reply carrying another id is discarded and the loop keeps waiting:
   * the outcome is that of the remaining script, one read later.
   */
  lemma ForeignReplyDiscarded(g: Frame, s: Script, q: U32, buf: Frame)
    requires g.arbId != q
    ensures AwaitReply([Ready(Got(g))] + s, q, buf).outcome == AwaitReply(s, q, g).outcome
    ensures AwaitReply([Ready(Got(g))] + s, q, buf).readCount == AwaitReply(s, q, g).readCount + 1
    ensures AwaitReply([Ready(Got(g))] + s, q, buf).rest == AwaitReply(s, q, g).rest
  {
    assert ([Ready(Got(g))] + s)[1..] == s;
  }

  /** The completion writes that follow the monitor loop. */
  function Complete(c: Completion, outcome: Outcome): (c': Completion)
    ensures outcome.Matched? ==> FilledWithReply(c, outcome.reply, c')
    ensures outcome.TimedOut? ==> FilledWithTimeout(c, c')
  {
    match outcome
    case Matched(f) =>
      var data: Option<Buffer> :=
        if c.data.Some? then Some(f.data[..f.dataLength] + c.data.value[f.dataLength..]) else None;
      Completion(Store(c.status, NoErr), Store(c.dataLength, f.dataLength), data)
    case TimedOut =>
      var data: Option<Buffer> :=
        if c.data.Some? then Some(NoData + c.data.value[AmbDataMsgSize..]) else None;
      Completion(Store(c.status, Timeout), Store(c.dataLength, 0), data)
  }

  /** The monitor request: the node's id, no payload, not a remote frame. */
  function MonitorRequest(address: U32): Frame
  {
    Frame(RequestId(address), false, 0, NoData)
  }

  datatype Monitored = Monitored(reply: Awaited, completion: Completion, bus: Bus)

  /**
   * monitorImpl: flush stale frames, write the request, run the
   * correlation loop on what the transport delivers next, and fill the
   * completion from its outcome.
   */
  function Monitor(bus: Bus, msg: AmbMessage, c: Completion): (r: Monitored)
    ensures r.bus.sent == bus.sent + [Frame(RequestId(msg.address), false, 0, NoData)]
    ensures Correlates(Flush(bus.script).rest, RequestId(msg.address), ZeroFrame, r.reply)
    ensures r.bus.script == r.reply.rest
    ensures r.reply.outcome.Matched? ==> r.reply.outcome.reply.arbId == RequestId(msg.address)
    ensures r.reply.outcome.Matched? ==> FilledWithReply(c, r.reply.outcome.reply, r.completion)
    ensures r.reply.outcome.TimedOut? ==> FilledWithTimeout(c, r.completion)
  {
    var flushed := Flush(bus.script);
    var request := MonitorRequest(msg.address);
    var reply := AwaitReply(flushed.rest, request.arbId, ZeroFrame);
    Monitored(reply, Complete(c, reply.outcome), Bus(reply.rest, bus.sent + [request]))
  }

  /**
   * The command frame: the node's id, `dataLen` bytes of the message's
   * payload followed by zeros, not a remote frame.
   */
  function CommandFrame(msg: AmbMessage): (f: Frame)
    ensures f.arbId == RequestId(msg.address)
    ensures !f.isRemote
    ensures f.dataLength == msg.dataLen
    ensures forall i | 0 <= i < msg.dataLen :: f.data[i] == msg.data[i]
    ensures forall i | msg.dataLen <= i < AmbDataMsgSize :: f.data[i] == 0
  {
    Frame(RequestId(msg.address), false, msg.dataLen, msg.data[..msg.dataLen] + NoData[msg.dataLen..])
  }

  datatype Commanded = Commanded(completion: Completion, bus: Bus)

  /**
   * commandImpl: write the frame, wait for WRITE_SUCCESS, and report the
   * wait's status; the write's own status is overwritten by the wait's.
   */
  function Command(bus: Bus, msg: AmbMessage, c: Completion): (r: Commanded)
    ensures r.bus.sent == bus.sent + [CommandFrame(msg)]
    ensures |bus.script| > 0 ==> r.bus.script == bus.script[1..]
    ensures |bus.script| == 0 ==> r.bus.script == []
    ensures r.completion.data == c.data && r.completion.dataLength == c.dataLength
    ensures c.status.None? ==> r.completion.status.None?
    ensures c.status.Some? ==>
      (r.completion.status == Some(NoErr) <==> |bus.script| > 0 && bus.script[0].Ready?)
    ensures c.status.Some? ==>
      (r.completion.status == Some(WriteErr) <==> |bus.script| == 0 || bus.script[0].NotReady?)
  {
    var written := Transmit(bus, CommandFrame(msg));
    var acked := Next(written.script).Ready?;
    Commanded(c.(status := Store(c.status, if acked then NoErr else WriteErr)), Bus(Later(written.script), written.sent))
  }

  /**
   * An exchange on a busy bus: the read buffer is empty, a reply from
   * another node arrives first and is skipped, then the node answers with
   * four bytes. Every supplied slot reports that answer.
   */
  lemma MonitorSkipsForeignThenMatches(bus: Bus, msg: AmbMessage, foreign: Frame, tail: Script, buffer: Buffer)
    requires foreign.arbId != RequestId(msg.address)
    requires bus.script == [NotReady, Ready(Got(foreign)),
                            Ready(Got(Frame(RequestId(msg.address), false, 4, [1, 2, 3, 4, 0, 0, 0, 0])))] + tail
    ensures var r := Monitor(bus, msg, Completion(Some(OtherErr(-1)), Some(9), Some(buffer)));
      && r.completion.status == Some(NoErr)
      && r.completion.dataLength == Some(4)
      && r.completion.data.value[..4] == [1, 2, 3, 4]
      && r.completion.data.value[4..] == buffer[4..]
      && r.bus.script == tail
  {
    var s := bus.script;
    assert Flush(s).rest == s[1..];
    var q := RequestId(msg.address);
    ForeignReplyDiscarded(foreign, s[2..], q, ZeroFrame);
    assert [Ready(Got(foreign))] + s[2..] == s[1..];
    assert s[2..][1..] == tail;
  }
}
