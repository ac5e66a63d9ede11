/**
 * findChannelNodes: broadcast a presence request on an open channel and
 * collect every reply, until a wait fails, as the channel's node list.
 */
module NodeDiscovery {
  import opened CanBus
  import opened ReadBuffer
  import opened ChannelRegistry

  /** Arbitration-id distance between consecutive node slots. */
  const NodeIdStride: U32 := 0x40000

  /**
   * The node id of a reply: `(ArbitrationId - NC_FL_CAN_ARBID_XTD) /
   * 0x40000U - 1U`, every step in unsigned 32-bit arithmetic.
   */
  function NodeIdOf(arbId: U32): (n: U32)
    ensures n == 0xFFFF_FFFF || n < Modulus32 / NodeIdStride - 1
  {
    Wrap32(Wrap32(arbId - ArbIdXtd) / NodeIdStride - 1)
  }

  /** A reply from node slot `n`, at offset `k` inside that slot, decodes to `n`. */
  lemma DecodeSlot(n: nat, k: nat)
    requires k < NodeIdStride
    requires ArbIdXtd + (n + 1) * NodeIdStride + k < Modulus32
    ensures NodeIdOf(ArbIdXtd + (n + 1) * NodeIdStride + k) == n
  {
    var offset := (n + 1) * NodeIdStride + k;
    assert Wrap32(ArbIdXtd + offset - ArbIdXtd) == offset;
    assert offset / NodeIdStride == n + 1;
  }

  /** A reply in the slot below node 0 wraps around to 0xFFFFFFFF. */
  lemma DecodeBelowFirstSlot(arbId: U32)
    requires ArbIdXtd <= arbId < ArbIdXtd + NodeIdStride
    ensures NodeIdOf(arbId) == 0xFFFF_FFFF
  {
    assert Wrap32(arbId - ArbIdXtd) / NodeIdStride == 0;
  }

  /** addNode(channel, nodeId, response.Data): the serial number is the whole 8-byte payload. */
  function Announce(f: Frame): NodeRecord
  {
    NodeRecord(NodeIdOf(f.arbId), f.data)
  }

  /** One record per successful read among `evs`, in arrival order; failed reads add nothing. */
  function Announcements(evs: seq<Event>): seq<NodeRecord>
    decreases |evs|
  {
    if |evs| == 0 then []
    else
      (if evs[0].Ready? && evs[0].read.Got? then [Announce(evs[0].read.frame)] else [])
      + Announcements(evs[1..])
  }

  /** The discovery loop's result: records gathered, successful waits, script left. */
  datatype Drained = Drained(nodes: seq<NodeRecord>, readCount: nat, rest: Script)

  /**
   * The discovery loop's contract, stated over the script it ran on: it
   * consumed the run of successful waits that opens `s` and the failed
   * wait that ended it, and `r.nodes` holds one record per successful
   * read of that run, in arrival order.
   */
  ghost predicate Drains(s: Script, r: Drained)
  {
    && IsReadyRun(s, r.readCount)
    && r.rest == AfterRun(s, r.readCount)
    && r.nodes == Announcements(s[..r.readCount])
  }

  /**
   * The `while (!done)` loop of findChannelNodes: wait up to 200 ms; on
   * failure stop; otherwise read, and add a record when the read succeeds.
   */
  function Gather(s: Script): (r: Drained)
    ensures Drains(s, r)
    decreases |s|
  {
    match Next(s)
    case NotReady => Drained([], 0, Later(s))
    case Ready(read) =>
      var tail := Gather(s[1..]);
      var first := if read.Got? then [Announce(read.frame)] else [];
      assert s[..tail.readCount + 1][1..] == s[1..][..tail.readCount];
      Drained(first + tail.nodes, tail.readCount + 1, tail.rest)
  }

  /** The broadcast request: the bare extended base id, no payload, not a remote frame. */
  const Broadcast: Frame := Frame(ArbIdXtd, false, 0, NoData)

  datatype Discovered = Discovered(reg: Registry, bus: Bus)

  /**
   * findChannelNodes: nothing happens on a closed channel. On an open one
   * the node list is cleared, the read buffer flushed, the broadcast
   * written, and the list rebuilt from the replies.
   */
  function FindChannelNodes(reg: Registry, c: Channel, bus: Bus): (r: Discovered)
    ensures !IsOpen(reg, c) ==> r == Discovered(reg, bus)
    ensures IsOpen(reg, c) ==>
      var g := Gather(Flush(bus.script).rest);
      && r.bus == Bus(g.rest, bus.sent + [Broadcast])
      && Nodes(r.reg, c) == g.nodes
      && IsOpen(r.reg, c) && HandleOf(r.reg, c) == HandleOf(reg, c)
      && (forall d | d != c :: Lookup(r.reg, d) == Lookup(reg, d))
  {
    if !IsOpen(reg, c) then Discovered(reg, bus)
    else
      var cleared := Put(reg, c, Lookup(reg, c).(nodes := []));
      var flushed := Flush(bus.script);
      var sent := bus.sent + [Broadcast];
      var g := Gather(flushed.rest);
      Discovered(Put(cleared, c, Lookup(cleared, c).(nodes := Nodes(cleared, c) + g.nodes)), Bus(g.rest, sent))
  }

  /**
   * Discovery on an open channel with an empty read buffer: nodes 0, 1 and
   * 2 answer in that order, then the bus falls silent. The node list holds
   * exactly their three records, in reply order, and the silence clears
   * nothing.
   */
  lemma ThreeNodesThenSilence(reg: Registry, c: Channel, sent: seq<Frame>, sn0: Payload, sn1: Payload, sn2: Payload, tail: Script)
    requires IsOpen(reg, c)
    ensures var s := [NotReady,
                      Ready(Got(Frame(ArbIdXtd + 1 * NodeIdStride, false, 8, sn0))),
                      Ready(Got(Frame(ArbIdXtd + 2 * NodeIdStride, false, 8, sn1))),
                      Ready(Got(Frame(ArbIdXtd + 3 * NodeIdStride, false, 8, sn2))),
                      NotReady] + tail;
      var r := FindChannelNodes(reg, c, Bus(s, sent));
      && Nodes(r.reg, c) == [NodeRecord(0, sn0), NodeRecord(1, sn1), NodeRecord(2, sn2)]
      && r.bus == Bus(tail, sent + [Broadcast])
  {
    var s := [NotReady,
              Ready(Got(Frame(ArbIdXtd + 1 * NodeIdStride, false, 8, sn0))),
              Ready(Got(Frame(ArbIdXtd + 2 * NodeIdStride, false, 8, sn1))),
              Ready(Got(Frame(ArbIdXtd + 3 * NodeIdStride, false, 8, sn2))),
              NotReady] + tail;
    DecodeSlot(0, 0);
    DecodeSlot(1, 0);
    DecodeSlot(2, 0);
    assert Flush(s).rest == s[1..];
    var g := Gather(s[1..]);
    ReadyRunUnique(s[1..], g.readCount, 3);
    assert s[1..][..3] == s[1..4];
    var evs := s[1..4];
    assert Announce(evs[0].read.frame) == NodeRecord(0, sn0);
    assert Announce(evs[1].read.frame) == NodeRecord(1, sn1);
    assert Announce(evs[2].read.frame) == NodeRecord(2, sn2);
    assert evs[1..][1..][1..] == [];
    assert Announcements(evs[1..][1..]) == [NodeRecord(2, sn2)];
    assert Announcements(evs[1..]) == [NodeRecord(1, sn1), NodeRecord(2, sn2)];
    assert g.rest == tail;
    assert FindChannelNodes(reg, c, Bus(s, sent)).bus == Bus(tail, sent + [Broadcast]);
  }
}
