/**
 * The channel lifecycle of NIXNetBusInterface: openChannel, closeChannel
 * and findNodes, and what a history of opens and closes leaves in the
 * registry.
 */
module Session {
  import opened Wrappers
  import opened CanBus
  import opened ChannelRegistry
  import opened NodeDiscovery

  /**
   * What the driver setup of openChannel reports: the status of `ncConfig`,
   * the status of `ncOpenObject` (only consulted when the configuration
   * succeeded) and the handle it yields. The session-creation and
   * baud-rate calls before them only log their failures.
   */
  datatype DriverSetup = DriverSetup(configStatus: int, openStatus: int, handle: Handle)

  predicate Succeeded(d: DriverSetup)
  {
    d.configStatus >= 0 && d.openStatus >= 0
  }

  datatype Opened = Opened(ok: bool, reg: Registry)

  /** openChannel: the handle is stored and the channel marked open only when setup succeeded. */
  function OpenChannel(reg: Registry, c: Channel, d: DriverSetup): (r: Opened)
    ensures r.ok <==> Succeeded(d)
    ensures r.ok ==> IsOpen(r.reg, c) && HandleOf(r.reg, c) == d.handle && Nodes(r.reg, c) == Nodes(reg, c)
    ensures r.ok ==> forall e | e != c :: Lookup(r.reg, e) == Lookup(reg, e)
    ensures !r.ok ==> r.reg == reg
  {
    var success := d.configStatus >= 0 && d.openStatus >= 0;
    if success then
      var withHandle := Put(reg, c, Lookup(reg, c).(handle := d.handle));
      Opened(true, Put(withHandle, c, Lookup(withHandle, c).(isOpen := true)))
    else
      Opened(false, reg)
  }

  /** The registry after closeChannel, and the handle given to `ncCloseObject`, if any. */
  datatype Closed = Closed(closedHandle: Option<Handle>, reg: Registry)

  /** closeChannel: a no-op on a closed channel; otherwise closes its handle and marks it closed. */
  function CloseChannel(reg: Registry, c: Channel): (r: Closed)
    ensures !IsOpen(reg, c) ==> r == Closed(None, reg)
    ensures IsOpen(reg, c) ==> r.closedHandle == Some(HandleOf(reg, c))
    ensures !IsOpen(r.reg, c)
    ensures HandleOf(r.reg, c) == HandleOf(reg, c) && Nodes(r.reg, c) == Nodes(reg, c)
    ensures forall e | e != c :: Lookup(r.reg, e) == Lookup(reg, e)
  {
    if IsOpen(reg, c) then
      Closed(Some(HandleOf(reg, c)), Put(reg, c, Lookup(reg, c).(isOpen := false)))
    else
      Closed(None, reg)
  }

  datatype Found = Found(nodes: Option<seq<NodeRecord>>, reg: Registry, bus: Bus)

  /**
   * findNodes: open the channel if it is closed (absent when that fails),
   * then run discovery and return the channel's node list.
   */
  function FindNodes(reg: Registry, c: Channel, d: DriverSetup, bus: Bus): (r: Found)
    ensures r.nodes.Some? <==> IsOpen(reg, c) || Succeeded(d)
    ensures r.nodes.None? ==> r.reg == reg && r.bus == bus
    ensures r.nodes.Some? ==> IsOpen(r.reg, c) && r.nodes.value == Nodes(r.reg, c)
    ensures IsOpen(reg, c) ==> HandleOf(r.reg, c) == HandleOf(reg, c)
    ensures !IsOpen(reg, c) && Succeeded(d) ==> HandleOf(r.reg, c) == d.handle
    ensures r.nodes.Some? ==>
      var g := Gather(ReadBuffer.Flush(bus.script).rest);
      && r.nodes.value == g.nodes
      && r.bus == Bus(g.rest, bus.sent + [Broadcast])
    ensures forall e | e != c :: Lookup(r.reg, e) == Lookup(reg, e)
  {
    if !IsOpen(reg, c) && !OpenChannel(reg, c, d).ok then
      Found(None, reg, bus)
    else
      var ready := if IsOpen(reg, c) then reg else OpenChannel(reg, c, d).reg;
      var found := FindChannelNodes(ready, c, bus);
      Found(Some(Nodes(found.reg, c)), found.reg, found.bus)
  }

  /** One lifecycle call on the registry. */
  datatype RegistryOp = Open(channel: Channel, setup: DriverSetup) | Close(channel: Channel)

  function Apply(reg: Registry, op: RegistryOp): Registry
  {
    match op
    case Open(c, d) => OpenChannel(reg, c, d).reg
    case Close(c) => CloseChannel(reg, c).reg
  }

  /** The registry after the calls `ops`, in order, starting from `reg`. */
  function Replay(reg: Registry, ops: seq<RegistryOp>): Registry
    decreases |ops|
  {
    if |ops| == 0 then reg else Apply(Replay(reg, ops[..|ops| - 1]), ops[|ops| - 1])
  }

  /** The last call on `c` that changed its state: a close, or an open whose setup succeeded. */
  function LastEffective(ops: seq<RegistryOp>, c: Channel): Option<RegistryOp>
    decreases |ops|
  {
    if |ops| == 0 then None
    else
      var op := ops[|ops| - 1];
      if op.channel == c && (op.Close? || Succeeded(op.setup)) then Some(op)
      else LastEffective(ops[..|ops| - 1], c)
  }

  /**
   * Starting from an empty registry, a channel is open exactly when the
   * last effective call on it was a successful open, and then holds the
   * handle that open produced. In particular a channel is closed before
   * any open, after a close, and after opens that all failed.
   */
  lemma {:induction false} OpenIffLastEffectiveOpen(ops: seq<RegistryOp>, c: Channel)
    ensures IsOpen(Replay(map[], ops), c) <==> LastEffective(ops, c).Some? && LastEffective(ops, c).value.Open?
    ensures IsOpen(Replay(map[], ops), c) ==> HandleOf(Replay(map[], ops), c) == LastEffective(ops, c).value.setup.handle
    decreases |ops|
  {
    if |ops| > 0 {
      OpenIffLastEffectiveOpen(ops[..|ops| - 1], c);
    }
  }
}
