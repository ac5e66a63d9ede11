/**
 * The channel registry (channelNodeMap_m): per channel, whether a driver
 * object is open, its handle, and the nodes found by the last discovery.
 * A channel never mentioned before is closed and has no nodes.
 */
module ChannelRegistry {
  import opened CanBus

  /** AmbChannel. */
  type Channel = int

  /** NCTYPE_OBJH: the driver's object handle. */
  type Handle = U32

  /** One node's answer to the discovery broadcast. */
  datatype NodeRecord = NodeRecord(nodeId: U32, serialNumber: Payload)

  /** The handle is meaningful only while `isOpen`; closing keeps it, stale, and keeps the nodes. */
  datatype Entry = Entry(isOpen: bool, handle: Handle, nodes: seq<NodeRecord>)

  type Registry = map<Channel, Entry>

  const Unused: Entry := Entry(false, 0, [])

  function Lookup(reg: Registry, c: Channel): Entry
  {
    if c in reg then reg[c] else Unused
  }

  /** isOpenChannel. */
  predicate IsOpen(reg: Registry, c: Channel)
  {
    Lookup(reg, c).isOpen
  }

  /** getHandle. */
  function HandleOf(reg: Registry, c: Channel): Handle
  {
    Lookup(reg, c).handle
  }

  /** getNodes. */
  function Nodes(reg: Registry, c: Channel): seq<NodeRecord>
  {
    Lookup(reg, c).nodes
  }

  /** Writes the entry of `c`; every other channel reads back as before. */
  function Put(reg: Registry, c: Channel, e: Entry): (r: Registry)
    ensures Lookup(r, c) == e
    ensures forall d | d != c :: Lookup(r, d) == Lookup(reg, d)
  {
    reg[c := e]
  }
}
