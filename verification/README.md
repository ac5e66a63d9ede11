# CAN message correlation of the NI-XNet bus interface, in Dafny

This project models the protocol layer of `NIXNetBusInterface`, the master
side of the ALMA front-end AMB (CAN) bus: how it turns a broadcast CAN
medium into correlated request/response exchanges with addressed nodes.

- **Transport.** The NI-CAN driver is replaced by a finite script of
  events (`CanBus.Script`). Each state query (`ncGetAttribute(NC_ATTR_STATE)`)
  and each wait (`ncWaitForState`) observes the next event. `Ready(read)`
  means the state asked about holds; for READ_AVAIL, `read` is what the
  following `ncRead` returns, a frame or a failure. `NotReady` means another
  state, or a wait that failed, timed out or threw. Past its end the script
  is silent. Frames given to `ncWrite` are logged in `Bus.sent`.
- **Read-buffer flush** (`ReadBuffer`): read and discard while the state is
  READ_AVAIL.
- **Monitor and command exchanges** (`Exchange`): the correlation loop,
  which keeps the last frame read in a response buffer, and the completion
  record with its optional `status`, `dataLength` and `data` slots.
- **Node discovery** (`NodeDiscovery`): a broadcast, then draining replies
  until the first failed wait. Node ids are decoded in unsigned 32-bit
  arithmetic.
- **Channel registry and lifecycle** (`ChannelRegistry`, `Session`): a
  `map<Channel, Entry>` holding the open flag, handle and node list per
  channel, with `openChannel`, `closeChannel` and `findNodes` over it.

The model follows the code in two places a reader might not expect:

- A command's status depends only on the wait for WRITE_SUCCESS. The write's
  own status is overwritten before it is tested.
- The success of `openChannel` depends only on `ncConfig` and
  `ncOpenObject`. Failures of session creation and of the baud-rate
  properties are only logged.

Assumptions about the driver:

- A failed `ncRead` leaves the caller's response structure as it was.
- A received frame never reports more than 8 data bytes.
- A message's `dataLen` is at most 8 (`DataLen`). A larger value would make
  the `memcpy` in `commandImpl` overflow the frame's 8-byte payload.
- `NC_FL_CAN_ARBID_XTD` is `0x20000000`. The driver header that defines it
  is not part of this model.

## Model

| member | source | states |
|---|---|---|
| `CanBus.RequestId` | FrontEndAMBLib/src/NIXNetBusInterface.cpp:163 | the request id is the extended base plus the node address, wrapped to the 32-bit ArbitrationId field |
| `ReadBuffer.Flush` | FrontEndAMBLib/src/NIXNetBusInterface.cpp:336-352 | a flush reads and discards exactly as many frames as there are leading READ_AVAIL states, and also consumes the first other state |
| `ReadBuffer.FlushIdempotent` | FrontEndAMBLib/src/NIXNetBusInterface.cpp:343-351 | flushing again with nothing newly queued reads nothing and makes only one query |
| `Exchange.AwaitReply` | FrontEndAMBLib/src/NIXNetBusInterface.cpp:183-223 | every reply read before the last one carried another id and was discarded; the loop ends on the first buffered reply with the request id (a match) or on the first failed wait (a timeout), and on nothing else |
| `Exchange.CorrelatesUnique` | FrontEndAMBLib/src/NIXNetBusInterface.cpp:183-223 | the loop's contract is deterministic: on a given sequence of transport events only one outcome, read count and remaining script satisfy it |
| `Exchange.ForeignReplyDiscarded` | FrontEndAMBLib/src/NIXNetBusInterface.cpp:210-220 | a reply with a different arbitration id does not end the loop; the outcome is that of the events after it |
| `Exchange.Complete` | FrontEndAMBLib/src/NIXNetBusInterface.cpp:224-243 | absent slots stay absent. On a match: length = reply length, the first length bytes = reply payload with later bytes untouched, status = NOERR. On a timeout: length 0, the first 8 bytes zero, status = TIMEOUT |
| `Exchange.Monitor` | FrontEndAMBLib/src/NIXNetBusInterface.cpp:149-244 | flush first, then write one request with id base + address, no payload and not remote; the outcome correlates the events after the flush; exactly one completion shape is written, and only into supplied slots |
| `Exchange.MonitorSkipsForeignThenMatches` | FrontEndAMBLib/src/NIXNetBusInterface.cpp:185-233 | a foreign reply followed by the node's 4-byte reply yields NOERR, length 4 and the four bytes, with the rest of the buffer untouched |
| `Exchange.CommandFrame` | FrontEndAMBLib/src/NIXNetBusInterface.cpp:254-259 | the command frame has id base + address, DataLength = dataLen, the first dataLen payload bytes of the message, zeros after them, and IsRemote = 0 |
| `Exchange.Command` | FrontEndAMBLib/src/NIXNetBusInterface.cpp:247-280 | one frame is written and one wait consumed; a supplied status is NOERR if and only if the wait succeeded, and WRITEERR otherwise; data and length are never written |
| `NodeDiscovery.NodeIdOf` | FrontEndAMBLib/src/NIXNetBusInterface.cpp:320 | a decoded node id is either 0xFFFFFFFF or below 0x3FFF |
| `NodeDiscovery.DecodeSlot` | FrontEndAMBLib/src/NIXNetBusInterface.cpp:320 | a reply id of base + (n+1)*0x40000 + k, with k < 0x40000, decodes to node n |
| `NodeDiscovery.DecodeBelowFirstSlot` | FrontEndAMBLib/src/NIXNetBusInterface.cpp:320 | a reply id less than 0x40000 above the base decodes, by unsigned wrap-around, to 0xFFFFFFFF |
| `NodeDiscovery.Gather` | FrontEndAMBLib/src/NIXNetBusInterface.cpp:306-332 | discovery drains replies until the first failed wait, adding one record per successful read in arrival order and skipping failed reads |
| `NodeDiscovery.FindChannelNodes` | FrontEndAMBLib/src/NIXNetBusInterface.cpp:282-334 | nothing changes on a closed channel. On an open one: the list is rebuilt from the replies that follow the flush, the only frame written is the broadcast, and the open flag, the handle and every other channel are unchanged |
| `NodeDiscovery.ThreeNodesThenSilence` | FrontEndAMBLib/src/NIXNetBusInterface.cpp:282-332 | replies from nodes 0, 1 and 2 and then a timeout leave exactly those three records, in reply order |
| `Session.OpenChannel` | FrontEndAMBLib/src/NIXNetBusInterface.cpp:110-135 | success if and only if both `ncConfig` and `ncOpenObject` succeed; only then is the handle stored and the channel marked open; a failure changes nothing |
| `Session.CloseChannel` | FrontEndAMBLib/src/NIXNetBusInterface.cpp:138-145 | a no-op on a closed channel; otherwise the registered handle is closed and the channel marked closed, keeping its nodes |
| `Session.FindNodes` | FrontEndAMBLib/src/NIXNetBusInterface.cpp:32-43 | absent if and only if the channel is closed and the lazy open fails; otherwise the channel is open and the result is its node list, freshly rebuilt by discovery |
| `Session.OpenIffLastEffectiveOpen` | FrontEndAMBLib/src/NIXNetBusInterface.cpp:130-145 | starting from an empty registry, a channel is open exactly when its last close or successful open was an open, and it then holds that open's handle |

## Left out

- Driver setup in `openChannel`: `nxCreateSession`, `nxSetProperty`, the `ncConfig` attribute table, baud rate, queue depths and masks. It is reduced to the two statuses that decide success and the handle (`Session.DriverSetup`). As written that part does not compile: line 53 is malformed, the `printf`s at lines 68-87 lack semicolons, and `ObjName`, `AttrIdList`, `AttrValueList` and `BaudRate` are not declared in this file.
- The `MEASURE_CAN_LATENCY` block: performance counters and floating-point averages.
- Debug and flush tracing with `printf`: it has no effect on the protocol.
- Real-time timeouts (`monitorTimeout_m`, the 200 ms discovery window): a wait is only success or failure. So the monitor's re-armed timeout after each foreign reply shows up only as "the loop keeps waiting".
- Concurrency: the code has no locking, and serialising calls per channel is the caller's job.
- Statuses of `ncWrite`, `ncGetAttribute` and `ncCloseObject`: the code never acts on them. An exception thrown by `ncWrite` is not modelled. In `commandImpl` such an exception would skip the wait and report WRITEERR.
- Exceptions from driver calls outside any `try`: `ncWrite` (lines 181, 299), `ncRead` (lines 210, 317) and `ncGetAttribute` (line 345). Such an exception would leave the function early. `monitorImpl` would then write no completion, and `findChannelNodes` would leave a partly built node list. Only exceptions from the waits are modelled, as failures.
- Runs that never end: a finite script cannot express them. `monitorImpl` (lines 185-223) keeps waiting for as long as foreign frames keep arriving. Discovery (lines 308-332) keeps reading for as long as replies keep arriving. The flush (lines 344-351) never stops if a failing `ncGetAttribute` leaves `attrValue` at READ_AVAIL. In the model, every script ends in silence.
- The Timestamp and FrameType fields of received frames: they are never read.
- Handle identity: each exchange runs on the transport behind the handle it was given, and the model does not check that the handle is registered.
- `ChannelNodeMap` is not part of this model beyond the effects its calls have here.
