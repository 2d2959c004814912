# lowcaf dataflow core in Dafny

lowcaf routes packets through a directed graph of processing nodes. It can also exchange
packets with an ns-3 network simulation over TCP. This project models the parts of lowcaf
that decide what happens to a packet, and proves properties about them:

- **The dataflow engine.**
  - `NodeState`: one FIFO deque per input port and one list per output port.
  - The `RNode` contract.
  - `PortID`.
  - The `PrioritySelector`: a FIFO ready queue with no duplicates. After every `process` it
    moves each output item along the link table to its target input deque, clears the output
    lists and re-queues nodes that became ready.
  - `NodeSelector.gen_nodes`.
  - The sequential part of `PacketProcessor`: construction, the socket registry, `setup`, the
    offline `drive`, `sim_core`, teardown and socket cleanup.
- **The engine ↔ ns-3 wire protocol.**
  - The Python codec in `bbpacket.py`: the resumable `buff2msgs` decoders, the frame
    serialisers, `EODMsg` and `BBPacket`.
  - The `BBSocket` receive-buffer and routing state machine.
  - The C++ side in `lapplication.cc`/`.h`: `LProcessRcvPacket` over the fixed 512000-byte
    receive buffer, the inner drain loop and the append of `LListenForServerData`, the frame
    built by `LDispatchPacket`, and `mac48tostr`. The 14-byte Ethernet header it strips is
    the destination MAC / source MAC / EtherType header of IEEE 802.3 clause 3.2.
- **The concrete nodes.** Each is a class whose fields change in place:
  - demux and mux;
  - switch;
  - compare;
  - dummy source, counter and null sink;
  - range delete;
  - repeater;
  - the ns-3 source and sink bridges.

  Each class's `process`/`is_ready`/`setup` is proved against a pure step function of that
  node. Lemmas about the step function state what the node does over a whole run.
- **The editor data structures.**
  - `NodeManager`: two synchronised maps and the smallest-free-id search.
  - `LinkManager`: a set of link ids.
  - The JSON Graph Format forms of `JNode` and `JEdge`, with their round trips.

The model follows the code's own form. Code that mutates state is modelled as classes whose
methods carry `modifies` clauses and loop invariants. Each such method is tied to a pure
specification function (`Run`, `Drain`, `Decode`, `Incoming`, the node step functions), and
the lemmas are stated about those functions.

Python exceptions are the values of `Wrappers.Error`, carried in a `Result`. Packets are opaque
values. Where the Python code calls into scapy, the value scapy would compute is a parameter.

Two behaviours of the code are worth knowing before reading the model:

- `DummySrcN.is_ready` is not a pure query: it refills its counter when it answers false
  (`Dummy.DummySrcN.IsReady`, `Dummy.DummySrcReadyResets`).
- An end-of-data frame is not swallowed: `BBSocket` sends it to every pipe and then raises
  `EndOfDataError` (`BBSockets.RouteStopsAtEod`).

## Model

| member | source | states |
|---|---|---|
| PortIds.PortID.Str | node-editor/src/nodeeditor/portid.py:6-7 | `str(p)` is `Node_ID.Port: <obj_id>.<port>`: reading the text back gives the same object id and port |
| PortIds.PortID.Repr | node-editor/src/nodeeditor/portid.py:9-10 | `repr(p)` is `PortID(<obj_id>,<port>)` with no space: reading it back gives the same port |
| PortIds.StrRoundTrip | node-editor/src/nodeeditor/portid.py:2-7 | the `str` text of any object id and port, negative ones included, determines both fields |
| PortIds.ReprRoundTrip | node-editor/src/nodeeditor/portid.py:2-10 | the `repr` text determines both fields |
| RNodes.PyIndex | node-editor/lowcaf/nodes/ifaces/rnode.py:40-41 | Python list indexing of the port lists: defined exactly for `-n <= i < n`, a negative index counting from the end |
| RNodes.PyMod | node-editor/lowcaf/nodes/mux.py:137 | Python's `%`: the result lies between 0 and the divisor and takes the divisor's sign |
| RNodes.PopLeft | node-editor/lowcaf/nodes/ifaces/rnode.py:40 | `inputs[i].popleft()`: the front packet and the deque without it; `IndexError` exactly for a missing port or an empty deque |
| RNodes.Push | node-editor/lowcaf/nodes/ifaces/rnode.py:41 | `outputs[i].append(p)`: `p` at the end of that list and every other list unchanged; `IndexError` exactly for a missing port |
| RNodes.HasItems | node-editor/lowcaf/nodes/ifaces/rnode.py:54 | `len(inputs[i]) > 0` is true exactly when that deque is non-empty; `IndexError` for a missing port |
| RNodes.RNode.constructor | node-editor/lowcaf/nodes/ifaces/rnode.py:18-34 | the id and both port counts are stored unchanged |
| RNodes.RNode.Process | node-editor/lowcaf/nodes/ifaces/rnode.py:37-49 | the abstract `process` raises `NotImplementedError` |
| RNodes.RNode.IsReady | node-editor/lowcaf/nodes/ifaces/rnode.py:51-58 | the abstract `is_ready` raises `NotImplementedError` |
| RNodes.RNode.Setup | node-editor/lowcaf/nodes/ifaces/rnode.py:60-68 | the default `setup` changes nothing and registers no socket |
| RNodes.RNode.Teardown | node-editor/lowcaf/nodes/ifaces/rnode.py:70-75 | the default `teardown` changes nothing |
| NodeStates.Empties | node-editor/lowcaf/packetprocessing/nodestate.py:11-17 | `n` empty deques or lists, exactly `n` of them |
| NodeStates.NSReady | node-editor/lowcaf/packetprocessing/nodestate.py:19-20 | `is_ready` on a record asks the node about the record's own deques; only the node's own state may change |
| NodeStates.NSProcess | node-editor/lowcaf/packetprocessing/nodestate.py:22-23 | `process` on a record keeps its id and its number of input deques and output lists |
| NodeStates.NodeState.constructor | node-editor/lowcaf/packetprocessing/nodestate.py:7-17 | the record holds the node, `nr_inputs` empty deques and `nr_outputs` empty lists (none for a negative count), built by the two loops |
| NodeStates.NodeState.IsReady | node-editor/lowcaf/packetprocessing/nodestate.py:19-20 | the answer and the new record are those of the node's `is_ready` on this record's inputs; an exception is passed on |
| NodeStates.NodeState.Process | node-editor/lowcaf/packetprocessing/nodestate.py:22-23 | the record afterwards is the node's `process` step on this record's inputs and outputs; an exception is passed on |
| NodeStates.ExtendAt | node-editor/lowcaf/packetprocessing/nodeselector.py:85 | `tgt_in.extend(items)`: the items go behind what that deque held; every record keeps its shape |
| NodeStates.ClearAt | node-editor/lowcaf/packetprocessing/nodeselector.py:86 | `items.clear()`: that output list is empty; every record keeps its shape |
| NodeStates.ReadyAt | node-editor/lowcaf/packetprocessing/nodeselector.py:90-91 | asking a node whether it is ready changes no deque and no output list |
| NodeStates.ProcessAt | node-editor/lowcaf/packetprocessing/nodeselector.py:22 | processing a node keeps the keys, ids and port counts of all records |
| NodeStates.SetupAt | node-editor/lowcaf/packetprocessing/packetprocessor.py:84-85 | a node's `setup` changes no deque, no output list and no other record |
| NodeStates.Extend | node-editor/lowcaf/packetprocessing/nodeselector.py:85 | the in-place `extend` on the records is `ExtendAt` on their values |
| NodeStates.Clear | node-editor/lowcaf/packetprocessing/nodeselector.py:86 | the in-place `clear` on the records is `ClearAt` on their values |
| NodeStates.ReadyOf | node-editor/lowcaf/packetprocessing/nodeselector.py:90-91 | `pp.nodes[k].is_ready()` on the records is `ReadyAt` on their values; other records are untouched |
| NodeStates.SetupOf | node-editor/lowcaf/packetprocessing/packetprocessor.py:84-85 | `setup` on one record's node is `SetupAt` on the values |
| NodeStates.ProcessOf | node-editor/lowcaf/packetprocessing/nodeselector.py:22 | `process` on one record is `ProcessAt` on the values |
| NodeStates.DisjointAdd | node-editor/lowcaf/packetprocessing/packetprocessor.py:35-36 | a record for a new key whose node shares no object with the others keeps the records disjoint |
| NodeSelector.Enqueue | node-editor/lowcaf/packetprocessing/nodeselector.py:91-93 | a key is queued afterwards exactly when it was queued before or it is the key just found ready; the old queue is a prefix; no duplicate is ever added |
| NodeSelector.Target | node-editor/lowcaf/packetprocessing/nodeselector.py:82-84 | `pp.links[id][idx]` then `pp.nodes[obj_id].inputs[port]`: `KeyError` exactly when the id, the index or the target key is missing, `IndexError` for a port out of range, otherwise an existing deque |
| NodeSelector.ForwardMoves | node-editor/lowcaf/packetprocessing/nodeselector.py:82-93 | one turn appends exactly the packets of output list `idx`, in order, behind what the target deque held, empties that list, and leaves every other deque and list as it was |
| NodeSelector.ForwardOutputs | node-editor/lowcaf/packetprocessing/nodeselector.py:85-86 | one turn empties output list `idx` of the processed node and keeps its other lists |
| NodeSelector.UpdateFrom | node-editor/lowcaf/packetprocessing/nodeselector.py:81-93 | the loop from output index `idx` on keeps the shape of all records and the queue's invariant, and empties exactly the output lists from `idx` on |
| NodeSelector.UpdateSpec | node-editor/lowcaf/packetprocessing/nodeselector.py:80-98 | `update` keeps the shape of the records and the queue free of duplicates and of unknown keys |
| NodeSelector.UpdateClears | node-editor/lowcaf/packetprocessing/nodeselector.py:81-86 | after `update` every output list of the processed node is empty |
| NodeSelector.UnlinkedRaises | node-editor/lowcaf/packetprocessing/nodeselector.py:81-82 | a node with an output but no entry in the link table makes `update` raise `KeyError`, even if it emitted nothing |
| NodeSelector.ReadyNodeRequeued | node-editor/lowcaf/packetprocessing/nodeselector.py:95-98 | when the processed node's final `is_ready` is true, it is in the queue after `update` |
| NodeSelector.StepSpec | node-editor/lowcaf/packetprocessing/nodeselector.py:21-24 | one select, process, update step keeps the shape of the records and the queue's invariant |
| NodeSelector.Run | node-editor/lowcaf/packetprocessing/nodeselector.py:20-24 | the loop of `gen_nodes`, for at most `fuel` steps, keeps the shape of the records and the queue's invariant |
| NodeSelector.RunStepOk | node-editor/lowcaf/packetprocessing/nodeselector.py:21-24 | a non-empty queue with fuel left takes one step, then the loop goes on from its result |
| NodeSelector.RunStepErr | node-editor/lowcaf/packetprocessing/nodeselector.py:21-24 | an exception in a step ends the loop with that exception |
| NodeSelector.RunEmpty | node-editor/lowcaf/packetprocessing/nodeselector.py:21-101 | with an empty queue the loop stops at once and changes nothing |
| NodeSelector.InitFrom | node-editor/lowcaf/packetprocessing/nodeselector.py:71-75 | asking each node in turn whether it is ready changes no deque and no output list |
| NodeSelector.InitFromReady | node-editor/lowcaf/packetprocessing/nodeselector.py:71-75 | over distinct keys the loop raises exactly when some node's `is_ready` raises, and otherwise appends to the queue exactly the keys whose node answered True, in their order |
| NodeSelector.ReadyKeys | node-editor/lowcaf/packetprocessing/nodeselector.py:71-75 | the keys of the order whose node answers ready: a key is in it iff it is in the order and its node's `is_ready` returns True |
| NodeSelector.ReadyKeysFrame | node-editor/lowcaf/packetprocessing/nodeselector.py:71-75 | asking one node leaves the answers of every other node as they were, so the loop may ask each node of its record as it stood at the start |
| NodeSelector.AllAnswerFrame | node-editor/lowcaf/packetprocessing/nodeselector.py:71-75 | asking one node does not change whether any other node's `is_ready` raises |
| NodeSelector.InitFromNoDup | node-editor/lowcaf/packetprocessing/nodeselector.py:71-75 | with distinct keys not already queued, the loop of `__init__` queues no key twice |
| NodeSelector.InitSpecReady | node-editor/lowcaf/packetprocessing/nodeselector.py:67-75 | `__init__` over the keys of `pp.nodes` raises exactly when some node's `is_ready` raises; otherwise its queue is exactly the keys whose node answered ready, in the order of `pp.nodes` |
| NodeSelector.InitQueueOk | node-editor/lowcaf/packetprocessing/nodeselector.py:67-75 | the queue built from the keys of `pp.nodes` holds only keys of `pp.nodes`, each at most once |
| NodeSelector.ClearedFrom | node-editor/lowcaf/packetprocessing/nodeselector.py:81-86 | the output lists once those from `idx` on are emptied: the same number of lists, the earlier ones unchanged |
| NodeSelector.ClearsOneMore | node-editor/lowcaf/packetprocessing/nodeselector.py:81-86 | emptying list `idx` and then the lists from `idx + 1` on is emptying the lists from `idx` on |
| NodeSelector.PrioritySelector.constructor | node-editor/lowcaf/packetprocessing/nodeselector.py:67 | the queue starts empty |
| NodeSelector.PrioritySelector.Init | node-editor/lowcaf/packetprocessing/nodeselector.py:67-75 | the loop over `pp.nodes` in dict order leaves the records and queue that `InitSpec` gives (exactly the ready keys in order, by `InitSpecReady`), or raises what it raises |
| NodeSelector.PrioritySelector.Store | node-editor/lowcaf/packetprocessing/nodeselector.py:75 | replacing the queue leaves every record as it was |
| NodeSelector.PrioritySelector.SelectNext | node-editor/lowcaf/packetprocessing/nodeselector.py:77-78 | `popleft`: the front key, and the queue without it; `IndexError` on an empty queue with nothing changed |
| NodeSelector.PrioritySelector.Update | node-editor/lowcaf/packetprocessing/nodeselector.py:80-98 | the in-place `update` on records and queue is `UpdateSpec` on their values |
| NodeSelector.PrioritySelector.GenNodes | node-editor/lowcaf/packetprocessing/nodeselector.py:20-24 | the `while` loop leaves the records and queue that `Run` gives, or raises what it raises |
| NodeSelector.PrioritySelector.IsFinished | node-editor/lowcaf/packetprocessing/nodeselector.py:100-101 | the selector is finished exactly when its queue of ready nodes is empty |
| NodeSelector.PrioritySelector.Turn | node-editor/lowcaf/packetprocessing/nodeselector.py:22-24 | one turn of the loop is `StepSpec` on the values |
| NodeSelector.ForwardOne | node-editor/lowcaf/packetprocessing/nodeselector.py:82-93 | one turn of `update`'s loop on the records is `Forward` on their values |
| NodeSelector.UpdateLoop | node-editor/lowcaf/packetprocessing/nodeselector.py:81-93 | the `for` loop over the output lists is `UpdateFrom` from index 0 |
| NodeSelector.ForwardKeeps | node-editor/lowcaf/packetprocessing/nodeselector.py:82-93 | one turn keeps the shape of the records and the queue free of duplicates and unknown keys |
| PacketProcessing.NewPacketProcessor | node-editor/lowcaf/packetprocessing/packetprocessor.py:23-40 | `ValueError` exactly when some value is not an `RNode`; otherwise the same keys, each with a new record of its own node with empty deques and lists, the links stored unchanged and no sockets |
| PacketProcessing.PacketProcessor.constructor | node-editor/lowcaf/packetprocessing/packetprocessor.py:28-40 | the records, their dict order and the links are stored unchanged and the socket list starts empty |
| PacketProcessing.RegisterAt | node-editor/lowcaf/packetprocessing/packetprocessor.py:61-65 | registering at an address the socket at `i` is the first to hold sets `pipes[node_id]` on that socket and changes nothing else |
| PacketProcessing.RegisterNew | node-editor/lowcaf/packetprocessing/packetprocessor.py:66-70 | registering at a new address appends exactly one socket, whose pipes are `{node_id: pp_conn}` |
| PacketProcessing.RegisterServes | node-editor/lowcaf/packetprocessing/packetprocessor.py:54-72 | after registering, a socket bound to the address serves the node through the new pipe, at most one socket was added, and no two sockets share an address |
| PacketProcessing.PacketProcessor.RegisterSocket | node-editor/lowcaf/packetprocessing/packetprocessor.py:54-72 | the `for`-`else` search leaves the sockets `Register` gives and touches no record |
| PacketProcessing.PacketProcessor.AddPipe | node-editor/lowcaf/packetprocessing/packetprocessor.py:64 | `bbsock.pipes[node_id] = pp_conn` changes that socket's pipes only |
| PacketProcessing.PacketProcessor.AppendSocket | node-editor/lowcaf/packetprocessing/packetprocessor.py:68-70 | the new socket is appended behind the old ones and serves only the node |
| PacketProcessing.PacketProcessor.RegisterBridge | node-editor/lowcaf/packetprocessing/packetprocessor.py:84-85 | a bridge node's `setup` registers its address, id and pipe; other nodes register nothing |
| PacketProcessing.PacketProcessor.SetupNode | node-editor/lowcaf/packetprocessing/packetprocessor.py:84-85 | one turn of the loop of `setup` is `SetupStep` on the values of records and sockets |
| PacketProcessing.PacketProcessor.Setup | node-editor/lowcaf/packetprocessing/packetprocessor.py:78-86 | the loop calls every node's `setup` once, in dict order, and leaves the records and sockets `SetupFrom` gives; the first exception ends it |
| PacketProcessing.PacketProcessor.SetupTurn | node-editor/lowcaf/packetprocessing/packetprocessor.py:84-85 | one turn of the loop advances `SetupFrom` by one record |
| PacketProcessing.SetupFrom | node-editor/lowcaf/packetprocessing/packetprocessor.py:84-85 | setting the remaining records up keeps the shape of all records |
| PacketProcessing.SetupFromFails | node-editor/lowcaf/packetprocessing/packetprocessor.py:84-85 | `setup` fails exactly when some remaining node refuses (a switch with an empty matcher), and then with `RuntimeError` |
| PacketProcessing.SetupFromValues | node-editor/lowcaf/packetprocessing/packetprocessor.py:84-85 | after a successful `setup`, every record set up holds its node's `setup` state and every other record is unchanged |
| PacketProcessing.SetupKeepsAddressesDistinct | node-editor/lowcaf/packetprocessing/packetprocessor.py:61-85 | setting up never binds a second socket to an address |
| PacketProcessing.DriveSpecUnfold | node-editor/lowcaf/packetprocessing/packetprocessor.py:100-151 | `drive` builds the selector's queue, which is exactly the keys whose node answers ready, in the order of `pp.nodes`, then runs `gen_nodes` on it; an exception while building it, raised exactly when some `is_ready` raises, is raised |
| PacketProcessing.PacketProcessor.SimCore | node-editor/lowcaf/packetprocessing/packetprocessor.py:100-151 | `PrioritySelector(self)` and `sim_core(ps)` leave the records `DriveSpec` gives, or raise what it raises |
| PacketProcessing.PacketProcessor.CloseSocket | node-editor/lowcaf/packetprocessing/packetprocessor.py:143-146 | the socket stops listening and its accepted connection, if any, is closed; its pipes are kept |
| PacketProcessing.PacketProcessor.CloseSockets | node-editor/lowcaf/packetprocessing/packetprocessor.py:139-146 | every listening socket and every accepted connection is closed; the records are untouched |
| PacketProcessing.PacketProcessor.Teardown | node-editor/lowcaf/packetprocessing/packetprocessor.py:136-137 | calling every node's `teardown` changes no record, no deque and no output list |
| PacketProcessing.PacketProcessor.Drive | node-editor/lowcaf/packetprocessing/packetprocessor.py:88-146 | offline `drive`: the records end as `DriveSpec` gives, every node is torn down, then every socket and accepted connection is closed; an exception ends it at once |
| PacketProcessing.SocksAbs | node-editor/lowcaf/packetprocessing/packetprocessor.py:40 | the sockets as values: address and pipes of each, in list order |
| BBSockets.SendAll | node-editor/lowcaf/packetprocessing/bbsocket.py:91-92 | sending `m` on every pipe appends it to every pipe's queue and to no other |
| BBSockets.Route | node-editor/lowcaf/packetprocessing/bbsocket.py:79-98 | routing decoded frames keeps the set of pipes |
| BBSockets.BBSocket.constructor | node-editor/lowcaf/packetprocessing/bbsocket.py:26-37 | a new socket is listening, unconnected, with an empty input buffer, `pipes == {node_id: conn}` and not terminated |
| BBSockets.BBSocket.Accept | node-editor/lowcaf/packetprocessing/bbsocket.py:39-59 | a second connection raises `RuntimeError` and changes nothing; otherwise the connection is recorded and `('Connected', address)` is sent on `cmd` |
| BBSockets.BBSocket.IsTerminated | node-editor/lowcaf/packetprocessing/bbsocket.py:110-114 | true exactly when the socket has been cleaned up |
| BBSockets.BBSocket.Broadcast | node-editor/lowcaf/packetprocessing/bbsocket.py:91-131 | `m` is appended to every pipe's queue; with `close` every pipe ends closed |
| BBSockets.BBSocket.ProcessIncoming | node-editor/lowcaf/packetprocessing/bbsocket.py:61-98 | nothing happens once terminated; without a connection `AttributeError`; otherwise the new buffer, the pipe queues and the outcome are those of `Incoming` |
| BBSockets.BBSocket.RouteFrames | node-editor/lowcaf/packetprocessing/bbsocket.py:79-98 | the `for` loop over the frames leaves the pipe queues and the outcome that `Route` gives |
| BBSockets.BBSocket.ProcessOutgoing | node-editor/lowcaf/packetprocessing/bbsocket.py:100-108 | nothing happens once terminated; otherwise one message is taken from the pipe and, for a packet, exactly its `MsgBB2Sim` frame is written to the connection |
| BBSockets.BBSocket.Cleanup | node-editor/lowcaf/packetprocessing/bbsocket.py:116-131 | terminated, connection dropped, listening socket closed, an `EODMsg` appended to every pipe's queue and every pipe closed |
| BBSockets.RouteDeliversEach | node-editor/lowcaf/packetprocessing/bbsocket.py:79-88 | data frames for known nodes reach their pipes in frame order: each pipe gains exactly the packets addressed to it |
| BBSockets.RouteDelivers | node-editor/lowcaf/packetprocessing/bbsocket.py:79-88 | routing data frames for known nodes succeeds with every pipe holding its own packets in order |
| BBSockets.RouteAppend | node-editor/lowcaf/packetprocessing/bbsocket.py:79-88 | routing two batches one after the other is routing them together |
| BBSockets.RouteStopsAtEod | node-editor/lowcaf/packetprocessing/bbsocket.py:89-94 | an end-of-data frame is sent to every pipe after the earlier packets, then `EndOfDataError` is raised and later frames are not delivered |
| BBSockets.RouteUnknownNode | node-editor/lowcaf/packetprocessing/bbsocket.py:86-88 | a data frame for a node without a pipe raises `KeyError` after the earlier frames were delivered |
| BBSockets.TwoReadsAsOne | node-editor/lowcaf/packetprocessing/bbsocket.py:71-76 | a stream of frames split across two reads delivers exactly what one read of the whole stream delivers, and leaves an empty buffer |
| BBSockets.OutgoingReadByNs3 | node-editor/lowcaf/packetprocessing/bbsocket.py:107-108 | the bytes `process_outgoing` writes are read by the ns-3 peer as one frame with delay 10 carrying the packet's bytes |
| BBSockets.Outgoing | node-editor/lowcaf/packetprocessing/bbsocket.py:105-108 | writing succeeds exactly for a packet on a live connection whose length fits the 4-byte field |
| BBPackets.NewBBPacket | node-editor/src/packetprocessing/bbpacket.py:21-29 | the packet keeps the frame and timestamp, is not dropped, and its metadata is the given dictionary or an empty one |
| BBPackets.Serialize | node-editor/src/packetprocessing/bbpacket.py:170-179 | serialisation succeeds exactly when every field fits its width, otherwise `OverflowError`; end-of-data is the single tag byte 2; an engine-bound frame is 21 header bytes plus the data, an ns-3-bound one tag, delay, protocol, length and data, both starting with tag 1 |
| BBPackets.ParseSim2BB | node-editor/src/packetprocessing/bbpacket.py:181-217 | a frame read is an engine-bound frame of at least 21 bytes that lies inside the input; anything shorter is `MsgIncompleteError` |
| BBPackets.ParseBB2Sim | node-editor/src/packetprocessing/bbpacket.py:254-281 | a frame read is an ns-3-bound frame of at least 32 bytes inside the input; anything shorter is `MsgIncompleteError` |
| BBPackets.ParseFrame | node-editor/src/packetprocessing/bbpacket.py:56-71 | tag 2 is an end-of-data frame of one byte, tag 1 a data frame or `MsgIncompleteError`, any other tag `NotImplementedError`; a frame read consumes at least one byte of the input |
| BBPackets.Decode | node-editor/src/packetprocessing/bbpacket.py:41-75 | the only error decoding raises is `NotImplementedError` |
| BBPackets.DecodeRemainder | node-editor/src/packetprocessing/bbpacket.py:72-75 | the remainder is a suffix of the input, and when not empty it begins with the data tag of a frame not yet complete |
| BBPackets.Slice | node-editor/src/packetprocessing/bbpacket.py:186-210 | a clamped slice is the exact slice when it lies inside the buffer and is never longer than asked |
| BBPackets.Sim2BBBuff2Msg | node-editor/src/packetprocessing/bbpacket.py:181-217 | reading field by field through clamped slices and checking completeness only at the end gives exactly the frame `ParseSim2BB` reads at that offset, or `MsgIncompleteError` |
| BBPackets.BB2SimBuff2Msg | node-editor/src/packetprocessing/bbpacket.py:254-281 | the same for the ns-3-bound reader with its 17-byte MAC field |
| BBPackets.Buff2Msgs | node-editor/src/packetprocessing/bbpacket.py:87-121 | the offset loop of both decoders returns the frames and remainder `Decode` defines, or `NotImplementedError` |
| BBPackets.DecodeOk | node-editor/src/packetprocessing/bbpacket.py:61-67 | a complete frame at the front is emitted before whatever the rest decodes to |
| BBPackets.DecodeIncomplete | node-editor/src/packetprocessing/bbpacket.py:72-73 | an incomplete frame at the front ends decoding with no frames and the whole input as remainder |
| BBPackets.DecodeUnknown | node-editor/src/packetprocessing/bbpacket.py:68-71 | an unknown tag at the front raises `NotImplementedError` |
| BBPackets.Sim2BBRoundTrip | node-editor/src/packetprocessing/bbpacket.py:164-217 | reading back a serialised engine-bound frame, whatever follows it, gives a frame equal to the original and its serialised length |
| BBPackets.DecodeCons | node-editor/src/packetprocessing/bbpacket.py:41-75 | a serialised frame in front of any bytes decodes to that frame in front of what the bytes decode to |
| BBPackets.DecodeEncoded | node-editor/src/packetprocessing/bbpacket.py:41-75 | the serialisation of complete frames followed by any tail decodes to those frames, in order, in front of what the tail decodes to |
| BBPackets.DecodeComplete | node-editor/src/packetprocessing/bbpacket.py:41-75 | complete frames decode back to themselves with an empty remainder |
| BBPackets.TruncatedIncomplete | node-editor/src/packetprocessing/bbpacket.py:210-215 | a data frame cut anywhere after its tag decodes to nothing, with every byte kept as the remainder |
| BBPackets.DecodeTruncated | node-editor/src/packetprocessing/bbpacket.py:41-75 | complete frames followed by a truncated one give the complete frames and exactly the truncated bytes as remainder |
| BBPackets.SplitReadsResume | node-editor/src/packetprocessing/bbpacket.py:41-75 | a stream of frames received in two pieces split at any byte decodes, remainder carried over, to exactly the original frames with nothing left over |
| BBPackets.UnknownTagRaises | node-editor/src/packetprocessing/bbpacket.py:68-71 | an unknown tag after any number of complete frames raises `NotImplementedError` |
| BBPackets.BB2SimNoRoundTrip | node-editor/src/packetprocessing/bbpacket.py:243-281 | an ns-3-bound frame decoded by its own decoder never comes back alone with an empty remainder, because the serialiser writes no MAC field and the reader expects one |
| BBPackets.DecodeProgress | node-editor/src/packetprocessing/bbpacket.py:41-75 | decoding a non-empty input either yields a frame or keeps the whole input as remainder |
| BBPackets.BB2SimShortFrameStuck | node-editor/src/packetprocessing/bbpacket.py:243-281 | a short ns-3-bound frame as the engine writes it is never decoded: no frame, and every byte kept |
| Bytes.FromBE | node-editor/src/packetprocessing/bbpacket.py:204-205 | an unsigned big-endian value of `n` bytes is below `256^n` |
| Bytes.ToBytes | node-editor/src/packetprocessing/bbpacket.py:173-176 | `to_bytes` succeeds exactly for `0 <= n < 256^width`, otherwise `OverflowError`; on success the result has `width` bytes and `from_bytes` reads `n` back |
| Bytes.FromBEToBE | node-editor/src/packetprocessing/bbpacket.py:173-205 | decoding the big-endian encoding of a value in any width that holds it gives the value back |
| Bytes.ToBEFromBE | node-editor/src/packetprocessing/bbpacket.py:173-205 | encoding a decoded byte string in its own width gives the string back |
| Bytes.FromBEInjective | node-editor/src/packetprocessing/bbpacket.py:190-205 | two byte strings of one width that read as the same integer are equal |
| Mux.PushAll | node-editor/lowcaf/nodes/mux.py:138-140 | every output list gets one more copy of the packet at its end and the number of outputs is unchanged |
| Mux.DeMuxAlternateRoutes | node-editor/lowcaf/nodes/mux.py:129-137 | in Alternate mode the front packet of input 0 is appended to the active output alone, input 0 loses exactly that packet, and the active output advances by one, wrapping to 0 after the last |
| Mux.DeMuxDuplicateCopies | node-editor/lowcaf/nodes/mux.py:138-140 | in Duplicate mode every output receives the packet and the active output does not move |
| Mux.DeMuxBadMode | node-editor/lowcaf/nodes/mux.py:141-142 | any other mode raises `ValueError` |
| Mux.DeMuxRoundRobin | node-editor/lowcaf/nodes/mux.py:1-9 | over any `m` packets of input 0, output `j` receives exactly the packets whose position counted from the active output is `j` modulo the output count, in their order, and the rotation moves on by `m` places |
| Mux.DeMuxN.constructor | node-editor/lowcaf/nodes/mux.py:104-117 | a new demultiplexer keeps its id, output count and mode and starts at output 0 |
| Mux.DeMuxN.Process | node-editor/lowcaf/nodes/mux.py:129-142 | the node's new active output, the inputs and the outputs are those one demultiplexing step gives, and its exceptions (`IndexError`, `ZeroDivisionError`, `ValueError`) are the step's |
| Mux.DeMuxN.IsReady | node-editor/lowcaf/nodes/mux.py:144-148 | ready exactly when input 0 holds a packet; `IndexError` when there is no input |
| Mux.MuxReadyActiveOnly | node-editor/lowcaf/nodes/mux.py:248-252 | the multiplexer is ready exactly when its active input holds a packet, whatever its other inputs hold |
| Mux.MuxTakesActive | node-editor/lowcaf/nodes/mux.py:241-246 | the front packet of the active input is appended to output 0, that input loses it, and the active input advances by one, wrapping to 0 after the last |
| Mux.MuxRoundRobin | node-editor/lowcaf/nodes/mux.py:1-9 | a full round from active input `a`, every input from `a` on holding a packet, appends their front packets to output 0 in input order, removes exactly those packets and returns the rotation to input 0 |
| Mux.MuxN.constructor | node-editor/lowcaf/nodes/mux.py:218-229 | a new multiplexer keeps its id and input count and starts at input 0 |
| Mux.MuxN.Process | node-editor/lowcaf/nodes/mux.py:241-246 | the node's new active input, the inputs and the outputs are those one multiplexing step gives, errors included |
| Mux.MuxN.IsReady | node-editor/lowcaf/nodes/mux.py:248-252 | the answer is the multiplexer's readiness for its current active input |
| Switch.FirstMatch | node-editor/lowcaf/nodes/switch.py:190-193 | the result is the position of the first matcher equal to the text, with none before it equal, or none exactly when no matcher is equal |
| Switch.SwitchRoutesOnce | node-editor/lowcaf/nodes/switch.py:168-196 | the front packet goes unchanged to exactly one output, which is `i + 1` for the first matcher `i` equal to the field's text and 0 exactly when no matcher is; all other outputs and inputs are untouched and the count of that text grows by one |
| Switch.SwitchMissingField | node-editor/lowcaf/nodes/switch.py:179-188 | a packet lacking the configured field raises `AttributeError` |
| Switch.BumpCounts | node-editor/lowcaf/nodes/switch.py:181-184 | the count of the packet's value grows by one from 0, and no other count changes |
| Switch.SwitchSetupChecks | node-editor/lowcaf/nodes/switch.py:201-206 | setup raises `RuntimeError` exactly when some matcher is empty |
| Switch.SwitchN.constructor | node-editor/lowcaf/nodes/switch.py:131-154 | a new switch keeps its id, output count, layer, field and matchers and starts with no counts |
| Switch.SwitchN.Process | node-editor/lowcaf/nodes/switch.py:168-196 | the for-else search over the matchers leaves the counts, inputs and outputs that one routing step gives, errors included |
| Switch.SwitchN.IsReady | node-editor/lowcaf/nodes/switch.py:198-199 | ready exactly when input 0 holds a packet |
| Switch.SwitchN.Setup | node-editor/lowcaf/nodes/switch.py:201-206 | the loop over the matchers raises `RuntimeError` exactly when the configuration holds an empty matcher |
| Compare.CompReadyBoth | node-editor/lowcaf/nodes/compare.py:74-78 | ready exactly when both inputs hold a packet |
| Compare.CompPairs | node-editor/lowcaf/nodes/compare.py:62-72 | one packet leaves each input; A goes on to output 0 and B to output 1, each unchanged but for the same `t_diff` entry, B's capture time minus A's |
| Compare.CompNeedsBoth | node-editor/lowcaf/nodes/compare.py:64-65 | with either input empty, processing raises `IndexError` |
| Compare.CompN.constructor | node-editor/lowcaf/nodes/compare.py:43-52 | a new comparator keeps its id |
| Compare.CompN.Process | node-editor/lowcaf/nodes/compare.py:62-72 | processing leaves the inputs and outputs of one comparison step, errors included |
| Compare.CompN.IsReady | node-editor/lowcaf/nodes/compare.py:74-78 | the answer is the comparator's readiness, with the second input only looked at when the first holds a packet |
| Dummy.DummyPacket | node-editor/lowcaf/nodes/dummy.py:78-82 | the emitted packet is the fixed eight-byte frame, with timestamp 0, not dropped and with empty metadata |
| Dummy.DummySrcReadyResets | node-editor/lowcaf/nodes/dummy.py:84-89 | the source is ready exactly when packets are left in the round; answering no refills the counter to the configured number, answering yes changes nothing |
| Dummy.DummySrcEmitsOne | node-editor/lowcaf/nodes/dummy.py:78-82 | each processing step appends exactly one packet to output 0 and uses up one packet of the round |
| Dummy.Repeat | node-editor/lowcaf/nodes/dummy.py:78-82 | `n` copies of one packet |
| Dummy.SrcRoundEmits | node-editor/lowcaf/nodes/dummy.py:56-89 | a round that starts with `c` packets left emits exactly `c` identical packets and leaves the source refilled for the next round |
| Dummy.NullSnkDiscards | node-editor/lowcaf/nodes/dummy.py:136-146 | the sink removes exactly the front packet and emits nothing, raises `IndexError` on an empty input, and is ready exactly when its input holds a packet |
| Dummy.CounterForwards | node-editor/lowcaf/nodes/dummy.py:205-215 | over any `m` packets the counter forwards them unchanged and in order to output 0 and counts each once |
| Dummy.DummySrcN.constructor | node-editor/lowcaf/nodes/dummy.py:56-67 | a new source keeps its id and packet number and starts a full round |
| Dummy.DummySrcN.Process | node-editor/lowcaf/nodes/dummy.py:78-82 | the new counter and outputs are those of one emitting step, errors included |
| Dummy.DummySrcN.IsReady | node-editor/lowcaf/nodes/dummy.py:84-89 | the answer and the new counter are those of the source's readiness test |
| Dummy.NullSnkN.constructor | node-editor/lowcaf/nodes/dummy.py:117-127 | a new sink keeps its id |
| Dummy.NullSnkN.Process | node-editor/lowcaf/nodes/dummy.py:136-142 | processing leaves the inputs and outputs of one discarding step, errors included |
| Dummy.NullSnkN.IsReady | node-editor/lowcaf/nodes/dummy.py:144-146 | ready exactly when input 0 holds a packet |
| Dummy.CounterN.constructor | node-editor/lowcaf/nodes/dummy.py:184-195 | a new counter keeps its id and starts at 0 |
| Dummy.CounterN.Process | node-editor/lowcaf/nodes/dummy.py:205-215 | the new count, inputs and outputs are those of one counting step, errors included |
| Dummy.CounterN.IsReady | node-editor/lowcaf/nodes/dummy.py:217-218 | ready exactly when input 0 holds a packet |
| Dummy.CounterN.Setup | node-editor/lowcaf/nodes/dummy.py:220-223 | setup resets the count to 0 |
| Delete.RangeMembers | node-editor/lowcaf/nodes/delete.py:81 | the values of `range(start, stop, step)` are exactly the numbers between the bounds reached from `start` by whole steps |
| Delete.RangeSound | node-editor/lowcaf/nodes/delete.py:81 | every value the range yields is such an arithmetic member |
| Delete.RangeComplete | node-editor/lowcaf/nodes/delete.py:81 | every arithmetic member is yielded by the range |
| Delete.RangeExample | node-editor/lowcaf/nodes/delete.py:81 | `range(0, 10, 2)`, `range(5, 0, -1)` and `range(0, 0, 1)` yield 0 2 4 6 8, 5 4 3 2 1 and nothing |
| Delete.AsWrittenShouldDrop | node-editor/lowcaf/nodes/delete.py:83-94 | one call of the generator as written consumes exactly one value of the shared iterator, or none once it is exhausted |
| Delete.AsWrittenMissesEvenIndices | node-editor/lowcaf/nodes/delete.py:83-116 | with `range(0, 10, 2)`, as written only packet 0 of the first five is dropped, although 2 and 4 are in the range |
| Delete.AsWrittenDescendingHangs | node-editor/lowcaf/nodes/delete.py:83-116 | with `range(5, 0, -1)`, as written the fourth packet's call never returns |
| Delete.AsWrittenEmptyForwardsAll | node-editor/lowcaf/nodes/delete.py:92-94 | as written, an exhausted or empty range keeps every packet |
| Delete.AsWrittenUnitStep | node-editor/lowcaf/nodes/delete.py:83-116 | as written, a range that counts up by one from the counter drops exactly its members |
| Delete.AsWrittenSetupKeepsIterator | node-editor/lowcaf/nodes/delete.py:124-125 | as written, `setup` resets the counter but not the iterator, so a packet dropped in one run is kept in the next |
| Delete.DelStepOne | node-editor/lowcaf/nodes/delete.py:109-116 | each call takes the front packet, forwards nothing or exactly that packet, forwards nothing exactly when its index is in the range, and advances the index by one |
| Delete.DelStepKeep | node-editor/lowcaf/nodes/delete.py:109-116 | one call appends the front packet to output 0 unless its index is in the range |
| Delete.DelDropsRange | node-editor/lowcaf/nodes/delete.py:109-116 | over any `m` packets, output 0 receives in order exactly the packets whose running index is not in the range |
| Delete.EmptyRangeKeepsAll | node-editor/lowcaf/nodes/delete.py:109-116 | with an empty range every packet is kept, in order |
| Delete.DelN.constructor | node-editor/lowcaf/nodes/delete.py:67-81 | a new node holds the range's values and starts counting at 0 |
| Delete.DelN.Create | node-editor/lowcaf/nodes/delete.py:67-81 | construction fails with `ValueError` exactly for a zero step; otherwise the node's drop set is exactly the range's arithmetic members and its count starts at 0 |
| Delete.DelN.Process | node-editor/lowcaf/nodes/delete.py:109-116 | the new index, inputs and outputs are those of one corrected deleting step, errors included |
| Delete.DelN.IsReady | node-editor/lowcaf/nodes/delete.py:118-122 | ready exactly when input 0 holds a packet |
| Delete.DelN.Setup | node-editor/lowcaf/nodes/delete.py:124-125 | setup resets the running index to 0 |
| Repeater.Copies | node-editor/src/nodes/repeater.py:73-75 | `n` copies of the packet, none when `n` is below one |
| Repeater.RepeaterCopies | node-editor/src/nodes/repeater.py:70-75 | the repeater takes exactly the front packet and appends exactly `repeats` copies of it after what output 0 already held; no other output changes |
| Repeater.RepeaterN.constructor | node-editor/src/nodes/repeater.py:47-59 | a new repeater keeps its id and its repeat count, 2 by default |
| Repeater.RepeaterN.Process | node-editor/src/nodes/repeater.py:70-75 | the copying loop leaves the inputs and outputs of one repeating step, errors included |
| Repeater.RepeaterN.IsReady | node-editor/src/nodes/repeater.py:77-78 | ready exactly when input 0 holds a packet |
| NS3Src.NS3SrcCases | node-editor/src/nodes/ns3src.py:120-143 | with nothing pending nothing changes; an end-of-data message is consumed and clears the ready flag; a packet is consumed and appended to output 0; any other message raises `NotImplementedError` |
| NS3Src.Payloads | node-editor/src/nodes/ns3src.py:135-140 | the packets a run of packet messages carries, one per message, in order |
| NS3Src.NS3SrcDrains | node-editor/src/nodes/ns3src.py:120-146 | a pipe holding packets followed by the end-of-data marker is drained in one call per message: every packet reaches output 0 once and in arrival order, and the source then answers not ready |
| NS3Src.NS3SrcN.constructor | node-editor/src/nodes/ns3src.py:89-108 | a new source keeps its id, address and port, has no connection and is not ready |
| NS3Src.NS3SrcN.Setup | node-editor/src/nodes/ns3src.py:148-153 | after setup the source holds a fresh empty pipe and is ready |
| NS3Src.NS3SrcN.Process | node-editor/src/nodes/ns3src.py:120-143 | the new ready flag, pipe and outputs are those of one source step, errors included (`AttributeError` before setup); the socket end of the pipe is untouched |
| NS3Src.NS3SrcN.IsReady | node-editor/src/nodes/ns3src.py:145-146 | the answer is the ready flag, whatever the inputs hold |
| NS3Snk.Wrap | node-editor/lowcaf/nodes/ns3snk.py:120-124 | each packet becomes one pipe message carrying it, in order |
| NS3Snk.NS3SnkForwards | node-editor/lowcaf/nodes/ns3snk.py:120-124 | after setup, `m` calls send the first `m` queued packets onto the pipe, each once and in queue order, and remove exactly those packets from the input |
| NS3Snk.NS3SnkRunUnfold | node-editor/lowcaf/nodes/ns3snk.py:120-124 | the first call of a run sends the front packet and leaves the rest of the run to do the others |
| NS3Snk.NS3SnkUnset | node-editor/lowcaf/nodes/ns3snk.py:120-124 | before setup a queued packet is consumed and `AttributeError` raised; after setup the same call succeeds |
| NS3Snk.NS3SnkN.constructor | node-editor/lowcaf/nodes/ns3snk.py:88-108 | a new sink keeps its id, address and port, has no connection and is not ready |
| NS3Snk.NS3SnkN.Setup | node-editor/lowcaf/nodes/ns3snk.py:129-134 | after setup the sink holds a fresh empty pipe and is ready |
| NS3Snk.NS3SnkN.Process | node-editor/lowcaf/nodes/ns3snk.py:120-124 | the messages sent on the pipe and the inputs are those of one sink step, errors included; the node end of the pipe is untouched |
| NS3Snk.NS3SnkN.IsReady | node-editor/lowcaf/nodes/ns3snk.py:126-127 | ready exactly when input 0 holds a packet |
| Nodes.SetupIdempotent | node-editor/lowcaf/nodes/ifaces/rnode.py:60-68 | setting a node up twice is the same as once; only a switch refuses, with `RuntimeError`, exactly when it holds an empty matcher; an ns-3 source that was set up is ready and an ns-3 sink can send |
| Nodes.SetupAny | node-editor/lowcaf/nodes/ifaces/rnode.py:60-68 | setup on the node object leaves exactly the state, or raises exactly the error, that the node kind's setup gives |
| Nodes.ProcessKeepsPorts | node-editor/lowcaf/nodes/ifaces/rnode.py:37-49 | `process` succeeds only for a kind that overrides it, and never changes the number of inputs or outputs |
| Nodes.ReadyKeepsState | node-editor/lowcaf/nodes/ifaces/rnode.py:51-58 | `is_ready` raises `NotImplementedError` exactly for a kind that does not override it, and changes the state of no node but the dummy source |
| Nodes.IsReadyAny | node-editor/lowcaf/nodes/ifaces/rnode.py:51-58 | `is_ready`, dispatched to the node's kind, gives that kind's answer and new state |
| Nodes.ProcessAny | node-editor/lowcaf/nodes/ifaces/rnode.py:37-49 | `process`, dispatched to the node's kind, gives that kind's new state, inputs and outputs, errors included |
| Nodes.TeardownAny | node-editor/lowcaf/nodes/ifaces/rnode.py:70-75 | `teardown`, dispatched to the node's kind: no modelled kind overrides the default, so no object the node owns changes |
| LApplication.EthernetDelivery | ns-3-connector-app/lapplication.cc:371-400 | a payload schedules a send exactly when it holds a 14-byte Ethernet header, and then it is the destination MAC, the source MAC, the EtherType and the scheduled packet, in that order |
| LApplication.ParseInbound | ns-3-connector-app/lapplication.cc:343-410 | a frame is taken only when at least the 15 header bytes are there and the first is the packet command, and it removes between 15 bytes and the whole buffer |
| LApplication.DrainStops | ns-3-connector-app/lapplication.cc:301-304 | the inner loop leaves a suffix of the buffer with no complete packet frame at its front |
| LApplication.AsWrittenOuterLoopSpins | ns-3-connector-app/lapplication.cc:286-333 | as written, once a pass leaves bytes behind, the next pass leaves exactly the same bytes, so the loop never ends |
| LApplication.AsWrittenOuterLoopExamples | ns-3-connector-app/lapplication.cc:286-333 | a read ending after a frame's first byte, or the end-of-simulation command, leaves the outer loop with bytes it never removes |
| LApplication.ReadsEngineFrame | ns-3-connector-app/lapplication.cc:343-410 | a frame written by the engine's ns-3-bound serialiser, whatever follows it, is read as one whole frame with the engine's delay and data |
| LApplication.DrainEngineFrames | ns-3-connector-app/lapplication.cc:301-304 | a stream of engine frames schedules one send per frame that carries an Ethernet header, in frame order, and then goes on with what follows |
| LApplication.HexRoundTrip | ns-3-connector-app/lapplication.cc:42-51 | a hex digit printed by `%02x` reads back as its value |
| LApplication.MacRoundTrip | ns-3-connector-app/lapplication.cc:372-375 | the text form of a MAC address reads back as the same six bytes |
| LApplication.Mac48ToStr | ns-3-connector-app/lapplication.cc:42-51 | the 18-character result is the colon-separated lowercase hex text of the six bytes followed by NUL |
| LApplication.CopyInto | ns-3-connector-app/lapplication.cc:282-282 | `memcpy` replaces exactly the target range of the array with the source bytes and leaves the rest alone |
| LApplication.LApp.constructor | ns-3-connector-app/lapplication.h:115-115 | a new connection starts with an empty 512000-byte receive buffer and nothing scheduled |
| LApplication.LApp.Append | ns-3-connector-app/lapplication.cc:280-284 | the received bytes go behind the buffered ones and nothing is scheduled |
| LApplication.LApp.ProcessRcvPacket | ns-3-connector-app/lapplication.cc:343-410 | -1 with nothing changed exactly when no complete frame is at the front; otherwise 0, the frame's send scheduled and exactly the frame's bytes removed from the front |
| LApplication.LApp.RemoveFront | ns-3-connector-app/lapplication.cc:405-408 | the first `k` buffered bytes are dropped and the rest moved to the front |
| LApplication.LApp.DrainFrames | ns-3-connector-app/lapplication.cc:301-304 | the inner loop schedules exactly the sends `Drain` defines, in order, and leaves its remainder |
| LApplication.LApp.Receive | ns-3-connector-app/lapplication.cc:280-304 | a read is appended; when the front then holds a packet command every complete frame is processed in order and the incomplete rest kept, otherwise nothing is scheduled |
| LApplication.LApp.DispatchPacket | ns-3-connector-app/lapplication.cc:457-500 | a non-empty captured packet, cut to 60000 bytes, becomes exactly the engine-bound frame the engine's serialiser writes for it with delay 0; an empty packet sends nothing |
| LApplication.DrainAdvance | ns-3-connector-app/lapplication.cc:301-304 | one turn of the inner loop keeps the sends scheduled so far plus those still to schedule, and the final remainder, the same |
| LApplication.SerializeLayout | ns-3-connector-app/lapplication.cc:486-495 | the engine-bound frame is command, application id, engine node id, delay, length and data, each field big-endian in its width |
| LApplication.DispatchedFrameDecodes | ns-3-connector-app/lapplication.cc:457-500 | a frame the C++ side dispatches decodes on the engine side to exactly that one frame with nothing left over |
| LApplication.AsWrittenAgrees | ns-3-connector-app/lapplication.cc:343-410 | where no 32-bit wrap happens, the compiled reader accepts the same frames as the exact one, removes the same bytes, and asks for the payload after the Ethernet header |
| LApplication.WrappedLengthAccepted | ns-3-connector-app/lapplication.cc:382-407 | a 15-byte buffer with length field 0xFFFFFFF1 passes the compiled completeness test with a 4294967267-byte packet and no byte removed, where the exact reader waits |
| LApplication.ShortFrameUnderflows | ns-3-connector-app/lapplication.cc:395 | a complete frame with length 0 makes the compiled reader ask for a 4294967282-byte packet, where the exact reader removes the frame and schedules nothing |
| Decimal.DigitValue | node-editor/src/nodes/jgf/jedge.py:30-31 | a digit character's value is below 10 and prints back as that character |
| Decimal.NatStr | node-editor/src/nodes/jgf/jedge.py:21-22 | `str(n)` of a non-negative number is a non-empty string of digits with no leading zero unless `n` is 0 |
| Decimal.IntStr | node-editor/src/nodes/jgf/jedge.py:21-22 | `str(i)` starts with a minus sign exactly for a negative `i`, and is otherwise made of digits |
| Decimal.ParseInt | node-editor/src/nodes/jgf/jedge.py:30-31 | `int(s)` fails only with `ValueError` |
| Decimal.DigitsValueNatStr | node-editor/src/nodes/jgf/jedge.py:21-31 | the digits of `str(n)` read back as `n` |
| Decimal.StripUnpadded | node-editor/src/nodes/jgf/jedge.py:30-31 | stripping a string that neither starts nor ends with whitespace leaves it unchanged |
| Decimal.ParseNatStr | node-editor/src/nodes/jgf/jedge.py:21-31 | `int(str(n)) == n` for every non-negative `n` |
| Decimal.ParseNegStr | node-editor/src/nodes/jgf/jedge.py:21-31 | `int(str(-n)) == -n` for every positive `n` |
| Decimal.ParseIntStr | node-editor/src/nodes/jgf/jedge.py:21-31 | `int(str(i)) == i` for every integer |
| Decimal.IntStrInjective | node-editor/src/nodes/jgf/jedge.py:21-22 | two integers with the same decimal text are equal |
| Jgf.Get | node-editor/src/nodes/jgf/jedge.py:30-32 | `d[key]` gives the key's value exactly when `d` is a dict holding the key; otherwise `KeyError` for a dict and `TypeError` for any other value |
| Jgf.AsInt | node-editor/src/nodes/jgf/jedge.py:8-9 | a typed integer field accepts exactly JSON integers |
| Jgf.AsStr | node-editor/src/nodes/jgf/jedge.py:10-10 | a typed string field accepts exactly JSON strings |
| Jgf.AsDict | node-editor/src/nodes/jgf/jnode.py:38-48 | a typed dict field accepts exactly JSON objects |
| Jgf.AsInts | node-editor/src/nodes/jgf/jnode.py:38-48 | a list of integers is accepted exactly when every item is an integer, and then item by item |
| Jgf.IntsJson | node-editor/src/nodes/jgf/jnode.py:15-26 | the JSON list of a list of integers holds them item by item |
| Jgf.IntsRoundTrip | node-editor/src/nodes/jgf/jnode.py:15-48 | a list of integers written as JSON reads back as the same list |
| JEdges.ToJgf | node-editor/src/nodes/jgf/jedge.py:12-24 | the record has exactly the keys `source`, `target` and `relation`, and the relation is stored as given |
| JEdges.PyInt | node-editor/src/nodes/jgf/jedge.py:29-31 | `int` keeps a JSON integer and refuses a list or an object with `TypeError` |
| JEdges.FromJgf | node-editor/src/nodes/jgf/jedge.py:26-33 | a record is read only when it holds all three keys; the edge's ids are `int` of the stored source and target, and its relation the stored string |
| JEdges.RoundTrip | node-editor/src/nodes/jgf/jedge.py:12-33 | `JEdge.from_jgf(e.to_jgf()) == e` for every edge |
| JEdges.ToJgfInjective | node-editor/src/nodes/jgf/jedge.py:12-24 | two edges with the same JGF record are the same edge |
| JNodes.ToJgf | node-editor/src/nodes/jgf/jnode.py:15-26 | the export is keyed by the node id alone, and its entry holds exactly the label and the metadata, whose keys are exactly id, type, position and node metadata |
| JNodes.FromJgf | node-editor/src/nodes/jgf/jnode.py:38-48 | an entry that is not a dict raises `TypeError`, and a dict without `metadata` raises `KeyError` |
| JNodes.RoundTrip | node-editor/src/nodes/jgf/jnode.py:15-48 | `JNode.from_jgf(n.to_jgf()[n.node_id]) == n` for every node |
| JNodes.FromJgfToJgf | node-editor/src/nodes/jgf/jnode.py:15-48 | an entry with exactly the keys the export writes is the export of the node read from it |
| JNodes.Eq | node-editor/src/nodes/jgf/jnode.py:50-59 | two nodes compare equal exactly when they are the same node; any other object gets `NotImplemented` |
| JNodes.AttrNode | node-editor/src/nodes/jgf/jnode.py:28-36 | an attr node has the node's id, label and type `attr`, no position, and the given metadata with `attr_id` added |
| JNodes.InitAttr | node-editor/src/nodes/jgf/jnode.py:28-36 | `init_attr` adds `attr_id` to the given dict in place (or to a new one) and the node holds exactly that dict's entries |
| JNodes.AttrIdSurvives | node-editor/src/nodes/jgf/jnode.py:15-48 | an attr node read back from its export still has type `attr` and its port's `attr_id` |
| JNodes.Dict.constructor | node-editor/src/nodes/jgf/jnode.py:28-36 | a new dict holds the given entries |
| NodeManagement.AddKeepsInStep | node-editor/lowcaf/nodeeditor/nodemanager.py:10-15 | filing a node under a free node id and a free dpg id keeps the two maps holding the same nodes, each under its own ids |
| NodeManagement.AddTakenIdBreaksStep | node-editor/lowcaf/nodeeditor/nodemanager.py:10-15 | filing a node under a node id already in use, with a new dpg id, leaves the replaced node reachable by its old dpg id |
| NodeManagement.RemoveKeepsInStep | node-editor/lowcaf/nodeeditor/nodemanager.py:17-29 | removing a node from both maps keeps them in step |
| NodeManagement.RangeCard | node-editor/lowcaf/nodeeditor/nodemanager.py:49-59 | a set holding every integer below `m` has at least `m` elements, so the search for a free id ends |
| NodeManagement.NodeManager.constructor | node-editor/lowcaf/nodeeditor/nodemanager.py:6-8 | a new registry holds no nodes |
| NodeManagement.NodeManager.GetDpg | node-editor/lowcaf/nodeeditor/nodemanager.py:31-32 | an unknown dpg id raises `KeyError`; in a registry in step the node found is filed under that dpg id and under its own node id |
| NodeManagement.NodeManager.GetNodeId | node-editor/lowcaf/nodeeditor/nodemanager.py:34-35 | `KeyError` exactly for a free node id; in a registry in step the node found is filed under that node id and under its own dpg id |
| NodeManagement.NodeManager.AddNode | node-editor/lowcaf/nodeeditor/nodemanager.py:10-15 | the node is filed under both its ids, replacing what was there; a new node id joins the key order at its end; both lookups then find the node; a registry in step stays in step when both ids were free |
| NodeManagement.NodeManager.RemDpg | node-editor/lowcaf/nodeeditor/nodemanager.py:17-22 | an unknown dpg id raises `KeyError` with nothing changed; otherwise the dpg entry goes, then the node-id entry, or `KeyError` when it is missing; a registry in step stays in step and the node id becomes free |
| NodeManagement.NodeManager.RemNodeId | node-editor/lowcaf/nodeeditor/nodemanager.py:24-29 | an unknown node id or a missing dpg entry raises `KeyError` with nothing changed; otherwise both entries go, the id leaves the key order, and a registry in step stays in step |
| NodeManagement.NodeManager.Values | node-editor/lowcaf/nodeeditor/nodemanager.py:37-39 | the nodes of the node-id map, one per key, in key order |
| NodeManagement.NodeManager.Items | node-editor/lowcaf/nodeeditor/nodemanager.py:41-44 | one entry per key in key order, pairing the node's two ids with the node; in a registry in step both ids find the node again |
| NodeManagement.NodeManager.CpyNodeIdDict | node-editor/lowcaf/nodeeditor/nodemanager.py:46-47 | the copy holds exactly the node-id map's entries |
| NodeManagement.NodeManager.GetFreeNodeId | node-editor/lowcaf/nodeeditor/nodemanager.py:49-59 | the result is the smallest non-negative node id not in use |
| LinkManagement.LinkManager.constructor | node-editor/lowcaf/nodeeditor/linkmanager.py:6-7 | a new manager holds no links |
| LinkManagement.LinkManager.AddLink | node-editor/lowcaf/nodeeditor/linkmanager.py:9-11 | the link is added, and adding a link already there changes nothing |
| LinkManagement.LinkManager.RemoveLink | node-editor/lowcaf/nodeeditor/linkmanager.py:13-15 | a present link is removed; an absent one raises `KeyError` with nothing changed |
| LinkManagement.LinkManager.GetLinks | node-editor/lowcaf/nodeeditor/linkmanager.py:17-19 | every link exactly once, and nothing else |

## Left out

- The online branch of `drive` is not modelled (node-editor/lowcaf/packetprocessing/packetprocessor.py:102-130). This covers the child process, the command pipe, the connection barrier, `time.sleep` and the terminate message. `msgdispatcher.py` and its selector loop are not part of this model either, because all of this is concurrency.
- PacketProcessing.PacketProcessor.Drive: runs the offline branch whatever the socket count; the test that picks between the branches is not modelled.
- PacketProcessing.PacketProcessor.RegisterSocket: takes the engine end of the pipe as a parameter. `new_socket`, `Pipe()` and the listening socket's OS calls are not modelled.
- PacketProcessing.PacketProcessor.Setup: states the node and socket state after a successful `setup` and the error that stops it. The state a node is left in after raising is not stated.
- PacketProcessing.NewPacketProcessor: requires every node object to be distinct and `order` to list the node keys once each. The aliasing that Python allows is not modelled.
- NodeSelector.Run: bounded by a `fuel` count of loop turns. `gen_nodes` need not terminate, and monotonicity in the fuel is not proved.
- NodeSelector.PrioritySelector.GenNodes: bounded by the same `fuel`. When the fuel runs out the queue may still be non-empty.
- `PrioritySelector` queues node keys rather than `NodeState` objects. Python's `not in` on the deque compares the same objects, so the two agree.
- Generators are not modelled lazily: `gen_nodes` is a loop run to completion (or to the fuel bound), and `get_links` and `items` return sequences.
- LinkManagement.LinkManager.GetLinks: returns every link once, in an order left open, as Python's set iteration order is.
- Nodes.SetupAny: `RNode` is reduced to its id, port counts and kind. `inode` is always `None`, so the GUI `dpg.set_value` calls drop out. The `isinstance` asserts of the constructors hold by typing.
- Python `deepcopy` is modelled as value copies, in the demux Duplicate mode and the repeater.
- Switch.SwitchN.Setup: the matcher values are a field of the node; the DearPyGui widget read that fills them in `setup` is not modelled.
- Switch.SwitchN.Process: the value of `str(comp)` is an input string (`Option` when the field is missing), since scapy is not modelled.
- Switch.SwitchN.Setup: with `inode = None` the source would raise `AttributeError` while formatting the message. The model returns the `RuntimeError` of the GUI case.
- Compare.CompN.Process: `t_diff` is an integer difference of integer timestamps. The source uses scapy's float times.
- Floats, randomness, pcap, TUN/TAP, histograms and plotting nodes are not part of this model.
- The Python `print` and logging calls are not modelled.
- BBSockets.BBSocket.ProcessIncoming: the read is the parameter `received` and the Ethernet dissection is the parameter `ether`. `recv`, `sendall`, `close` and the selector registration are not modelled.
- BBSockets.BBSocket.ProcessOutgoing: requires a message to be waiting on the pipe. The source's `recv` blocks until one arrives.
- JNodes.FromJgf: the fields are typed. A field of the wrong JSON type becomes `TypeError`, and the position is a list of integers.
- JEdges.FromJgf: the relation is typed as a string. A relation of another JSON type becomes `TypeError`, where `from_jgf` stores whatever value it finds.
- Dummy.DummyPacket: the capture time is fixed at 0. scapy stamps a newly built `Ether` frame with the wall clock, which is not modelled.
- LApplication.LApp.DispatchPacket: returns after the send. The C++ method then calls `LListenForServerData` (lapplication.cc:510) to poll the engine again; that poll is `LApp.Receive` on the bytes it reads, run as a separate call.
- JNodes.InitAttr: the in-place `|=` on the caller's dict is modelled through a `Dict` object shared with the caller. `JNode` stores a snapshot of the metadata.
- Decimal.ParseInt: accepts ASCII digits, an optional sign and surrounding ASCII whitespace. Python's `int` also accepts other Unicode digits, underscores and other whitespace.
- The C++ handling of END_OF_SIM and CURRENTLY_NO_DATA is not modelled: the `shutdown` and `commactive` changes and the simulator stop. Neither are `socket`, `connect`, `select`, `recv`, `send`, `sleep` or `exit`.
- The ns-3 runtime is not modelled: `Simulator::Schedule`, `NetDevice` callbacks, `Create<Packet>`, `Mac48Address` and `NS_LOG`. A scheduled send is recorded as a value.
- LApplication.LApp.Append: requires the read to fit the 512000-byte buffer. The C++ append does not check the capacity.
- LApplication.LApp.Receive: requires the read to fit the 512000-byte buffer, as `Append` does.
- LApplication.Mac48ToStr: returns the 17 characters followed by the terminating NUL. The one-byte overrun of the last `snprintf` and the `malloc` that is never freed are not modelled.
- LApplication.LApp.ProcessRcvPacket: reading the MAC and EtherType before the completeness check can read past the buffered data. The model reads them only from a complete frame.

## Findings

| source | as written | input that shows it | evidently intended | confidence | as-written member | corrected member |
|---|---|---|---|---|---|---|
| node-editor/lowcaf/nodes/delete.py:83-116 | each `process` builds a new `_should_drop` generator, which draws the next value of the shared range iterator and compares only that value with the counter | `range(0, 10, 2)`: packet 2 is kept because the call for packet 1 drew and discarded 2; a descending range spins forever | packet k is dropped exactly when k is in the range | not executed | Delete.AsWrittenMissesEvenIndices | Delete.DelDropsRange |
| ns-3-connector-app/lapplication.cc:382-407 | the completeness test `15 + pktlen > len` is computed in unsigned 32-bit arithmetic | a 15-byte buffer with length field 0xFFFFFFF1: the sum wraps to 0 and the frame passes as complete | the frame is complete only when 15 + pktlen bytes are buffered | not executed | LApplication.WrappedLengthAccepted | LApplication.LApp.ProcessRcvPacket |
| ns-3-connector-app/lapplication.cc:395 | the packet length `pktlen - 14` is computed in unsigned 32-bit arithmetic | a complete 15-byte frame with length field 0: a 4294967282-byte packet is requested | a frame too short for an Ethernet header is removed and schedules nothing | not executed | LApplication.ShortFrameUnderflows | LApplication.EthernetDelivery |
| ns-3-connector-app/lapplication.cc:286-333 | the outer `while (1)` leaves only when the buffer is empty, and only packet frames are ever removed | a read that ends after the first byte of a frame, or the single byte 2 (end of simulation) | keep the incomplete rest and wait for the next read | not executed | LApplication.AsWrittenOuterLoopSpins | LApplication.LApp.Receive |
| node-editor/src/packetprocessing/bbpacket.py:243-281 | `MsgBB2Sim.serialize` writes no MAC field, but `MsgBB2Sim.buff2msg` reads 17 MAC bytes | any ns-3-bound frame: its own decoder does not return it | the layout the C++ reader parses, which matches the serialiser | not executed | BBPackets.BB2SimNoRoundTrip | LApplication.ReadsEngineFrame |
