# Cable: a verified model of the routing registry, the wire codec and the send queue

Cable is a distributed messaging broker. Every broker of a cluster keeps a replica of a
routing registry (which client of which user sits on which node, and which clients listen to
which channel), fed by one Raft log, compacted into snapshots. Clients and brokers speak a
compact binary protocol; each connection sends through a queue with a priority lane. This
project models those parts and proves what they promise, for all inputs, all logs and all
runs. `dafny verify dfyconfig.toml` checks everything.

## What is proved

**Registry and replication** (`Registry`, `History`, `KeyMap`, `Broker`, `Operations`,
`Cluster`, `Fanout`, `Routing`).

- A log alone decides the registry. `History` says, looking only at the events, when an entry
  of user→clients, channel→clients or client→channels must be there, and with which network;
  the three indexes are proved to be exactly that (`ChannelsAreHistory` and its companions).
- The broker's methods loop over Go maps, whose order is arbitrary. In `Broker` each loop
  picks any remaining key, and each method is proved to have the effect of one function on
  the table of entries, so no order matters. A table with tidy nested maps determines those
  maps (`TableDetermines`).
- `userClosedOp` deletes the field named by the *user* id from the client's entry in
  client→channels (cluster/broker.go:840), so that index is not the inverse of
  channel→clients: it keeps stale channels (`ResidueStays`). `StepExact` says exactly when an
  event keeps it exact, and `ResidueUnobservable` that the residue never changes a routing
  answer.
- `Cluster` runs any number of replicas over one growing log of arbitrary bytes: batches,
  snapshots with compaction, snapshots in flight, old snapshots handed over, panics, restarts.
  `ReplicasAgree`: running replicas at the same index, now or at different times, hold equal
  nested maps. attemptSnapshot never panics and never meets its tolerated ErrCompacted branch;
  until a restart compaction points strictly increase (`CompactionAdvances`). Replicas do get
  there: any run goes on until a running replica has applied the whole log (`CatchesUp`), or
  has got it from another's snapshot (`ShipsSnapshot`), and for every log there is a run that
  applies all of it if and only if the decoder gets through it (`AppliedIffClean`).
- A replica panics in a step if and only if the step hands it bytes the decoder panics on or a
  snapshot that is not newer than its state (`CrashIff`, `NoCrashIff`). Such bytes, once
  committed, stop every replica at that index for good (`FaultStopsAll`). Raft hands over only
  newer snapshots, and the cluster proposes only encoded operations: under these two guarantees
  nothing ever panics (`GuardedRunsStayUp`).
- `Routing` joins the layers: from the bytes in the log, through any run, to the totals that
  SendToChannel and SendToUser return and the counts that inspect reports.

**Codec and packets** (`Codec`, `Coder`, `Packet`). Round trips for varints, strings, maps in
any enumeration order, the four-form header and all eight packets, with any bytes following,
and for any number of packets on a stream.

- The documentation of `Property` says that a packet may have 256 properties
  (packet/packet.go:95). The code writes the count in one byte, so 256 are announced as none.
  `PacketRoundTrip` shows that a packet survives if and only if it does not carry all 256. With
  256 it comes back as `Lossy` says: without properties, and a MESSAGE, REQUEST or RESPONSE with
  the bytes of the properties in front of its payload; `FullMessageIsLost` is such a packet. It
  still delimits itself, so the packets behind it on a stream are not affected.
- Every error has its bytes: `UnmarshalOutcome`, `StreamOutcome` and `DecodeOutcome` say of any
  bytes which answer Unmarshal, ReadFrom and applyRaftOp give. `Fails` walks over the fields of
  a message, and the first that cannot be read decides. A stream that has ended reports the end
  of input for ever (`StreamEnds`).
- The decoder adds a length prefix to its position in uint64, so a huge prefix wraps past the
  bound check and slicing panics: among those errors this is `SliceFault`. `PingPanics` and
  `CloseBytesPanic` are a 14-byte packet and an 11-byte log entry that make it panic.
- The formats themselves are fixed on the bits (`VarintBytes`, `UintBytes`) and in the contracts
  of the writing methods, so that reader and writer cannot agree on another one.

**Queue and maps** (`Queue`, `RMap`). Over every interleaving of pushers, closer and worker: at
most one ordinary task overtakes an accepted jump, at most one is started after the close, and
an exited worker has run every accepted jump. `LanesAreHistory` reads off the actions alone which
tasks each lane has accepted and started. No task is stuck while the queue is open, and after the
close the worker can always drain the jumps and exit (`WorkerServes`, `WorkerDrains`). The atomic
map holds what its operations leave (`MapIsHistory`), and its separate counter is conserved.

## How the source is represented

Bytes are integers below 256 and Go strings are byte sequences, as they are in Go. The methods
that write and read the packet header use the source's shifts, masks and ors, defined bit by bit
in `Bits`; `HeaderBits`, `ByteFields` and `LengthBits` prove that they are the sums, quotients
and remainders of the format. uint64 sums that can wrap are written out (`Wrap`, `Sub64`), as is
`int(l)` turning negative (`LoopCount`). A Go panic in the decoder (slicing with a wrapped bound)
is the explicit result `SliceFault`. An iteration order of a Go map is a sequence of its entries
(`Enumerates`), or an arbitrary choice of the next key in a loop.

## Model

| member | source | states |
|---|---|---|
| `Bytes.EnumerationIsExact` | coder/coder.go:191-194 | an iteration order visits every key of the map once, with its value |
| `Codec.UvarintInverse` | coder/coder.go:172-174 | every value that fits is read back from its varint, whatever stands around it |
| `Codec.UvarintMinimal` | coder/coder.go:172-174 | no byte string that reads as a value is shorter than the value's encoding, and none is longer than ten bytes |
| `Codec.VarintRoundTrip` | coder/coder.go:297-307 | every uint64 is read back and the cursor moves by exactly the length of its encoding, at most ten |
| `Codec.VarintBytes` | coder/coder.go:172-174 | byte k of a varint is the k-th group of seven bits, with the high bit set on all but the last, above which no bits are left |
| `Codec.VarintOutcome` | coder/coder.go:297-307 | exactly on which bytes reading a varint is too short and on which it overflows |
| `Codec.UintRoundTrip` | coder/coder.go:237-259 | a big-endian integer of any width is read back and the cursor moves by its width |
| `Codec.UintBytes` | coder/coder.go:237-259 | byte k of a w-byte integer is bits 8(w-1-k) and up: big-endian |
| `Codec.ReadBytesOutcome` | coder/coder.go:216-226 | reading succeeds iff the bytes are there, fails as too short iff they are not and the sum does not wrap, and panics iff the sum wraps |
| `Codec.DataRoundTrip` | coder/coder.go:177-188 | a length-prefixed string is read back and the cursor ends behind it |
| `Codec.StrMapRoundTrip` | coder/coder.go:322-340 | a string map is recovered from every enumeration it may have been written in, the bytes behind it unread |
| `Codec.PairsBound` | coder/coder.go:328-338 | a claimed count beyond half the bytes left makes the read fail, at the latest in the turn after those bytes run out |
| `Codec.Uint8MapSize` | coder/coder.go:202-208 | uint8 keys allow at most 256 entries |
| `Codec.Uint8MapRoundTrip` | coder/coder.go:356-374 | a property map is recovered from every enumeration iff it has fewer than 256 entries; with 256 it reads as empty |
| `Codec.DataFails` | coder/coder.go:315-321 | reading a string fails with an error iff its varint does, or its bytes end past the buffer (too short) or past 2^64 (panic) |
| `Codec.PairsFail` | coder/coder.go:328-338 | reading pairs fails with an error iff the key or value of a pair that is reached does |
| `Codec.StrMapFails` | coder/coder.go:322-340 | reading a string map fails with an error iff its count or a pair within it does; a count of 2^63 or more reads as the empty map |
| `Codec.PropsFail` | coder/coder.go:362-372 | reading properties fails with an error iff a property that is reached lacks its key or has a value that fails |
| `Codec.Uint8MapFails` | coder/coder.go:356-374 | reading a property map fails with an error iff its count is missing or a property within it fails |
| `Bits.OrDisjoint` | packet/packet.go:230-252 | or-ing a value shifted left with one that fits below it adds them |
| `Coder.Encoder.WriteVarint` | coder/coder.go:172-174 | the loop appends exactly the varint of the value |
| `Coder.Encoder.WriteData` | coder/coder.go:177-183 | appends the length prefix and the bytes, also when there are none |
| `Coder.Encoder.WriteStrMap` | coder/coder.go:189-195 | appends the format of some enumeration of the map, whichever order is taken |
| `Coder.Encoder.WriteUInt8Map` | coder/coder.go:202-208 | appends the one-byte count and the entries of some enumeration of the map |
| `Coder.ScanUvarint` | coder/coder.go:298-298 | the accumulating loop yields the varint's value and length, or which of the two errors |
| `Coder.Decoder.ReadBytes` | coder/coder.go:216-226 | the bytes and the new position, or the error, of the format; the cursor stays in the buffer |
| `Coder.Decoder.ReadVarint` | coder/coder.go:297-307 | the varint and the cursor behind it, or the error |
| `Coder.Decoder.ReadData` | coder/coder.go:315-321 | the prefixed bytes and the cursor behind them, or the first error |
| `Coder.Decoder.ReadStrMap` | coder/coder.go:322-340 | the map of the pairs read, or the first error; at most half as many turns as bytes left, plus one, whatever count is claimed |
| `Coder.Decoder.ReadUInt8Map` | coder/coder.go:356-374 | the map of the entries read, or the first error; the cursor stays in the buffer |
| `Coder.Decoder.ReadAll` | coder/coder.go:375-383 | everything from the cursor on, and the cursor at the end |
| `KeyMap.SetKeyLeaves` | internal/safe/keymap.go:15-18 | setting a key adds or overwrites exactly one entry of the index and keeps it free of empty inner maps |
| `KeyMap.DeleteKeyLeaves` | internal/safe/keymap.go:40-47 | deleting a key removes exactly one entry and leaves no empty inner map |
| `KeyMap.LeavesDetermine` | internal/safe/keymap.go:5-7 | without empty inner maps, nodes and entries determine the nested maps |
| `KeyMap.KeysAreLive` | internal/safe/keymap.go:40-50 | a key is listed iff it has at least one field |
| `KeyMap.KeyMap.SetKeyIn` | internal/safe/keymap.go:15-18 | the two-step update sets the field, keeps the counter equal to the number of keys and no inner map empty |
| `KeyMap.KeyMap.Set` | internal/safe/keymap.go:51-53 | stores a whole inner map and keeps the counter equal to the number of keys |
| `KeyMap.KeyMap.Restore` | cluster/broker.go:954-959 | for every order, a fresh KeyMap filled from a dump holds exactly the dump, its counter the number of keys |
| `KeyMap.KeyMap.DeleteKeyIn` | internal/safe/keymap.go:40-47 | the two-step update deletes the field, prunes an emptied key and keeps the counter |
| `KeyMap.KeyMap.Len` | internal/safe/keymap.go:48-50 | the number of keys that have at least one field |
| `Registry.StepInv` | cluster/broker.go:816-889 | every event keeps: equal node sets, every channel entry mirrored in client→channels, every listed client owned by a user on that node |
| `Registry.ReplayInv` | cluster/cluster_raft.go:358-381 | every registry reachable by a log satisfies that invariant |
| `Registry.CloseSilences` | cluster/broker.go:832-849 | after any log followed by a close, no channel of that node lists the client |
| `Registry.ResidueStays` | cluster/broker.go:840-848 | after any log, opening on a channel and closing leaves the channel in client→channels although the client is off it |
| `Registry.CloseExact` | cluster/broker.go:840-840 | a close keeps client→channels exact iff the client is on no channel but one named like its user |
| `Registry.StepExact` | cluster/broker.go:816-889 | from an exact state, an event keeps client→channels the exact inverse iff it is not such a close |
| `Registry.ResidueUnobservable` | cluster/broker.go:832-849 | after every log users, channels and nodes equal those of a registry with an exact client→channels, and the real index only has more |
| `History.UsersAreHistory` | cluster/broker.go:820-835 | a user owns a client on a node over a network iff the latest event touching the three is an open with that network |
| `History.ChannelsAreHistory` | cluster/broker.go:816-889 | a client is listed under a channel with a network iff the latest event touching them is an open naming the channel or a join by a then owner, with that network |
| `History.LinksAreHistory` | cluster/broker.go:816-889 | client→channels has an entry iff the latest event touching it put it there, where a close touches only the channel named like the user |
| `History.NodesAreHistory` | cluster/cluster_raft.go:428-432 | a node is in all three indexes iff a client opened on it after its latest removal |
| `Broker.TableDetermines` | cluster/broker.go:172-174 | two registries with the same entries and nodes and no empty inner maps are the same nested maps |
| `Broker.Broker.UserOpenedOp` | cluster/broker.go:816-825 | for every channel order: the effect of an open on the table of entries, no empty inner map |
| `Broker.Broker.UserClosedOp` | cluster/broker.go:832-849 | for every channel order and every absent node: the effect of a close, deferred delete included |
| `Broker.Broker.JoinChannelOp` | cluster/broker.go:856-869 | for every order of nodes, clients and channels: the effect of a join |
| `Broker.Broker.LeaveChannelOp` | cluster/broker.go:876-889 | for every order of nodes, clients and channels: the effect of a leave |
| `Broker.Broker.ApplyRemoveNode` | cluster/cluster_raft.go:428-432 | removes exactly the node's entries from all three indexes |
| `Broker.Broker.MakeSnapshot` | cluster/broker.go:897-943 | the dump equals the three indexes, for every iteration order |
| `Broker.Broker.RecoverFromSnapshot` | cluster/broker.go:950-972 | the indexes become exactly those of the dump, whatever was there before |
| `Broker.CopyIndex` | cluster/broker.go:899-910 | the doubly nested loop rebuilds the index, for every iteration order |
| `Operations.OpRoundTrip` | cluster/cluster_raft.go:58-181 | decoding the bytes of an operation gives it back, for every order of its channel map |
| `Operations.EncodedLogRefines` | cluster/cluster_raft.go:387-422 | applying a log of encoded operations equals applying the operations |
| `Operations.DecodeOutcome` | cluster/cluster_raft.go:387-422 | an unknown type byte is rejected; else bytes are rejected iff the first field that cannot be read is too short or overflows, and decoding panics iff the end of a string wraps |
| `Operations.DecodeKind` | cluster/cluster_raft.go:29-34 | type bytes 0 to 3 are open, close, join and leave |
| `Operations.CloseBytesPanic` | cluster/cluster_raft.go:111-123 | eleven bytes of a close operation that make decoding panic |
| `Operations.WriteOpened` | cluster/cluster_raft.go:58-65 | appends user, client, network, node and some enumeration of the channels, in this order |
| `Operations.WriteClosed` | cluster/cluster_raft.go:103-108 | appends user, client and node, in this order |
| `Operations.WriteUserChannels` | cluster/cluster_raft.go:137-141 | appends the format of a join or leave with some enumeration of its channels |
| `Operations.WriteOp` | cluster/cluster_raft.go:58-170 | appends the operation's format with some enumeration of its channels |
| `Operations.SubmitOperation` | cluster/cluster_raft.go:191-200 | proposes the type byte, 0 to 3 for open, close, join and leave, and the operation's format |
| `Operations.ReadOpenedOp` | cluster/cluster_raft.go:68-88 | reads the five fields in order, or the first error |
| `Operations.ReadClosedOp` | cluster/cluster_raft.go:111-123 | reads the three fields in order, or the first error |
| `Operations.ReadUserChannelsOp` | cluster/cluster_raft.go:144-152 | reads the user and the channels of a join or leave, or the first error |
| `Operations.ApplyRaftOp` | cluster/cluster_raft.go:387-422 | bytes of a known operation have its effect, rejected and unknown ones none; it panics exactly when decoding does |
| `Packet.BodyRoundTrip` | packet/packet.go:132-145 | each of the eight bodies is read back as written; with 256 properties as the same packet without properties, their bytes put in front of a payload that is read to the end |
| `Packet.ConnectSurvives` | packet/connect.go:102-125 | the CONNECT body is read back, with 256 properties all but those |
| `Packet.CodedSurvives` | packet/connect.go:193-206 | the CONNACK and CLOSE body is read back, with 256 properties all but those |
| `Packet.MessageSurvives` | packet/message.go:80-107 | the MESSAGE body is read back; with 256 properties without them, and with their bytes in front of the payload |
| `Packet.RequestSurvives` | packet/request.go:77-104 | the REQUEST body is read back; with 256 properties without them, and with their bytes in front of the body |
| `Packet.ResponseSurvives` | packet/response.go:98-129 | the RESPONSE body is read back; with 256 properties without them, and with their bytes in front of the body |
| `Packet.HeaderBits` | packet/packet.go:230-267 | shifting and or-ing the type, form and top length bits of the first byte adds multiples of them, and shifting and masking the byte recovers each |
| `Packet.ByteFields` | packet/packet.go:266-267 | shifts and masks take any first byte apart as quotients and remainders do |
| `Packet.LengthBits` | packet/packet.go:273-275 | shifting the length and or-ing in a byte appends the byte |
| `Packet.HeaderRoundTrip` | packet/packet.go:229-276 | for every length up to 2^34-1 the header is decoded to the same type and length |
| `Packet.HeaderForms` | packet/packet.go:18-25 | headers have two, three, four and five bytes, meeting at 2^10, 2^18 and 2^26 |
| `Packet.HeaderShortest` | packet/packet.go:18-25 | no header that decodes to a type and length is shorter than the one Marshal writes |
| `Packet.HeaderOutcome` | packet/packet.go:258-276 | any header is read iff its bytes are there, to the type in its high bits and the big-endian length in the rest |
| `Packet.PacketRoundTrip` | packet/packet.go:220-286 | Unmarshal of a marshalled packet followed by any bytes gives it back iff it does not carry 256 properties, and with 256 gives the packet described above |
| `Packet.FullMessageIsLost` | packet/packet.go:95-95 | a MESSAGE with 256 properties exists, marshals, and comes back without properties and with another payload |
| `Packet.BodyFails` | packet/packet.go:335-389 | reading a body fails with an error iff the first field of its type that cannot be read does |
| `Packet.UnmarshalOutcome` | packet/packet.go:258-286 | for any bytes: too short iff header or announced body are not all there or a field is; unknown type iff the type is 8 or more; overflow or panic iff a field does; else a packet of the announced type |
| `Packet.PingPanics` | packet/packet.go:258-286 | fourteen bytes that make Unmarshal panic |
| `Packet.StreamOne` | packet/packet.go:303-330 | a packet at the front of a stream is read, as Unmarshal would, and exactly its bytes are consumed, also with 256 properties |
| `Packet.StreamRoundTrip` | packet/packet.go:291-330 | any number of encodings back to back is read as that many packets with exactly the rest left; they are the packets sent iff none carries 256 properties |
| `Packet.StreamOutcome` | packet/packet.go:303-330 | for any stream: end of input iff it is empty, or ends before the extra length bytes or before a non-empty body; else the packet of header and body, zeros for what is missing, and exactly those bytes taken off |
| `Packet.StreamEnds` | packet/packet.go:303-330 | behind the last packet of a stream every further read is the end of input |
| `Packet.WriteBody` | packet/packet.go:132-135 | appends the packet's body with some enumeration of its properties |
| `Packet.WriteConnect` | packet/connect.go:102-109 | appends version, user, client, password and properties, in this order |
| `Packet.WriteMessage` | packet/message.go:80-88 | appends kind, properties and payload, in this order |
| `Packet.WriteRequest` | packet/request.go:77-86 | appends id, method, properties and body, in this order |
| `Packet.WriteResponse` | packet/response.go:98-106 | appends id, code, properties and body, in this order |
| `Packet.WriteCoded` | packet/close.go:110-113 | appends a CONNACK or CLOSE body |
| `Packet.PutHeader` | packet/packet.go:228-253 | overwriting the reserved bytes yields header and body, or too large iff the body exceeds 2^34-1 bytes |
| `Packet.Marshal` | packet/packet.go:220-254 | the packet's header and body for some enumeration of its properties, the type's number in the high bits of the first byte, or too large iff the body exceeds 2^34-1 bytes |
| `Packet.UnpackData` | packet/packet.go:335-389 | the packet of the type read from the data, its decoding error, or unknown type |
| `Packet.ReadConnectFrom` | packet/connect.go:112-125 | reads the CONNECT fields in order, or the first error |
| `Packet.ReadCodedFrom` | packet/close.go:116-123 | reads the code and the properties, or the first error |
| `Packet.ReadMessageFrom` | packet/message.go:91-107 | reads the MESSAGE fields, or the first error |
| `Packet.ReadRequestFrom` | packet/request.go:89-104 | reads the REQUEST fields, or the first error |
| `Packet.ReadResponseFrom` | packet/response.go:109-129 | reads the RESPONSE fields, or the first error |
| `Packet.ExtendLength` | packet/packet.go:273-275 | the loop shifts the extra bytes into the length |
| `Packet.Unmarshal` | packet/packet.go:258-286 | the packet announced by the header, or the first error |
| `Packet.ReadFrom` | packet/packet.go:303-330 | the packet at the front of the stream and what is left, or the error |
| `Cluster.FoldAppend` | cluster/cluster_raft.go:359-379 | applying a batch after a log is applying the longer log |
| `Cluster.Cluster.ApplyEntries` | cluster/cluster_raft.go:358-381 | the registry becomes that of the batch applied to it and the applied index the last entry's; it stops iff an entry makes the decoder panic |
| `Cluster.Cluster.AttemptSnapshot` | cluster/cluster_raft.go:444-466 | state and outcome of a snapshot attempt, uint64 subtraction and both storage errors included |
| `Cluster.Cluster.InstallSnapshot` | cluster/cluster_raft.go:285-290 | an installed snapshot replaces registry and indexes; an old one panics |
| `Cluster.AttemptIsGood` | cluster/cluster_raft.go:444-466 | on a reachable replica no underflow, no panic, no ErrCompacted; a snapshot is taken iff more than 1024 entries are new, and then compaction advances |
| `Cluster.InstallIsGood` | cluster/cluster_raft.go:472-487 | a received snapshot makes applySnapshot panic iff it is not newer than the applied index, and else leaves the replica at the snapshot, in agreement with the log |
| `Cluster.NextIsGood` | cluster/cluster_raft.go:270-308 | every step, a panic or an old snapshot included, keeps every running replica, stored snapshot and snapshot in flight equal to the replay of its log prefix |
| `Cluster.RunsAreGood` | cluster/cluster_raft.go:270-308 | that holds in all states of all runs over any committed bytes, and the log only grows |
| `Cluster.ReplicasAgree` | cluster/cluster_raft.go:358-487 | replicas with the same applied index, at the same or different times, hold equal nested maps |
| `Cluster.EntriesAreKept` | cluster/cluster_raft.go:452-465 | in every run each applied index is covered by the snapshot or still stored |
| `Cluster.CrashIff` | cluster/cluster_raft.go:270-308 | a replica panics in a step iff the step applies a batch the decoder panics on or hands over a snapshot not newer than the applied index; attemptSnapshot never panics |
| `Cluster.NoCrashIff` | cluster/cluster_raft.go:270-308 | in a run no replica is ever down iff no step does either of the two |
| `Cluster.FaultStopsAll` | cluster/cluster_raft.go:387-422 | once an entry the decoder panics on is committed, no replica and no snapshot ever gets past it |
| `Cluster.RunsNotBehind` | cluster/cluster_raft.go:444-487 | in every run, until a restart, the applied, snapshot and compaction indexes of a replica never decrease |
| `Cluster.CompactionAdvances` | cluster/cluster_raft.go:457-465 | in every run each snapshot taken moves the compaction point past all earlier ones since the last start, to 1024 below the applied index |
| `Cluster.ApplyMoves` | cluster/cluster_raft.go:358-381 | applying a batch the decoder gets through advances the applied index by its length and makes the registry that of the longer log |
| `Cluster.InstallMoves` | cluster/cluster_raft.go:472-487 | installing a newer snapshot makes the registry the snapshot's and all indexes its index |
| `Cluster.CatchesUp` | cluster/cluster_raft.go:292-299 | any run over a log the decoder gets through can go on until a running replica has applied all of it |
| `Cluster.ShipsSnapshot` | cluster/cluster_raft.go:444-487 | a replica at the end of the log with more than 1024 new entries can bring any lagging one to its registry by a snapshot alone |
| `Cluster.AppliedIffClean` | cluster/cluster_raft.go:358-381 | for every log there is a run in which a replica applies all of it iff the decoder gets through all of it |
| `Cluster.ShippedWhole` | cluster/cluster_raft.go:444-487 | every such log of more than 1024 entries has a run in which a replica gets all of it without applying an entry |
| `Fanout.SendToClients` | cluster/broker.go:797-809 | total is the number of clients and success the number whose listener runs and accepts, for every order |
| `Fanout.Send` | cluster/broker.go:457-491 | for every completion order, total is the number of entries under the name on the local node and on the known peers that answer, and success the number of those whose listener runs and accepts on their node; other nodes count for nothing |
| `Fanout.SendTo` | cluster/broker.go:410-444 | the empty name is refused; else both counts as above |
| `Routing.MeaningIsReplay` | cluster/cluster_raft.go:358-422 | the registry of a log of bytes is the replay of the events it decodes to |
| `Routing.EntryEffects` | cluster/cluster_raft.go:358-432 | one more entry has the effect of the operation it decodes to; a removed node leaves no entry behind and no other entry changes; an added node, an empty entry and rejected bytes change nothing |
| `Routing.ProposedEntry` | cluster/cluster_raft.go:191-200 | a proposed operation is an entry for exactly that operation and never makes the decoder panic |
| `Routing.ReplicaIsReplay` | cluster/cluster_raft.go:358-487 | every replica of every run holds the replay of its log prefix, tidy and within the registry invariant |
| `Routing.GuardedRunsStayUp` | cluster/cluster_raft.go:191-308 | no replica of a run ever panics when only proposed operations and configuration changes are committed and only newer snapshots handed over |
| `Routing.RoutesAreHistory` | cluster/broker.go:816-972 | in every run a replica lists a client under a channel, or under a user, iff the latest applied event touching them puts it there, with that network |
| `Routing.TargetsAreHistory` | cluster/broker.go:410-491 | the entries a send to a channel or user counts are exactly the subscriptions or clients the applied log leaves live |
| `Routing.SendToChannel` | cluster/broker.go:457-491 | on any replica of any run the total counts, of the subscriptions live after the applied log, those on the local node and on known peers that answer, all when all answer; success counts those whose listener, on the network of the latest subscribing event, runs and accepts |
| `Routing.SendToUser` | cluster/broker.go:410-444 | the same of the user's clients after the applied log |
| `Routing.KeysAreHistory` | cluster/broker.go:816-972 | in every run the three indexes have the same nodes, and a node lists a user or channel iff by the applied log it has a client there |
| `Routing.KeyCounts` | cluster/broker.go:701-711 | the reported counters are, node by node, the numbers of keys of the index |
| `Routing.CountsAreLive` | cluster/broker.go:701-711 | in every run these numbers are the numbers of users and of channels with at least one client on the node, by the applied log |
| `Queue.NextInv` | internal/queue/queue.go:45-113 | every step keeps each lane's accepted tasks equal to the started ones followed by the buffer, buffers within capacity, and an exited worker's lane closed and empty |
| `Queue.RunsKeepOrder` | internal/queue/queue.go:45-113 | in all runs that holds, nothing accepted or started is taken back, and a closed jump lane accepts nothing |
| `Queue.LanesAreFifo` | internal/queue/queue.go:34-68 | each lane starts its accepted tasks in order and skips none; buffers stay within capacity |
| `Queue.ReadyBound` | internal/queue/queue.go:45-68 | while the jump lane is ready the ordinary tasks started grow by at most the one the worker is already committed to |
| `Queue.BoundedOvertaking` | internal/queue/queue.go:45-113 | between the acceptance and the start of a jump at most one ordinary task is started |
| `Queue.BoundedShutdown` | internal/queue/queue.go:84-89 | after the jump channel is closed at most one ordinary task is started |
| `Queue.ExitDrainsJumps` | internal/queue/queue.go:45-52 | when the worker has exited every accepted jump has run and none is accepted any more |
| `Queue.LanesAreHistory` | internal/queue/queue.go:45-113 | in every run each lane has accepted exactly the tasks of its sends, in order: pushes checked before the close, ordinary ones on a channel not yet discarded, jumps sent before theirs is closed; and has started as many, from the front, as the worker has received |
| `Queue.PushProceeds` | internal/queue/queue.go:95-113 | on an open queue with room (five jumps, or the capacity) a push goes through and its task is accepted last in its lane |
| `Queue.CloseProceeds` | internal/queue/queue.go:84-89 | an open queue can be closed, in three steps that change nothing else |
| `Queue.WorkerWaitsIff` | internal/queue/queue.go:45-68 | the worker has no step iff it has exited or waits in the inner select with nothing to receive |
| `Queue.OrdinaryTaskStarts` | internal/queue/queue.go:58-64 | in the inner select with an empty open jump lane the only step starts the first ordinary task |
| `Queue.JumpStartsFirst` | internal/queue/queue.go:47-52 | at the outer select the only step starts the first waiting jump |
| `Queue.WorkerServes` | internal/queue/queue.go:45-68 | while the queue is open the worker alone can go on to start the first jump, or without one the first ordinary task |
| `Queue.WorkerDrains` | internal/queue/queue.go:45-68 | after the close the worker alone can go on to start all jumps left and exit |
| `RMap.NextInv` | internal/safe/rmap.go:15-70 | every map or counter step keeps the counter plus pending increments minus pending decrements equal to the number of keys |
| `RMap.LenIsConserved` | internal/safe/rmap.go:15-70 | that holds in every interleaving; Len is exact iff as many increments as decrements are pending, hence at quiescence |
| `RMap.ApplyAt` | internal/safe/rmap.go:22-70 | Set and Swap store the value, GetOrSet only under an absent key, Delete removes the key, and no other key changes |
| `RMap.MapIsHistory` | internal/safe/rmap.go:22-70 | in every interleaving a key is there iff put since its last Delete, with the value of the latest Set or Swap or of the GetOrSet that found it absent |

## Left out

- Raft itself (elections, replication, the storage implementation) and startRaft: the committed log and the in-memory storage's contract are given, and configuration entries are taken to decode.
- Routing.GuardedRunsStayUp: that Raft hands over only snapshots newer than the applied index, and that only proposed bytes are committed, are hypotheses of this lemma, not proved of Raft; the other results about runs do not need them.
- KeyMap.KeyMap.Len: a KeyMap object and its counter are modelled on their own; the broker's indexes hold the maps as values, and KeyCounts takes KeyMap objects with the same contents.
- The JSON bytes of a snapshot: they are taken as the identity on the nested maps, which holds for strings that are valid UTF-8.
- Cluster size, peers, leader and readiness: node-local values that the log does not determine.
- Broker.Broker.UserOpenedOp: the KeyMap objects inside the indexes are modelled as nested map values, so sharing of one KeyMap between two places is not captured; the same holds for the broker's other methods.
- Fanout.Send: counts are natural numbers; the 32-bit wrap of the atomic counters is not modelled.
- RMap.NextInv: the counter is an integer; its 32-bit wrap is not modelled.
- Packet.ReadFrom: only in-memory readers, which deliver as many bytes as they have; a network read that returns fewer is not modelled.
- Queue.NextInv: a send on the closed jump channel counts as not accepted; that Go then panics in the sender is not carried further.
- Queue liveness: that a task eventually starts depends on scheduling and on tasks returning.
- Nil and empty slices or maps are not told apart; encoders are fresh and decoded slices are values, so buffer sharing and the encoder pool are not captured.
- The server's connection table, the client's reconnection and request ids, transports, gRPC, HTTP, Redis, Kafka, discovery, statistics, logging, configuration and backoff.
- SendToAll, kick and online checks, string slices, signed integers, and the String, Error and Equal helpers: they would add only easy members.
