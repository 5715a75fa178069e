/**
 The operations as log bytes: cluster/cluster_raft.go writes each operation with the
 coder and applies what it reads back. `Effect` is the meaning of the bytes of a
 normal log entry.
 */
module Operations {
  import opened Bytes
  import opened Codec
  import opened Registry
  import C = Coder
  import B = Broker

  /** The map whose enumeration is written for an operation; empty when it has none. */
  function Channels(e: Event): map<Str, Str> {
    match e
    case UserOpened(_, _, _, _, channels) => channels
    case JoinChannel(_, channels) => channels
    case LeaveChannel(_, channels) => channels
    case _ => map[]
  }

  /** An operation as the source's types allow it: node ids are uint64, and it is proposed, not a node removal. */
  predicate Proposable(e: Event) {
    match e
    case UserOpened(n, _, _, _, _) => n < U64
    case UserClosed(n, _, _) => n < U64
    case RemoveNode(_) => false
    case _ => true
  }

  function OpType(e: Event): Byte {
    match e
    case UserOpened(_, _, _, _, _) => 0
    case UserClosed(_, _, _) => 1
    case JoinChannel(_, _) => 2
    case LeaveChannel(_, _) => 3
    case RemoveNode(_) => 255
  }

  /** WriteTo of the operation, its channels enumerated as `ps`. */
  function OpBody(e: Event, ps: seq<(Str, Str)>): Str {
    match e
    case UserOpened(n, uid, cid, net, _) =>
      PutData(uid) + (PutData(cid) + (PutData(net) + (PutUint(8, n) + PutStrMap(ps))))
    case UserClosed(n, uid, cid) => PutData(uid) + (PutData(cid) + PutUint(8, n))
    case JoinChannel(uid, _) => PutData(uid) + PutStrMap(ps)
    case LeaveChannel(uid, _) => PutData(uid) + PutStrMap(ps)
    case RemoveNode(_) => []
  }

  /** The bytes SubmitOperation proposes. */
  function OpBytes(e: Event, ps: seq<(Str, Str)>): Str { [OpType(e)] + OpBody(e, ps) }

  function ReadOpened(buf: Str): Read<Event>
    requires IsSlice(buf)
  {
    var (uid, p1) :- ReadData(buf, 0);
    var (cid, p2) :- ReadData(buf, p1);
    var (net, p3) :- ReadData(buf, p2);
    var (n, p4) :- ReadUint(8, buf, p3);
    var (channels, p5) :- ReadStrMap(buf, p4);
    Ok(UserOpened(n, uid, cid, net, channels), p5)
  }

  function ReadClosed(buf: Str): Read<Event>
    requires IsSlice(buf)
  {
    var (uid, p1) :- ReadData(buf, 0);
    var (cid, p2) :- ReadData(buf, p1);
    var (n, p3) :- ReadUint(8, buf, p2);
    Ok(UserClosed(n, uid, cid), p3)
  }

  function ReadUserChannels(buf: Str): Read<(Str, map<Str, Str>)>
    requires IsSlice(buf)
  {
    var (uid, p1) :- ReadData(buf, 0);
    var (channels, p2) :- ReadStrMap(buf, p1);
    Ok((uid, channels), p2)
  }

  /** Bytes that are rejected are logged and skipped; `Fault` is a run-time panic while decoding. */
  datatype Decoded = Op(e: Event) | Rejected | Fault

  function AsDecoded(r: Read<Event>): Decoded {
    match r
    case Ok(e, _) => Op(e)
    case Err(SliceFault) => Fault
    case Err(_) => Rejected
  }

  function DecodeOp(data: Str): Decoded
    requires data != [] && IsSlice(data)
  {
    var body := data[1..];
    if data[0] == 0 then AsDecoded(ReadOpened(body))
    else if data[0] == 1 then AsDecoded(ReadClosed(body))
    else if data[0] == 2 || data[0] == 3 then
      match ReadUserChannels(body)
      case Ok((uid, channels), _) =>
        Op(if data[0] == 2 then JoinChannel(uid, channels) else LeaveChannel(uid, channels))
      case Err(SliceFault) => Fault
      case Err(_) => Rejected
    else Rejected
  }

  lemma WholeBody(data: Str, body: Str, b: Byte)
    requires data == [b] + body
    ensures data[1..] == body && Holds(body, 0, body)
  {}

  lemma OpenedRoundTrip(buf: Str, e: Event, ps: seq<(Str, Str)>)
    requires e.UserOpened? && e.node < U64 && Enumerates(ps, e.channels)
    requires IsSlice(buf) && buf == OpBody(e, ps)
    ensures ReadOpened(buf) == Ok(e, |buf|)
  {
    Pow256Values();
    hide Holds, PutData, ReadData, PutUint, ReadUint, PutStrMap, ReadStrMap, Enumerates;
    var a, b, c, d, m := PutData(e.uid), PutData(e.cid), PutData(e.net), PutUint(8, e.node), PutStrMap(ps);
    HoldsAll(buf);
    HoldsSplit(buf, 0, a, b + (c + (d + m)));
    DataRoundTrip(buf, 0, e.uid);
    HoldsSplit(buf, |a|, b, c + (d + m));
    DataRoundTrip(buf, |a|, e.cid);
    HoldsSplit(buf, |a| + |b|, c, d + m);
    DataRoundTrip(buf, |a| + |b|, e.net);
    HoldsSplit(buf, |a| + |b| + |c|, d, m);
    UintRoundTrip(8, buf, |a| + |b| + |c|, e.node);
    StrMapRoundTrip(buf, |a| + |b| + |c| + |d|, ps, e.channels);
  }

  lemma ClosedRoundTrip(buf: Str, e: Event)
    requires e.UserClosed? && e.node < U64
    requires IsSlice(buf) && buf == OpBody(e, [])
    ensures ReadClosed(buf) == Ok(e, |buf|)
  {
    Pow256Values();
    hide Holds, PutData, ReadData, PutUint, ReadUint;
    var a, b, d := PutData(e.uid), PutData(e.cid), PutUint(8, e.node);
    HoldsAll(buf);
    HoldsSplit(buf, 0, a, b + d);
    DataRoundTrip(buf, 0, e.uid);
    HoldsSplit(buf, |a|, b, d);
    DataRoundTrip(buf, |a|, e.cid);
    UintRoundTrip(8, buf, |a| + |b|, e.node);
  }

  lemma UserChannelsRoundTrip(buf: Str, uid: Str, ps: seq<(Str, Str)>, channels: map<Str, Str>)
    requires Enumerates(ps, channels) && IsSlice(buf) && buf == PutData(uid) + PutStrMap(ps)
    ensures ReadUserChannels(buf) == Ok((uid, channels), |buf|)
  {
    hide Holds, PutData, ReadData, PutStrMap, ReadStrMap, Enumerates;
    var a, m := PutData(uid), PutStrMap(ps);
    HoldsAll(buf);
    HoldsSplit(buf, 0, a, m);
    DataRoundTrip(buf, 0, uid);
    StrMapRoundTrip(buf, |a|, ps, channels);
  }

  /** Decoding what was proposed gives the operation back, for every order the channel map was written in. */
  lemma OpRoundTrip(e: Event, ps: seq<(Str, Str)>)
    requires Proposable(e) && Enumerates(ps, Channels(e)) && IsSlice(OpBytes(e, ps))
    ensures DecodeOp(OpBytes(e, ps)) == Op(e)
  {
    var data, body := OpBytes(e, ps), OpBody(e, ps);
    WholeBody(data, body, OpType(e));
    hide ReadOpened, ReadClosed, ReadUserChannels;
    match e
    case UserOpened(_, _, _, _, _) =>
      hide OpBody;
      OpenedRoundTrip(body, e, ps);
    case UserClosed(_, _, _) =>
      assert ps == [];
      ClosedRoundTrip(body, e);
    case JoinChannel(uid, channels) =>
      UserChannelsRoundTrip(body, uid, ps, channels);
    case LeaveChannel(uid, channels) =>
      UserChannelsRoundTrip(body, uid, ps, channels);
  }

  // ---------------------------------------------------- when and how decoding fails

  /** The fields of an operation. */
  function ShapeOf(t: Byte): Shape
    requires t <= 3
  {
    match t
    case 0 => Text(Text(Text(Fixed(8, Pairs))))
    case 1 => Text(Text(Fixed(8, End)))
    case _ => Text(Pairs)
  }

  lemma OpenedFails(buf: Str, e: Error)
    requires IsSlice(buf)
    ensures ReadOpened(buf) == Err(e) <==> Fails(buf, 0, ShapeOf(0), e)
  {
    hide ReadData, ReadUint, ReadStrMap, TextFails;
    DataFails(buf, 0, e);
    match ReadData(buf, 0)
    case Err(_) =>
    case Ok(_, p1) =>
      DataFails(buf, p1, e);
      match ReadData(buf, p1)
      case Err(_) =>
      case Ok(_, p2) =>
        DataFails(buf, p2, e);
        match ReadData(buf, p2)
        case Err(_) =>
        case Ok(_, p3) =>
          FixedOutcome(8, buf, p3);
          if p3 + 8 <= |buf| { StrMapFails(buf, p3 + 8, e); }
  }

  lemma ClosedFails(buf: Str, e: Error)
    requires IsSlice(buf)
    ensures ReadClosed(buf) == Err(e) <==> Fails(buf, 0, ShapeOf(1), e)
  {
    hide ReadData, ReadUint, TextFails;
    DataFails(buf, 0, e);
    match ReadData(buf, 0)
    case Err(_) =>
    case Ok(_, p1) =>
      DataFails(buf, p1, e);
      if ReadData(buf, p1).Ok? { FixedOutcome(8, buf, ReadData(buf, p1).next); }
  }

  lemma UserChannelsFails(buf: Str, e: Error)
    requires IsSlice(buf)
    ensures ReadUserChannels(buf) == Err(e) <==> Fails(buf, 0, Text(Pairs), e)
  {
    hide ReadData, ReadStrMap, TextFails;
    DataFails(buf, 0, e);
    if ReadData(buf, 0).Ok? { StrMapFails(buf, ReadData(buf, 0).next, e); }
  }

  /**
   What applying an entry's bytes comes to. An unknown type byte is rejected. Else the
   first field that cannot be read decides: the bytes are rejected when it is too short
   or its varint overflows, and decoding panics when the end of a string wraps.
   */
  lemma DecodeOutcome(data: Str)
    requires data != [] && IsSlice(data)
    ensures data[0] > 3 ==> DecodeOp(data) == Rejected
    ensures data[0] <= 3 ==>
              && (DecodeOp(data) == Fault <==> Fails(data[1..], 0, ShapeOf(data[0]), SliceFault))
              && (DecodeOp(data) == Rejected <==>
                    || Fails(data[1..], 0, ShapeOf(data[0]), BufferTooShort)
                    || Fails(data[1..], 0, ShapeOf(data[0]), VarintOverflow))
  {
    hide ReadOpened, ReadClosed, ReadUserChannels, Fails;
    if data[0] == 0 {
      forall e ensures ReadOpened(data[1..]) == Err(e) <==> Fails(data[1..], 0, ShapeOf(0), e) {
        OpenedFails(data[1..], e);
      }
    } else if data[0] == 1 {
      forall e ensures ReadClosed(data[1..]) == Err(e) <==> Fails(data[1..], 0, ShapeOf(1), e) {
        ClosedFails(data[1..], e);
      }
    } else if data[0] <= 3 {
      forall e ensures ReadUserChannels(data[1..]) == Err(e) <==> Fails(data[1..], 0, ShapeOf(data[0]), e) {
        UserChannelsFails(data[1..], e);
      }
    }
  }

  /** Bytes that decode are the operation their type byte says, and never a node removal. */
  lemma DecodeKind(data: Str)
    requires data != [] && IsSlice(data) && DecodeOp(data).Op?
    ensures data[0] == 0 <==> DecodeOp(data).e.UserOpened?
    ensures data[0] == 1 <==> DecodeOp(data).e.UserClosed?
    ensures data[0] == 2 <==> DecodeOp(data).e.JoinChannel?
    ensures data[0] == 3 <==> DecodeOp(data).e.LeaveChannel?
    ensures !DecodeOp(data).e.RemoveNode?
  {
    hide ReadData, ReadUint, ReadStrMap;
  }

  /** Eleven bytes that make it panic: a close whose user id claims 2^64 - 1 bytes. */
  lemma CloseBytesPanic()
    ensures var data: Str := [1] + LONGEST;
            |data| == 11 && DecodeOp(data) == Fault
  {
    var data: Str := [1] + LONGEST;
    WholeBody(data, LONGEST, 1);
    LongestFaults(LONGEST, 0);
    hide TextFails;
    DecodeOutcome(data);
  }

  /** The effect of a normal entry's bytes on the registry; empty and rejected entries have none. */
  ghost function Effect(t: Table, data: Str): Table
    requires IsSlice(data)
  {
    if data == [] then t
    else match DecodeOp(data)
         case Op(e) => Step(t, e)
         case _ => t
  }

  ghost function EffectAll(t: Table, log: seq<Str>): Table
    requires forall i :: 0 <= i < |log| ==> IsSlice(log[i])
  {
    if log == [] then t else Effect(EffectAll(t, log[..|log| - 1]), log[|log| - 1])
  }

  /** A log of operations and, for each, the enumeration its channel map was written in. */
  ghost predicate Encodes(log: seq<Str>, ops: seq<Event>, orders: seq<seq<(Str, Str)>>) {
    && |log| == |ops| == |orders|
    && forall i :: 0 <= i < |log| ==>
         && Proposable(ops[i]) && Enumerates(orders[i], Channels(ops[i]))
         && IsSlice(log[i]) && log[i] == OpBytes(ops[i], orders[i])
  }

  lemma EncodesInit(log: seq<Str>, ops: seq<Event>, orders: seq<seq<(Str, Str)>>)
    requires Encodes(log, ops, orders) && log != []
    ensures var n := |log| - 1;
            Encodes(log[..n], ops[..n], orders[..n])
  {
    hide OpBytes, Enumerates, Proposable;
  }

  /** The bytes of one operation have its effect. */
  lemma EncodedEntry(t: Table, e: Event, ps: seq<(Str, Str)>)
    requires Proposable(e) && Enumerates(ps, Channels(e)) && IsSlice(OpBytes(e, ps))
    ensures Effect(t, OpBytes(e, ps)) == Step(t, e)
  {
    OpRoundTrip(e, ps);
    hide DecodeOp, Step, Enumerates, Proposable, OpBody;
  }

  /** Applying a log of encoded operations is applying the operations, whatever orders the maps were written in. */
  lemma {:induction false} EncodedLogRefines(t: Table, log: seq<Str>, ops: seq<Event>, orders: seq<seq<(Str, Str)>>)
    requires Encodes(log, ops, orders)
    ensures EffectAll(t, log) == StepAll(t, ops)
    decreases |log|
  {
    hide OpBytes, DecodeOp, Step, Enumerates, Proposable;
    if log == [] {
    } else {
      var n := |log| - 1;
      EncodesInit(log, ops, orders);
      EncodedLogRefines(t, log[..n], ops[..n], orders[..n]);
      EncodedEntry(EffectAll(t, log[..n]), ops[n], orders[n]);
    }
  }

  // --------------------------------------------------------- the source's methods

  method WriteOpened(e: Event, enc: C.Encoder) returns (ghost ps: seq<(Str, Str)>)
    requires e.UserOpened?
    modifies enc
    ensures Enumerates(ps, e.channels) && enc.buf == old(enc.buf) + OpBody(e, ps)
    ensures OpBody(e, ps)
         == PutData(e.uid) + (PutData(e.cid) + (PutData(e.net) + (PutUint(8, e.node) + PutStrMap(ps))))
  {
    hide PutData, PutUint, PutStrMap, Enumerates;
    enc.WriteData(e.uid);
    enc.WriteData(e.cid);
    enc.WriteData(e.net);
    enc.WriteUInt64(e.node);
    ps := enc.WriteStrMap(e.channels);
  }

  method WriteClosed(e: Event, enc: C.Encoder)
    requires e.UserClosed?
    modifies enc
    ensures enc.buf == old(enc.buf) + OpBody(e, [])
    ensures OpBody(e, []) == PutData(e.uid) + (PutData(e.cid) + PutUint(8, e.node))
  {
    hide PutData, PutUint;
    enc.WriteData(e.uid);
    enc.WriteData(e.cid);
    enc.WriteUInt64(e.node);
  }

  /** WriteTo of a join and of a leave. */
  method WriteUserChannels(uid: Str, channels: map<Str, Str>, enc: C.Encoder) returns (ghost ps: seq<(Str, Str)>)
    modifies enc
    ensures Enumerates(ps, channels) && enc.buf == old(enc.buf) + (PutData(uid) + PutStrMap(ps))
  {
    hide PutData, PutStrMap, Enumerates;
    enc.WriteData(uid);
    ps := enc.WriteStrMap(channels);
  }

  /** WriteTo of the four operation types. */
  method WriteOp(e: Event, enc: C.Encoder) returns (ghost ps: seq<(Str, Str)>)
    requires Proposable(e)
    modifies enc
    ensures Enumerates(ps, Channels(e)) && enc.buf == old(enc.buf) + OpBody(e, ps)
  {
    hide PutData, PutUint, PutStrMap, ToMap;
    match e
    case UserOpened(_, _, _, _, _) => ps := WriteOpened(e, enc);
    case UserClosed(_, _, _) =>
      ps := [];
      C.EmptyMap<Str>();
      WriteClosed(e, enc);
    case JoinChannel(uid, channels) => ps := WriteUserChannels(uid, channels, enc);
    case LeaveChannel(uid, channels) => ps := WriteUserChannels(uid, channels, enc);
  }

  /** SubmitOperation: the type byte, then the operation. */
  method SubmitOperation(e: Event) returns (data: Str, ghost ps: seq<(Str, Str)>)
    requires Proposable(e)
    ensures Enumerates(ps, Channels(e)) && data == OpBytes(e, ps) && data != []
    ensures (e.UserOpened? ==> data[0] == 0) && (e.UserClosed? ==> data[0] == 1)
    ensures (e.JoinChannel? ==> data[0] == 2) && (e.LeaveChannel? ==> data[0] == 3)
    ensures data[1..] == OpBody(e, ps)
  {
    hide OpBody, Enumerates;
    var enc := new C.Encoder();
    enc.WriteUInt8(OpType(e));
    ps := WriteOp(e, enc);
    data := enc.Pick();
  }

  method ReadOpenedOp(d: C.Decoder) returns (r: C.Result<Event>)
    requires d.Valid() && d.pos == 0
    modifies d
    ensures d.Valid() && C.Agrees(r, d.pos, ReadOpened(d.buf))
  {
    hide ReadData, ReadUint, ReadStrMap;
    var uid := d.ReadData();
    if uid.Failure? { return C.Failure(uid.error); }
    var cid := d.ReadData();
    if cid.Failure? { return C.Failure(cid.error); }
    var net := d.ReadData();
    if net.Failure? { return C.Failure(net.error); }
    var n := d.ReadUInt(8);
    if n.Failure? { return C.Failure(n.error); }
    var channels, _ := d.ReadStrMap();
    if channels.Failure? { return C.Failure(channels.error); }
    r := C.Success(UserOpened(n.value, uid.value, cid.value, net.value, channels.value));
  }

  method ReadClosedOp(d: C.Decoder) returns (r: C.Result<Event>)
    requires d.Valid() && d.pos == 0
    modifies d
    ensures d.Valid() && C.Agrees(r, d.pos, ReadClosed(d.buf))
  {
    hide ReadData, ReadUint;
    var uid := d.ReadData();
    if uid.Failure? { return C.Failure(uid.error); }
    var cid := d.ReadData();
    if cid.Failure? { return C.Failure(cid.error); }
    var n := d.ReadUInt(8);
    if n.Failure? { return C.Failure(n.error); }
    r := C.Success(UserClosed(n.value, uid.value, cid.value));
  }

  /** ReadFrom of a join and of a leave. */
  method ReadUserChannelsOp(d: C.Decoder) returns (r: C.Result<(Str, map<Str, Str>)>)
    requires d.Valid() && d.pos == 0
    modifies d
    ensures d.Valid() && C.Agrees(r, d.pos, ReadUserChannels(d.buf))
  {
    hide ReadData, ReadStrMap;
    var uid := d.ReadData();
    if uid.Failure? { return C.Failure(uid.error); }
    var channels, _ := d.ReadStrMap();
    if channels.Failure? { return C.Failure(channels.error); }
    r := C.Success((uid.value, channels.value));
  }

  /** applyRaftOp: `faulted` reports the panic that leaves the registry as it was. */
  method ApplyRaftOp(b: B.Broker, data: Str) returns (faulted: bool)
    requires b.Valid() && data != [] && IsSlice(data)
    modifies b
    ensures b.Valid() && b.Entries() == Effect(old(b.Entries()), data)
    ensures faulted <==> DecodeOp(data) == Fault
  {
    hide ReadOpened, ReadClosed, ReadUserChannels, Step;
    var d := new C.Decoder(data[1..]);
    faulted := false;
    if data[0] == 0 {
      var r := ReadOpenedOp(d);
      if r.Success? { b.Apply(r.value); } else { faulted := r.error == SliceFault; }
    } else if data[0] == 1 {
      var r := ReadClosedOp(d);
      if r.Success? { b.Apply(r.value); } else { faulted := r.error == SliceFault; }
    } else if data[0] == 2 || data[0] == 3 {
      var r := ReadUserChannelsOp(d);
      if r.Success? {
        b.Apply(if data[0] == 2 then JoinChannel(r.value.0, r.value.1) else LeaveChannel(r.value.0, r.value.1));
      } else {
        faulted := r.error == SliceFault;
      }
    }
  }
}
