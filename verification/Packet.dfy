/**
 The eight packet types of the packet package: their bodies, the variable-length
 header, Marshal, Unmarshal and reading packets off a stream.
 */
module Packet {
  import opened Bytes
  import opened Codec
  import opened Bits
  import C = Coder

  type Props = map<Byte, Str>

  datatype Packet =
    | Connect(props: Props, version: Byte, uid: Str, cid: Str, password: Str)
    | Connack(props: Props, code: Byte)
    | Message(props: Props, kind: Byte, payload: Str)
    | Request(props: Props, id: nat, method_: Str, body: Str)
    | Response(props: Props, id: nat, code: Byte, body: Str)
    | Ping(props: Props)
    | Pong(props: Props)
    | Close(props: Props, code: Byte)

  /** Request ids are uint16. */
  predicate WellTyped(p: Packet) { (p.Request? || p.Response?) ==> p.id < 0x1_0000 }

  function TypeOf(p: Packet): Byte {
    match p
    case Connect(_, _, _, _, _) => 0
    case Connack(_, _) => 1
    case Message(_, _, _) => 2
    case Request(_, _, _, _) => 3
    case Response(_, _, _, _) => 4
    case Ping(_) => 5
    case Pong(_) => 6
    case Close(_, _) => 7
  }

  datatype Error = Coding(e: Codec.Error) | UnknownPacketType | PacketSizeTooLarge | EndOfInput

  datatype Outcome<+T> = Got(value: T) | Bad(error: Error)

  // ---------------------------------------------------------------- bodies

  /** WriteTo of the packet, its properties enumerated as `ps`. */
  function Body(p: Packet, ps: seq<(Byte, Str)>): Str {
    match p
    case Connect(_, version, uid, cid, password) =>
      [version] + (PutData(uid) + (PutData(cid) + (PutData(password) + PutUint8Map(ps))))
    case Connack(_, code) => [code] + PutUint8Map(ps)
    case Message(_, kind, payload) => [kind] + (PutUint8Map(ps) + payload)
    case Request(_, id, name, body) => PutUint(2, id) + (PutData(name) + (PutUint8Map(ps) + body))
    case Response(_, id, code, body) => PutUint(2, id) + ([code] + (PutUint8Map(ps) + body))
    case Ping(_) => PutUint8Map(ps)
    case Pong(_) => PutUint8Map(ps)
    case Close(_, code) => [code] + PutUint8Map(ps)
  }

  function ReadConnect(buf: Str): Read<Packet>
    requires IsSlice(buf)
  {
    var (version, p1) :- ReadUint8(buf, 0);
    var (uid, p2) :- ReadData(buf, p1);
    var (cid, p3) :- ReadData(buf, p2);
    var (password, p4) :- ReadData(buf, p3);
    var (props, p5) :- ReadUint8Map(buf, p4);
    Ok(Connect(props, version, uid, cid, password), p5)
  }

  /** A code byte and the properties: the body of CONNACK and of CLOSE. */
  function ReadCoded(buf: Str): Read<(Byte, Props)>
    requires IsSlice(buf)
  {
    var (code, p1) :- ReadUint8(buf, 0);
    var (props, p2) :- ReadUint8Map(buf, p1);
    Ok((code, props), p2)
  }

  function ReadMessage(buf: Str): Read<Packet>
    requires IsSlice(buf)
  {
    var (kind, p1) :- ReadUint8(buf, 0);
    var (props, p2) :- ReadUint8Map(buf, p1);
    Ok(Message(props, kind, buf[p2..]), |buf|)
  }

  function ReadRequest(buf: Str): Read<Packet>
    requires IsSlice(buf)
  {
    var (id, p1) :- ReadUint(2, buf, 0);
    var (name, p2) :- ReadData(buf, p1);
    var (props, p3) :- ReadUint8Map(buf, p2);
    Ok(Request(props, id, name, buf[p3..]), |buf|)
  }

  function ReadResponse(buf: Str): Read<Packet>
    requires IsSlice(buf)
  {
    var (id, p1) :- ReadUint(2, buf, 0);
    var (code, p2) :- ReadUint8(buf, p1);
    var (props, p3) :- ReadUint8Map(buf, p2);
    Ok(Response(props, id, code, buf[p3..]), |buf|)
  }

  /** ReadFrom of the packet type t < 8. */
  function ReadBody(t: Byte, buf: Str): Read<Packet>
    requires t < 8 && IsSlice(buf)
  {
    match t
    case 0 => ReadConnect(buf)
    case 1 => (var (c, p) :- ReadCoded(buf); Ok(Connack(c.1, c.0), p))
    case 2 => ReadMessage(buf)
    case 3 => ReadRequest(buf)
    case 4 => ReadResponse(buf)
    case 5 => (var (props, p) :- ReadUint8Map(buf, 0); Ok(Ping(props), p))
    case 6 => (var (props, p) :- ReadUint8Map(buf, 0); Ok(Pong(props), p))
    case _ => (var (c, p) :- ReadCoded(buf); Ok(Close(c.1, c.0), p))
  }

  function Unpack(t: Byte, data: Str): Outcome<Packet>
    requires IsSlice(data)
  {
    if t >= 8 then Bad(UnknownPacketType)
    else match ReadBody(t, data)
         case Ok(p, _) => Got(p)
         case Err(e) => Bad(Coding(e))
  }

  /**
   With all 256 properties the count byte is zero: no property is read, and the three
   types that read to the end take the bytes of the properties for the start of theirs.
   */
  function Lossy(p: Packet, ps: seq<(Byte, Str)>): Packet {
    match p
    case Message(_, kind, payload) => Message(map[], kind, PutProps(ps) + payload)
    case Request(_, id, name, body) => Request(map[], id, name, PutProps(ps) + body)
    case Response(_, id, code, body) => Response(map[], id, code, PutProps(ps) + body)
    case Connect(_, version, uid, cid, password) => Connect(map[], version, uid, cid, password)
    case Connack(_, code) => Connack(map[], code)
    case Ping(_) => Ping(map[])
    case Pong(_) => Pong(map[])
    case Close(_, code) => Close(map[], code)
  }

  /** What reading a written packet yields. */
  function ReadBack(p: Packet, ps: seq<(Byte, Str)>): Packet { if |p.props| == 256 then Lossy(p, ps) else p }

  ghost predicate Yields(r: Read<Packet>, p: Packet) { r.Ok? && r.value == p }

  /** The packet is its own reading exactly when it does not carry all 256 properties. */
  lemma ReadBackIsSame(p: Packet, ps: seq<(Byte, Str)>)
    ensures ReadBack(p, ps) == p <==> |p.props| != 256
  {
    if |p.props| == 256 {
      assert ReadBack(p, ps).props == map[];
    }
  }

  lemma ConnectSurvives(p: Packet, ps: seq<(Byte, Str)>, buf: Str)
    requires p.Connect? && Enumerates(ps, p.props) && IsSlice(buf) && buf == Body(p, ps)
    ensures Yields(ReadConnect(buf), ReadBack(p, ps))
  {
    hide Holds, PutData, ReadData, PutUint8Map, ReadUint8Map, ReadUint8, Enumerates;
    var v: Str, a, b, c, m := [p.version], PutData(p.uid), PutData(p.cid), PutData(p.password), PutUint8Map(ps);
    HoldsAll(buf);
    HoldsSplit(buf, 0, v, a + (b + (c + m)));
    Uint8RoundTrip(buf, 0, p.version);
    HoldsSplit(buf, 1, a, b + (c + m));
    DataRoundTrip(buf, 1, p.uid);
    HoldsSplit(buf, 1 + |a|, b, c + m);
    DataRoundTrip(buf, 1 + |a|, p.cid);
    HoldsSplit(buf, 1 + |a| + |b|, c, m);
    DataRoundTrip(buf, 1 + |a| + |b|, p.password);
    Uint8MapRoundTrip(buf, 1 + |a| + |b| + |c|, ps, p.props);
  }

  lemma CodedSurvives(code: Byte, props: Props, ps: seq<(Byte, Str)>, buf: Str)
    requires Enumerates(ps, props) && IsSlice(buf) && buf == [code] + PutUint8Map(ps)
    ensures var r := ReadCoded(buf);
            r.Ok? && r.value == (code, if |props| == 256 then map[] else props)
  {
    hide Holds, PutUint8Map, ReadUint8Map, ReadUint8, Enumerates;
    HoldsAll(buf);
    HoldsSplit(buf, 0, [code], PutUint8Map(ps));
    Uint8RoundTrip(buf, 0, code);
    Uint8MapRoundTrip(buf, 1, ps, props);
  }

  /** What is left after the property map, and what is left after its count byte alone. */
  lemma Tail(buf: Str, pos: nat, ps: seq<(Byte, Str)>, b: Str)
    requires Holds(buf, pos, PutUint8Map(ps) + b) && pos + |PutUint8Map(ps)| + |b| == |buf|
    ensures buf[pos + |PutUint8Map(ps)|..] == b
    ensures buf[pos + 1..] == PutProps(ps) + b
  {
    hide PutProps;
    HoldsSplit(buf, pos, PutUint8Map(ps), b);
    assert PutUint8Map(ps) + b == [|ps| % 256] + (PutProps(ps) + b);
    HoldsSplit(buf, pos, [|ps| % 256], PutProps(ps) + b);
  }

  lemma MessageSurvives(p: Packet, ps: seq<(Byte, Str)>, buf: Str)
    requires p.Message? && Enumerates(ps, p.props) && IsSlice(buf) && buf == Body(p, ps)
    ensures Yields(ReadMessage(buf), ReadBack(p, ps))
  {
    hide Holds, PutProps, PutUint8Map, ReadUint8Map, ReadUint8, Enumerates;
    var m := PutUint8Map(ps);
    HoldsAll(buf);
    HoldsSplit(buf, 0, [p.kind], m + p.payload);
    Uint8RoundTrip(buf, 0, p.kind);
    Tail(buf, 1, ps, p.payload);
    HoldsSplit(buf, 1, m, p.payload);
    Uint8MapRoundTrip(buf, 1, ps, p.props);
  }

  lemma RequestSurvives(p: Packet, ps: seq<(Byte, Str)>, buf: Str)
    requires p.Request? && WellTyped(p) && Enumerates(ps, p.props) && IsSlice(buf) && buf == Body(p, ps)
    ensures Yields(ReadRequest(buf), ReadBack(p, ps))
  {
    Pow256Values();
    hide Holds, PutUint, ReadUint, PutData, ReadData, PutProps, PutUint8Map, ReadUint8Map, Enumerates, Pow256;
    var i, a, m := PutUint(2, p.id), PutData(p.method_), PutUint8Map(ps);
    HoldsAll(buf);
    HoldsSplit(buf, 0, i, a + (m + p.body));
    UintRoundTrip(2, buf, 0, p.id);
    HoldsSplit(buf, 2, a, m + p.body);
    DataRoundTrip(buf, 2, p.method_);
    Tail(buf, 2 + |a|, ps, p.body);
    HoldsSplit(buf, 2 + |a|, m, p.body);
    Uint8MapRoundTrip(buf, 2 + |a|, ps, p.props);
  }

  lemma ResponseSurvives(p: Packet, ps: seq<(Byte, Str)>, buf: Str)
    requires p.Response? && WellTyped(p) && Enumerates(ps, p.props) && IsSlice(buf) && buf == Body(p, ps)
    ensures Yields(ReadResponse(buf), ReadBack(p, ps))
  {
    Pow256Values();
    hide Holds, PutUint, ReadUint, ReadUint8, PutProps, PutUint8Map, ReadUint8Map, Enumerates, Pow256;
    var i, c: Str, m := PutUint(2, p.id), [p.code], PutUint8Map(ps);
    HoldsAll(buf);
    HoldsSplit(buf, 0, i, c + (m + p.body));
    UintRoundTrip(2, buf, 0, p.id);
    HoldsSplit(buf, 2, c, m + p.body);
    Uint8RoundTrip(buf, 2, p.code);
    Tail(buf, 3, ps, p.body);
    HoldsSplit(buf, 3, m, p.body);
    Uint8MapRoundTrip(buf, 3, ps, p.props);
  }

  lemma PropsSurvive(props: Props, ps: seq<(Byte, Str)>, buf: Str)
    requires Enumerates(ps, props) && IsSlice(buf) && buf == PutUint8Map(ps)
    ensures var r := ReadUint8Map(buf, 0);
            r.Ok? && r.value == (if |props| == 256 then map[] else props)
  {
    HoldsAll(buf);
    hide Holds, PutUint8Map, ReadUint8Map, Enumerates;
    Uint8MapRoundTrip(buf, 0, ps, props);
  }

  /** Every body is read back as written unless it carries 256 properties, and then as `Lossy` says. */
  lemma BodyRoundTrip(p: Packet, ps: seq<(Byte, Str)>, buf: Str)
    requires WellTyped(p) && Enumerates(ps, p.props) && IsSlice(buf) && buf == Body(p, ps)
    ensures Yields(ReadBody(TypeOf(p), buf), ReadBack(p, ps))
  {
    hide ReadConnect, ReadCoded, ReadMessage, ReadRequest, ReadResponse, ReadUint8Map, PutUint8Map, PutData, PutUint;
    match p
    case Connect(_, _, _, _, _) => ConnectSurvives(p, ps, buf);
    case Connack(props, code) => CodedSurvives(code, props, ps, buf);
    case Message(_, _, _) => MessageSurvives(p, ps, buf);
    case Request(_, _, _, _) => RequestSurvives(p, ps, buf);
    case Response(_, _, _, _) => ResponseSurvives(p, ps, buf);
    case Ping(props) => PropsSurvive(props, ps, buf);
    case Pong(props) => PropsSurvive(props, ps, buf);
    case Close(props, code) => CodedSurvives(code, props, ps, buf);
  }

  // ---------------------------------------------------------------- header

  const MID_LEN_1: nat := 0x3ff
  const MID_LEN_2: nat := 0x3_ffff
  const MID_LEN_3: nat := 0x3_ffff_ff
  const MAX_LEN: nat := 0x3_ffff_ffff

  /** Or-ing the shifted fields of a header byte adds them. */
  lemma PackedByte(t: nat, form: nat, high: nat)
    requires form < 4 && high < 4
    ensures Or(Or(Shl(t, 4), Shl(form, 2)), high) == t * 16 + form * 4 + high
  {
    hide Or, Shl;
    var top := t * 4 + form;
    ShlValues(1);
    ShlValues(t);
    ShlValues(form);
    ShlValues(top);
    OrDisjoint(t, 4, Shl(form, 2));
    OrDisjoint(top, 2, high);
    assert Shl(t, 4) + Shl(form, 2) == Shl(top, 2);
  }

  /**
   The source's bit operations on the first header byte are arithmetic: or-ing the
   shifted fields adds them, and shifting and masking the byte recovers each.
   */
  lemma HeaderBits(t: nat, form: nat, high: nat)
    requires form < 4 && high < 4
    ensures var b := Or(Or(Shl(t, 4), Shl(form, 2)), high);
            && b == t * 16 + form * 4 + high
            && Shr(b, 4) == t && And(Shr(b, 2), 3) == form && And(b, 3) == high
  {
    hide Or, Shl, Shr, And;
    PackedByte(t, form, high);
    FirstByte(t, form, high);
    ByteFields(t * 16 + form * 4 + high);
  }

  /** Shifts and masks take a header byte apart as division and remainder do. */
  lemma ByteFields(b: nat)
    ensures Shr(b, 4) == b / 16 && And(Shr(b, 2), 3) == b / 4 % 4 && And(b, 3) == b % 4
  {
    hide Shr, And;
    ShrValues(b);
    AndThree(b);
    AndThree(b / 4);
  }

  /** Shifting the length and or-ing in a byte appends the byte. */
  lemma LengthBits(length: nat, b: Byte)
    ensures Or(Shl(length, 8), b) == length * 0x100 + b
  {
    ShlValues(1);
    ShlValues(length);
    hide Or, Shl;
    OrDisjoint(length, 8, b);
  }

  /** The header Marshal writes: type, form and the top two length bits, then the rest of the length. */
  function Header(t: Byte, len: nat): (h: Str)
    requires t < 8 && len <= MAX_LEN
  {
    if len <= MID_LEN_1 then [t * 16 + len / 0x100, len % 0x100]
    else if len <= MID_LEN_2 then [t * 16 + 4 + len / 0x1_0000, len / 0x100 % 0x100, len % 0x100]
    else if len <= MID_LEN_3 then
      [t * 16 + 8 + len / 0x100_0000, len / 0x1_0000 % 0x100, len / 0x100 % 0x100, len % 0x100]
    else
      [t * 16 + 12 + len / 0x1_0000_0000,
       len / 0x100_0000 % 0x100, len / 0x1_0000 % 0x100, len / 0x100 % 0x100, len % 0x100]
  }

  /** The loop over the extra length bytes. */
  function Extend(len: nat, bs: Str): nat {
    if bs == [] then len else Extend(len, bs[..|bs| - 1]) * 0x100 + bs[|bs| - 1]
  }

  /** The ten length bits of the first two bytes. */
  function FirstBits(b0: Byte, b1: Byte): nat {
    var high: int := b0 % 4;
    high * 0x100 + b1
  }

  /** The type and length that the first two bytes and the extra ones announce. */
  function ReadHeader(buf: Str): (r: Read<(Byte, nat)>)
    requires IsSlice(buf)
    ensures r.Ok? ==> 2 <= r.next <= |buf| && r.next <= 5 && r.value.0 < 16 && r.value.1 <= MAX_LEN
  {
    var (h, p) :- ReadBytes(buf, 0, 2);
    var (bs, q) :- ReadBytes(buf, p, h[0] / 4 % 4);
    Extend3(FirstBits(h[0], h[1]), bs);
    Ok((h[0] / 16, Extend(FirstBits(h[0], h[1]), bs)), q)
  }

  lemma Extend3(len: nat, bs: Str)
    ensures |bs| == 0 ==> Extend(len, bs) == len
    ensures |bs| == 1 ==> Extend(len, bs) == len * 0x100 + bs[0]
    ensures |bs| == 2 ==> Extend(len, bs) == (len * 0x100 + bs[0]) * 0x100 + bs[1]
    ensures |bs| == 3 ==> Extend(len, bs) == ((len * 0x100 + bs[0]) * 0x100 + bs[1]) * 0x100 + bs[2]
  {
    if 1 <= |bs| <= 3 {
      Extend3(len, bs[..|bs| - 1]);
    }
  }

  /** The bytes of a header as the two reads see them. */
  lemma HeaderReads(buf: Str, h: Str)
    requires IsSlice(buf) && Holds(buf, 0, h) && 2 <= |h| <= 5
    ensures ReadBytes(buf, 0, 2) == Ok(h[..2], 2)
    ensures ReadBytes(buf, 2, |h| - 2) == Ok(h[2..], |h|)
  {
    assert h == h[..2] + h[2..];
    HoldsSplit(buf, 0, h[..2], h[2..]);
  }

  /** The fields of a first header byte. */
  lemma FirstByte(t: nat, form: nat, high: nat)
    requires form < 4 && high < 4
    ensures var b := t * 16 + form * 4 + high;
            b / 16 == t && b / 4 % 4 == form && b % 4 == high
  {
    var b := t * 16 + form * 4 + high;
    assert b / 4 == t * 4 + form;
  }

  lemma Quotients(len: nat)
    ensures len / 0x100 / 0x100 == len / 0x1_0000
    ensures len / 0x1_0000 / 0x100 == len / 0x100_0000
    ensures len / 0x100_0000 / 0x100 == len / 0x1_0000_0000
  {}

  lemma Digit(x: nat)
    ensures x / 0x100 * 0x100 + x % 0x100 == x
  {}

  lemma HeaderFields(t: Byte, len: nat)
    requires t < 8 && len <= MAX_LEN
    ensures var h := Header(t, len);
            2 <= |h| <= 5 && h[0] / 16 == t && h[0] / 4 % 4 == |h| - 2
  {
    if len <= MID_LEN_1 {
      FirstByte(t, 0, len / 0x100);
    } else if len <= MID_LEN_2 {
      FirstByte(t, 1, len / 0x1_0000);
    } else if len <= MID_LEN_3 {
      FirstByte(t, 2, len / 0x100_0000);
    } else {
      FirstByte(t, 3, len / 0x1_0000_0000);
    }
  }

  /** The ten length bits of the first two bytes, whatever the type and the form. */
  lemma TopBits(t: nat, form: nat, x: nat)
    requires form < 4 && x < 0x400 && t < 8
    ensures FirstBits(t * 16 + form * 4 + x / 0x100, x % 0x100) == x
  {
    FirstByte(t, form, x / 0x100);
    Digit(x);
  }

  lemma LengthForm1(t: Byte, len: nat)
    requires t < 8 && len <= MID_LEN_1
    ensures FirstBits(Header(t, len)[0], Header(t, len)[1]) == len
  {
    TopBits(t, 0, len);
  }

  lemma LengthForm2(t: Byte, len: nat)
    requires t < 8 && MID_LEN_1 < len <= MID_LEN_2
    ensures FirstBits(Header(t, len)[0], Header(t, len)[1]) == len / 0x100
    ensures Header(t, len)[2..] == [len % 0x100]
  {
    TopBits(t, 1, len / 0x100);
    Quotients(len);
  }

  lemma LengthForm3(t: Byte, len: nat)
    requires t < 8 && MID_LEN_2 < len <= MID_LEN_3
    ensures FirstBits(Header(t, len)[0], Header(t, len)[1]) == len / 0x1_0000
    ensures Header(t, len)[2..] == [len / 0x100 % 0x100, len % 0x100]
  {
    TopBits(t, 2, len / 0x1_0000);
    Quotients(len);
  }

  lemma LengthForm4(t: Byte, len: nat)
    requires t < 8 && MID_LEN_3 < len <= MAX_LEN
    ensures FirstBits(Header(t, len)[0], Header(t, len)[1]) == len / 0x100_0000
    ensures Header(t, len)[2..] == [len / 0x1_0000 % 0x100, len / 0x100 % 0x100, len % 0x100]
  {
    TopBits(t, 3, len / 0x100_0000);
    Quotients(len);
  }

  lemma ExtendMore(first: nat, bs: Str, len: nat)
    requires 1 <= |bs| <= 3
    requires bs[|bs| - 1] == len % 0x100
    requires |bs| >= 2 ==> bs[|bs| - 2] == len / 0x100 % 0x100
    requires |bs| >= 3 ==> bs[0] == len / 0x1_0000 % 0x100
    requires first == if |bs| == 1 then len / 0x100 else if |bs| == 2 then len / 0x1_0000 else len / 0x100_0000
    ensures Extend(first, bs) == len
  {
    hide Extend;
    Extend3(first, bs);
    Quotients(len);
    Digit(len);
    Digit(len / 0x100);
    Digit(len / 0x1_0000);
  }

  lemma HeaderLength(t: Byte, len: nat)
    requires t < 8 && len <= MAX_LEN
    ensures |Header(t, len)| >= 2
    ensures var h := Header(t, len);
            Extend(FirstBits(h[0], h[1]), h[2..]) == len
  {
    HeaderFields(t, len);
    var h := Header(t, len);
    hide Header, FirstBits;
    if len <= MID_LEN_1 {
      LengthForm1(t, len);
      ShortHeader(t, len);
    } else {
      hide Extend;
      if len <= MID_LEN_2 {
        LengthForm2(t, len);
      } else if len <= MID_LEN_3 {
        LengthForm3(t, len);
      } else {
        LengthForm4(t, len);
      }
      ExtendMore(FirstBits(h[0], h[1]), h[2..], len);
    }
  }

  lemma ShortHeader(t: Byte, len: nat)
    requires t < 8 && len <= MID_LEN_1
    ensures |Header(t, len)| == 2
  {}

  /** For every length up to 2^34 - 1 the header is decoded to the same type and length. */
  lemma HeaderRoundTrip(buf: Str, t: Byte, len: nat)
    requires t < 8 && len <= 0x3_ffff_ffff && IsSlice(buf) && Holds(buf, 0, Header(t, len))
    ensures ReadHeader(buf) == Ok((t, len), |Header(t, len)|)
  {
    var h := Header(t, len);
    HeaderFields(t, len);
    HeaderLength(t, len);
    hide Header, Extend, FirstBits;
    HeaderReads(buf, h);
    assert h[..2][0] == h[0] && h[..2][1] == h[1];
    hide Holds, ReadBytes;
  }

  /** The four forms meet at the three thresholds of 10, 18 and 26 length bits. */
  lemma HeaderForms(t: Byte, len: nat)
    requires t < 8 && len <= 0x3_ffff_ffff
    ensures |Header(t, len)|
         == if len < 0x400 then 2 else if len < 0x4_0000 then 3 else if len < 0x400_0000 then 4 else 5
  {}

  /** Marshal's header is the shortest that announces the length: no decodable header beats it. */
  lemma HeaderShortest(buf: Str)
    requires IsSlice(buf) && ReadHeader(buf).Ok? && ReadHeader(buf).value.0 < 8
    ensures |Header(ReadHeader(buf).value.0, ReadHeader(buf).value.1)| <= ReadHeader(buf).next
  {
    var h := ReadBytes(buf, 0, 2).value;
    var bs := ReadBytes(buf, 2, h[0] / 4 % 4).value;
    hide ReadBytes, Extend;
    Extend3(FirstBits(h[0], h[1]), bs);
  }

  // ------------------------------------------------- marshal and unmarshal

  function Marshalled(p: Packet, ps: seq<(Byte, Str)>): Outcome<Str> {
    var body := Body(p, ps);
    if |body| > MAX_LEN then Bad(PacketSizeTooLarge) else Got(Header(TypeOf(p), |body|) + body)
  }

  function Unmarshalled(bytes: Str): Outcome<Packet>
    requires IsSlice(bytes)
  {
    match ReadHeader(bytes)
    case Err(e) => Bad(Coding(e))
    case Ok((t, len), next) =>
      match ReadBytes(bytes, next, len)
      case Err(e) => Bad(Coding(e))
      case Ok(data, _) => Unpack(t, data)
  }

  lemma MarshalledParts(p: Packet, ps: seq<(Byte, Str)>, enc: Str, suf: Str)
    requires Marshalled(p, ps) == Got(enc) && IsSlice(enc + suf)
    ensures var h, body := Header(TypeOf(p), |Body(p, ps)|), Body(p, ps);
            && enc == h + body
            && ReadHeader(enc + suf) == Ok((TypeOf(p), |body|), |h|)
            && ReadBytes(enc + suf, |h|, |body|) == Ok(body, |enc|)
  {
    var h, body := Header(TypeOf(p), |Body(p, ps)|), Body(p, ps);
    HoldsInFrame([], enc, suf);
    assert [] + enc + suf == enc + suf;
    hide Body, Header, ReadHeader;
    HoldsSplit(enc + suf, 0, h, body);
    HeaderRoundTrip(enc + suf, TypeOf(p), |body|);
    ReadBytesOutcome(enc + suf, |h|, |body|);
  }

  /**
   Unmarshal undoes Marshal, with any bytes after the packet, exactly when the packet
   does not carry all 256 properties; with 256 it comes back as `Lossy` says.
   */
  lemma PacketRoundTrip(p: Packet, ps: seq<(Byte, Str)>, enc: Str, suf: Str)
    requires WellTyped(p) && Enumerates(ps, p.props)
    requires Marshalled(p, ps) == Got(enc) && IsSlice(enc + suf)
    ensures Unmarshalled(enc + suf) == Got(ReadBack(p, ps))
    ensures Unmarshalled(enc + suf) == Got(p) <==> |p.props| != 256
  {
    MarshalledParts(p, ps, enc, suf);
    hide Enumerates, Body, Header, ReadHeader, ReadBytes, ReadBody, Marshalled, ReadBack;
    BodyRoundTrip(p, ps, Body(p, ps));
    ReadBackIsSame(p, ps);
  }

  function EmptyValued(k: Byte): (Byte, Str) { (k, []) }

  /** The properties 0 to n - 1, each empty. */
  function FirstProps(n: nat): seq<(Byte, Str)>
    requires n <= 256
  {
    if n == 0 then [] else FirstProps(n - 1) + [EmptyValued(n - 1)]
  }

  ghost predicate Sized(ps: seq<(Byte, Str)>, n: nat) {
    && |ps| == |ToMap<Byte, Str>(ps)| == n && |PutProps(ps)| == 2 * n
    && forall k :: k in ToMap<Byte, Str>(ps) ==> k < n
  }

  lemma SizedNext(ps: seq<(Byte, Str)>, k: Byte)
    requires Sized(ps, k)
    ensures Sized(ps + [EmptyValued(k)], k + 1)
  {
    hide PutProp;
    EmptyProp(k);
    C.PropsSnoc(ps, EmptyValued(k));
    assert k !in ToMap<Byte, Str>(ps);
    assert ToMap<Byte, Str>(ps + [EmptyValued(k)]).Keys == ToMap<Byte, Str>(ps).Keys + {k};
  }

  lemma {:induction false} FirstPropsSize(n: nat)
    requires n <= 256
    ensures Sized(FirstProps(n), n)
  {
    if n == 0 {
    } else {
      FirstPropsSize(n - 1);
      hide Sized;
      SizedNext(FirstProps(n - 1), n - 1);
    }
  }

  lemma EmptyProp(k: Byte)
    ensures |PutProp(EmptyValued(k))| == 2 && EmptyValued(k).0 == k
  {}

  /** The documented maximum of 256 properties fails: a MESSAGE with them marshals and comes back another. */
  lemma FullMessageIsLost(kind: Byte)
    ensures var ps := FirstProps(256);
            var p := Message(ToMap(ps), kind, []);
            && Enumerates(ps, p.props) && Marshalled(p, ps).Got?
            && IsSlice(Marshalled(p, ps).value)
            && Unmarshalled(Marshalled(p, ps).value) == Got(Message(map[], kind, PutProps(ps)))
  {
    var ps := FirstProps(256);
    FirstPropsSize(256);
    hide FirstProps, PutProps, ToMap;
    var p := Message(ToMap(ps), kind, []);
    assert |Body(p, ps)| == 514;
    HeaderFields(2, 514);
    var enc := Marshalled(p, ps).value;
    hide Header, Unmarshalled, Marshalled;
    PacketRoundTrip(p, ps, enc, []);
    assert enc + [] == enc;
    assert PutProps(ps) + [] == PutProps(ps);
  }

  // --------------------------------------------------- when and how Unmarshal fails

  /** The fields of a body, payloads that are read to the end left out: those never fail. */
  function ShapeOf(t: Byte): Shape
    requires t < 8
  {
    match t
    case 0 => Fixed(1, Text(Text(Text(Props))))
    case 3 => Fixed(2, Text(Props))
    case 4 => Fixed(2, Fixed(1, Props))
    case 5 => Props
    case 6 => Props
    case _ => Fixed(1, Props)
  }

  lemma ConnectFails(buf: Str, e: Codec.Error)
    requires IsSlice(buf)
    ensures ReadConnect(buf) == Err(e) <==> Fails(buf, 0, ShapeOf(0), e)
  {
    hide ReadData, ReadUint8Map, TextFails;
    if 1 <= |buf| {
      DataFails(buf, 1, e);
      match ReadData(buf, 1)
      case Err(_) =>
      case Ok(_, p2) =>
        DataFails(buf, p2, e);
        match ReadData(buf, p2)
        case Err(_) =>
        case Ok(_, p3) =>
          DataFails(buf, p3, e);
          if ReadData(buf, p3).Ok? {
            Uint8MapFails(buf, ReadData(buf, p3).next, e);
          }
    }
  }

  lemma CodedFails(buf: Str, e: Codec.Error)
    requires IsSlice(buf)
    ensures ReadCoded(buf) == Err(e) <==> Fails(buf, 0, Fixed(1, Props), e)
    ensures ReadMessage(buf) == Err(e) <==> Fails(buf, 0, Fixed(1, Props), e)
  {
    hide ReadUint8Map;
    if 1 <= |buf| { Uint8MapFails(buf, 1, e); }
  }

  lemma RequestFails(buf: Str, e: Codec.Error)
    requires IsSlice(buf)
    ensures ReadRequest(buf) == Err(e) <==> Fails(buf, 0, Fixed(2, Text(Props)), e)
  {
    hide ReadUint, ReadData, ReadUint8Map, TextFails;
    FixedOutcome(2, buf, 0);
    if 2 <= |buf| {
      DataFails(buf, 2, e);
      if ReadData(buf, 2).Ok? { Uint8MapFails(buf, ReadData(buf, 2).next, e); }
    }
  }

  lemma ResponseFails(buf: Str, e: Codec.Error)
    requires IsSlice(buf)
    ensures ReadResponse(buf) == Err(e) <==> Fails(buf, 0, Fixed(2, Fixed(1, Props)), e)
  {
    hide ReadUint, ReadUint8Map;
    FixedOutcome(2, buf, 0);
    if 3 <= |buf| { Uint8MapFails(buf, 3, e); }
  }

  /** Reading a body fails with an error exactly when the first field that cannot be read does. */
  lemma BodyFails(t: Byte, buf: Str, e: Codec.Error)
    requires t < 8 && IsSlice(buf)
    ensures ReadBody(t, buf) == Err(e) <==> Fails(buf, 0, ShapeOf(t), e)
  {
    hide ReadConnect, ReadCoded, ReadMessage, ReadRequest, ReadResponse, ReadUint8Map, Fails;
    match t
    case 0 => ConnectFails(buf, e);
    case 3 => RequestFails(buf, e);
    case 4 => ResponseFails(buf, e);
    case 5 => Uint8MapFails(buf, 0, e);
    case 6 => Uint8MapFails(buf, 0, e);
    case _ => CodedFails(buf, e);
  }

  /** A body that is read is a packet of the type asked for. */
  lemma BodyKind(t: Byte, buf: Str)
    requires t < 8 && IsSlice(buf) && ReadBody(t, buf).Ok?
    ensures TypeOf(ReadBody(t, buf).value) == t
  {
    hide ReadUint, ReadData, ReadUint8Map;
  }

  lemma BytesThere(bytes: Str, pos: nat, l: nat)
    requires IsSlice(bytes) && pos + l <= |bytes|
    ensures ReadBytes(bytes, pos, l) == Ok(bytes[pos..pos + l], pos + l)
  {
    assert l == 0 ==> bytes[pos..pos + l] == [];
  }

  /** How many bytes a header with this first byte has. */
  function HeaderSize(b: Byte): nat { 2 + b / 4 % 4 }

  /** The length a header announces: its bytes but for the type and form bits, big-endian. */
  function Announced(h: Str): nat
    requires |h| >= 2
  {
    var high: Byte := h[0] % 4;
    GetUint([high] + h[1..])
  }

  lemma GetUintSnoc(a: Str, b: Byte)
    ensures GetUint(a + [b]) == 256 * GetUint(a) + b
  {
    assert (a + [b])[..|a|] == a;
  }

  lemma {:induction false} ExtendIsUint(a: Str, bs: Str)
    ensures Extend(GetUint(a), bs) == GetUint(a + bs)
    decreases |bs|
  {
    if bs == [] {
      assert a + bs == a;
    } else {
      var init, last := bs[..|bs| - 1], bs[|bs| - 1];
      ExtendIsUint(a, init);
      GetUintSnoc(a + init, last);
      assert a + bs == a + init + [last];
    }
  }

  lemma AnnouncedIs(h: Str)
    requires |h| >= 2
    ensures Announced(h) == Extend(FirstBits(h[0], h[1]), h[2..])
  {
    var high: Byte := h[0] % 4;
    GetUintSnoc([], high);
    GetUintSnoc([high], h[1]);
    assert [] + [high] == [high];
    ExtendIsUint([high, h[1]], h[2..]);
    assert [high] + [h[1]] == [high, h[1]];
    assert [high] + h[1..] == [high, h[1]] + h[2..];
  }

  /** A header is read exactly when its bytes are there, in whichever of the four forms. */
  lemma HeaderOutcome(bytes: Str)
    requires IsSlice(bytes)
    ensures |bytes| < 2 || |bytes| < HeaderSize(bytes[0]) ==> ReadHeader(bytes) == Err(BufferTooShort)
    ensures 2 <= |bytes| && HeaderSize(bytes[0]) <= |bytes| ==>
              var size := HeaderSize(bytes[0]);
              ReadHeader(bytes) == Ok((bytes[0] / 16, Announced(bytes[..size])), size)
  {
    hide Extend, ReadBytes, Announced;
    ReadBytesOutcome(bytes, 0, 2);
    if 2 <= |bytes| {
      BytesThere(bytes, 0, 2);
      assert bytes[0..2][0] == bytes[0] && bytes[0..2][1] == bytes[1];
      var size := HeaderSize(bytes[0]);
      ReadBytesOutcome(bytes, 2, size - 2);
      if size <= |bytes| {
        BytesThere(bytes, 2, size - 2);
        var h := bytes[..size];
        AnnouncedIs(h);
        assert h[2..] == bytes[2..size];
      }
    }
  }

  /**
   What Unmarshal makes of any bytes. Without the whole header and the whole body it
   announces they are too short; with a type of 8 or more they are refused; else the
   first field of the body that cannot be read decides the error, a panic included,
   and when there is none the packet has the type announced.
   */
  lemma UnmarshalOutcome(bytes: Str)
    requires IsSlice(bytes)
    ensures |bytes| < 2 || |bytes| < HeaderSize(bytes[0]) ==> Unmarshalled(bytes) == Bad(Coding(BufferTooShort))
    ensures 2 <= |bytes| && HeaderSize(bytes[0]) <= |bytes| ==>
              var size := HeaderSize(bytes[0]);
              var len := Announced(bytes[..size]);
              && (|bytes| < size + len ==> Unmarshalled(bytes) == Bad(Coding(BufferTooShort)))
              && (size + len <= |bytes| && bytes[0] / 16 >= 8 ==> Unmarshalled(bytes) == Bad(UnknownPacketType))
              && (size + len <= |bytes| && bytes[0] / 16 < 8 ==>
                    && (Unmarshalled(bytes).Got? ==> TypeOf(Unmarshalled(bytes).value) == bytes[0] / 16)
                    && (Unmarshalled(bytes).Bad? ==> Unmarshalled(bytes).error.Coding?)
                    && forall e :: Unmarshalled(bytes) == Bad(Coding(e))
                              <==> Fails(bytes[size..size + len], 0, ShapeOf(bytes[0] / 16), e))
  {
    HeaderOutcome(bytes);
    hide ReadHeader, ReadBody, ReadBytes, Fails, ShapeOf, Announced;
    if 2 <= |bytes| && HeaderSize(bytes[0]) <= |bytes| {
      var size := HeaderSize(bytes[0]);
      var len := Announced(bytes[..size]);
      ReadBytesOutcome(bytes, size, len);
      if size + len <= |bytes| {
        BytesThere(bytes, size, len);
        if bytes[0] / 16 < 8 {
          UnpackOutcome(bytes[0] / 16, bytes[size..size + len]);
        }
      }
    }
  }

  lemma UnpackOutcome(t: Byte, data: Str)
    requires t < 8 && IsSlice(data)
    ensures Unpack(t, data).Got? ==> TypeOf(Unpack(t, data).value) == t
    ensures Unpack(t, data).Bad? ==> Unpack(t, data).error.Coding?
    ensures forall e :: Unpack(t, data) == Bad(Coding(e)) <==> Fails(data, 0, ShapeOf(t), e)
  {
    hide ReadBody, Fails, ShapeOf;
    if ReadBody(t, data).Ok? { BodyKind(t, data); }
    forall e ensures Unpack(t, data) == Bad(Coding(e)) <==> Fails(data, 0, ShapeOf(t), e) {
      BodyFails(t, data, e);
    }
  }

  /** Fourteen bytes that make Unmarshal panic: a PING whose one property claims 2^64 - 1 bytes. */
  lemma PingPanics()
    ensures var bytes: Str := [0x50, 12, 1, 7] + LONGEST;
            |bytes| == 14 && Unmarshalled(bytes) == Bad(Coding(SliceFault))
  {
    var bytes: Str := [0x50, 12, 1, 7] + LONGEST;
    assert bytes[2..14] == [1, 7] + LONGEST;
    PingBodyPanics(bytes);
  }

  lemma PingBodyPanics(bytes: Str)
    requires |bytes| == 14 && bytes[0] == 0x50 && bytes[1] == 12 && bytes[2..14] == [1, 7] + LONGEST
    ensures Unmarshalled(bytes) == Bad(Coding(SliceFault))
  {
    hide Unmarshalled, Fails, Announced, LONGEST;
    PropertyFaults(bytes[2..14]);
    ShortAnnounced(bytes[..2]);
    UnmarshalOutcome(bytes);
  }

  lemma ShortAnnounced(h: Str)
    requires |h| == 2
    ensures Announced(h) == FirstBits(h[0], h[1])
  {
    AnnouncedIs(h);
    assert h[2..] == [];
  }

  lemma PropertyFaults(data: Str)
    requires data == [1, 7] + LONGEST
    ensures Fails(data, 0, Props, SliceFault)
  {
    hide TextFails;
    assert data == [1, 7] + LONGEST + [];
    HoldsInFrame([1, 7], LONGEST, []);
    LongestFaults(data, 2);
    assert PropFails(data, 1, 0, SliceFault);
  }

  // ---------------------------------------------------------------- streams

  /** One Read of n bytes from a non-empty in-memory reader: what is missing stays zero. */
  function Fill(s: Str, n: nat): (r: (Str, Str))
    requires s != []
    ensures |r.0| == n
  {
    if n <= |s| then (s[..n], s[n..]) else (s + seq(n - |s|, _ => 0), [])
  }

  datatype Reading = Reading(out: Outcome<Packet>, rest: Str)

  /** ReadFrom: the packet read off the stream and what is left of it. */
  function ReadStream(s: Str): Reading {
    if s == [] then Reading(Bad(EndOfInput), [])
    else
      var (h, s1) := Fill(s, 2);
      var count := h[0] / 4 % 4;
      if count > 0 && s1 == [] then Reading(Bad(EndOfInput), [])
      else
        var (bs, s2) := if count > 0 then Fill(s1, count) else ([], s1);
        Extend3(FirstBits(h[0], h[1]), bs);
        var len := Extend(FirstBits(h[0], h[1]), bs);
        if len > 0 && s2 == [] then Reading(Bad(EndOfInput), [])
        else
          var (data, s3) := if len > 0 then Fill(s2, len) else ([], s2);
          Reading(Unpack(h[0] / 16, data), s3)
  }

  lemma FillExact(a: Str, b: Str)
    requires a != []
    ensures Fill(a + b, |a|) == (a, b)
  {
    assert (a + b)[..|a|] == a && (a + b)[|a|..] == b;
  }

  lemma BodyNonEmpty(p: Packet, ps: seq<(Byte, Str)>)
    ensures Body(p, ps) != []
  {
    hide PutProps, PutData;
  }

  /** With enough bytes, the three reads see the header's two parts and the body. */
  lemma StreamParts(h: Str, body: Str, suf: Str)
    requires 2 <= |h| <= 5 && h[0] / 4 % 4 == |h| - 2 && body != []
    requires Extend(FirstBits(h[0], h[1]), h[2..]) == |body| && IsSlice(body)
    ensures ReadStream(h + body + suf) == Reading(Unpack(h[0] / 16, body), suf)
  {
    hide Extend, FirstBits, Fill, Unpack;
    var first, more, tail := h[..2], h[2..], body + suf;
    assert first[0] == h[0] && first[1] == h[1];
    assert h + body + suf == first + (more + tail);
    FillExact(first, more + tail);
    if |h| == 2 {
      assert more + tail == tail;
    } else {
      FillExact(more, tail);
    }
    FillExact(body, suf);
  }

  /** A written packet is read off the front of a stream, and exactly its bytes are consumed. */
  lemma StreamOne(p: Packet, ps: seq<(Byte, Str)>, enc: Str, suf: Str)
    requires WellTyped(p) && Enumerates(ps, p.props)
    requires Marshalled(p, ps) == Got(enc)
    ensures ReadStream(enc + suf) == Reading(Got(ReadBack(p, ps)), suf)
  {
    var t, body := TypeOf(p), Body(p, ps);
    BodyNonEmpty(p, ps);
    HeaderFields(t, |body|);
    HeaderLength(t, |body|);
    BodyRoundTrip(p, ps, body);
    hide Body, Header, Enumerates, ReadBody, Extend, FirstBits, ReadStream, ReadBack;
    StreamParts(Header(t, |body|), body, suf);
  }

  /** The first n bytes, zeros where there are none. */
  function Padded(s: Str, n: nat): (r: Str)
    ensures |r| == n
  {
    seq(n, i requires 0 <= i < n => if i < |s| then s[i] else 0)
  }

  /** What is left after the first n bytes. */
  function From(s: Str, n: nat): Str { if n <= |s| then s[n..] else [] }

  lemma FillIsPadded(s: Str, n: nat)
    requires s != []
    ensures Fill(s, n) == (Padded(s, n), From(s, n))
  {
    assert Fill(s, n).0 == Padded(s, n);
  }

  lemma PaddedSplit(s: Str, n: nat, k: nat)
    ensures Padded(s, n + k) == Padded(s, n) + Padded(From(s, n), k)
    ensures From(s, n + k) == From(From(s, n), k)
  {}

  /** The header a stream shows, zeros where it ends too early. */
  function StreamHeader(s: Str): Str
    requires s != []
  {
    Padded(s, HeaderSize(s[0]))
  }

  /**
   What one read from any stream yields. It is the end of input exactly when the stream
   is empty, or ends before the extra length bytes its first byte announces, or ends
   before the first byte of a non-empty body. Otherwise what is missing counts as zero
   bytes, and exactly header and body are taken off.
   */
  lemma StreamOutcome(s: Str)
    ensures s == [] ==> ReadStream(s) == Reading(Bad(EndOfInput), [])
    ensures s != [] ==>
              var size := HeaderSize(s[0]);
              var len := Announced(StreamHeader(s));
              && (ReadStream(s).out == Bad(EndOfInput) <==> (size > 2 && |s| <= 2) || (len > 0 && |s| <= size))
              && (ReadStream(s).out == Bad(EndOfInput) ==> ReadStream(s).rest == [])
              && (ReadStream(s).out != Bad(EndOfInput) ==>
                    && len < I64
                    && ReadStream(s) == Reading(Unpack(s[0] / 16, Padded(From(s, size), len)), From(s, size + len)))
  {
    if s != [] {
      hide Fill, Unpack, Extend, FirstBits, Announced, Padded, From;
      var size := HeaderSize(s[0]);
      var len := Announced(StreamHeader(s));
      StreamLength(s);
      FillIsPadded(s, 2);
      FirstOfPadded(s);
      NothingFrom(s, 2);
      NothingFrom(s, size);
      PaddedSplit(s, 2, size - 2);
      PaddedSplit(s, size, len);
      if size > 2 && |s| > 2 { FillIsPadded(From(s, 2), size - 2); }
      if len > 0 && |s| > size { FillIsPadded(From(s, size), len); }
      NoneEnds(s[0] / 16, Padded(From(s, size), len));
    }
  }

  lemma NoneEnds(t: Byte, data: Str)
    ensures IsSlice(data) ==> Unpack(t, data) != Bad(EndOfInput)
  {
    hide ReadBody;
  }

  lemma NothingFrom(s: Str, n: nat)
    ensures From(s, n) == [] <==> |s| <= n
    ensures Padded(s, 0) == [] && From(s, 0) == s
  {}

  lemma FirstOfPadded(s: Str)
    requires s != []
    ensures Padded(s, 2)[0] == s[0]
  {}

  lemma StreamLength(s: Str)
    requires s != []
    ensures var h, size := Padded(s, 2), HeaderSize(s[0]);
            var bs := Padded(From(s, 2), size - 2);
            Announced(StreamHeader(s)) == Extend(FirstBits(h[0], h[1]), bs) < I64
  {
    var h, size := Padded(s, 2), HeaderSize(s[0]);
    var bs := Padded(From(s, 2), size - 2);
    PaddedSplit(s, 2, size - 2);
    hide Padded, From;
    var all := h + bs;
    assert all[0] == h[0] && all[1] == h[1] && all[2..] == bs;
    AnnouncedIs(all);
    Extend3(FirstBits(h[0], h[1]), bs);
    hide Extend;
  }

  function Concat(encs: seq<Str>): Str { if encs == [] then [] else encs[0] + Concat(encs[1..]) }

  /** Reading the stream once per packet yields the packets in order and leaves `rest`. */
  ghost predicate StreamYields(s: Str, packets: seq<Packet>, rest: Str)
    decreases |packets|
  {
    if packets == [] then s == rest
    else ReadStream(s).out == Got(packets[0]) && StreamYields(ReadStream(s).rest, packets[1..], rest)
  }

  /** Packets and the bytes Marshal made of them, each with some enumeration of its properties. */
  ghost predicate Sent(packets: seq<Packet>, orders: seq<seq<(Byte, Str)>>, encs: seq<Str>) {
    && |packets| == |orders| == |encs|
    && forall i :: 0 <= i < |packets| ==>
         && WellTyped(packets[i]) && Enumerates(orders[i], packets[i].props)
         && Marshalled(packets[i], orders[i]) == Got(encs[i])
  }

  /** What the receiver reads, packet by packet. */
  function AllReadBack(packets: seq<Packet>, orders: seq<seq<(Byte, Str)>>): seq<Packet>
    requires |packets| == |orders|
  {
    if packets == [] then [] else [ReadBack(packets[0], orders[0])] + AllReadBack(packets[1..], orders[1..])
  }

  lemma {:induction false} AllReadBackIsSame(packets: seq<Packet>, orders: seq<seq<(Byte, Str)>>)
    requires |packets| == |orders|
    ensures |AllReadBack(packets, orders)| == |packets|
    ensures AllReadBack(packets, orders) == packets <==> forall i :: 0 <= i < |packets| ==> |packets[i].props| != 256
  {
    hide ReadBack;
    if packets == [] {
    } else {
      AllReadBackIsSame(packets[1..], orders[1..]);
      ReadBackIsSame(packets[0], orders[0]);
      assert packets == [packets[0]] + packets[1..];
      assert AllReadBack(packets, orders)[1..] == AllReadBack(packets[1..], orders[1..]);
      assert forall i :: 0 < i < |packets| ==> packets[i] == packets[1..][i - 1];
    }
  }

  lemma {:induction false} YieldsOnce(s: Str, a: seq<Packet>, b: seq<Packet>, rest: Str)
    requires |a| == |b| && StreamYields(s, a, rest) && StreamYields(s, b, rest)
    ensures a == b
    decreases |a|
  {
    hide ReadStream;
    if a == [] {
    } else {
      YieldsOnce(ReadStream(s).rest, a[1..], b[1..], rest);
      assert a == [a[0]] + a[1..] && b == [b[0]] + b[1..];
    }
  }

  lemma {:induction false} StreamReads(
    packets: seq<Packet>, orders: seq<seq<(Byte, Str)>>, encs: seq<Str>, rest: Str)
    requires Sent(packets, orders, encs)
    ensures StreamYields(Concat(encs) + rest, AllReadBack(packets, orders), rest)
    decreases |packets|
  {
    hide Marshalled, ReadStream, Enumerates, WellTyped, ReadBack;
    if packets == [] {
      assert Concat(encs) + rest == rest;
    } else {
      var tail := Concat(encs[1..]) + rest;
      assert Concat(encs) + rest == encs[0] + tail;
      StreamOne(packets[0], orders[0], encs[0], tail);
      StreamReads(packets[1..], orders[1..], encs[1..], rest);
      assert AllReadBack(packets, orders)[1..] == AllReadBack(packets[1..], orders[1..]);
    }
  }

  /**
   Packets delimit themselves: any number of encodings back to back is read as that
   many packets with nothing lost or left, also behind one that carries 256 properties.
   They are the packets sent exactly when none of them carries 256.
   */
  lemma StreamRoundTrip(packets: seq<Packet>, orders: seq<seq<(Byte, Str)>>, encs: seq<Str>, rest: Str)
    requires Sent(packets, orders, encs)
    ensures StreamYields(Concat(encs) + rest, AllReadBack(packets, orders), rest)
    ensures StreamYields(Concat(encs) + rest, packets, rest)
       <==> forall i :: 0 <= i < |packets| ==> |packets[i].props| != 256
  {
    StreamReads(packets, orders, encs, rest);
    AllReadBackIsSame(packets, orders);
    hide AllReadBack, StreamYields, Concat;
    if StreamYields(Concat(encs) + rest, packets, rest) {
      YieldsOnce(Concat(encs) + rest, packets, AllReadBack(packets, orders), rest);
    }
  }

  /** What is left of the stream after n reads. */
  function After(s: Str, n: nat): Str
    decreases n
  {
    if n == 0 then s else After(ReadStream(s).rest, n - 1)
  }

  lemma {:induction false} YieldsAfter(s: Str, packets: seq<Packet>, rest: Str)
    requires StreamYields(s, packets, rest)
    ensures After(s, |packets|) == rest
    decreases |packets|
  {
    hide ReadStream;
    if packets == [] {
    } else {
      YieldsAfter(ReadStream(s).rest, packets[1..], rest);
    }
  }

  lemma {:induction false} AfterSum(s: Str, m: nat, n: nat)
    ensures After(s, m + n) == After(After(s, m), n)
    decreases m
  {
    hide ReadStream;
    if m == 0 {
    } else {
      AfterSum(ReadStream(s).rest, m - 1, n);
    }
  }

  lemma {:induction false} EndStays(s: Str, n: nat)
    requires s == []
    ensures After(s, n) == [] && ReadStream(s).out == Bad(EndOfInput)
    decreases n
  {
    StreamOutcome(s);
    hide ReadStream;
    if n == 0 {
    } else {
      EndStays(ReadStream(s).rest, n - 1);
    }
  }

  /** Behind the last packet every further read reports the end of input. */
  lemma StreamEnds(packets: seq<Packet>, orders: seq<seq<(Byte, Str)>>, encs: seq<Str>, n: nat)
    requires Sent(packets, orders, encs) && n >= |packets|
    ensures ReadStream(After(Concat(encs), n)).out == Bad(EndOfInput)
  {
    hide AllReadBack, StreamYields, ReadStream, Marshalled, Enumerates, WellTyped, After, Concat;
    var s, none: Str := Concat(encs), [];
    StreamReads(packets, orders, encs, none);
    AllReadBackIsSame(packets, orders);
    assert s + none == s;
    YieldsAfter(s, AllReadBack(packets, orders), none);
    AfterSum(s, |packets|, n - |packets|);
    EndStays(none, n - |packets|);
    EndStays(After(s, n), 0);
  }

  // ------------------------------------------------------ the source's methods

  method WriteConnect(p: Packet, enc: C.Encoder) returns (ghost ps: seq<(Byte, Str)>)
    requires p.Connect?
    modifies enc
    ensures Enumerates(ps, p.props) && enc.buf == old(enc.buf) + Body(p, ps)
    ensures Body(p, ps) == [p.version] + (PutData(p.uid) + (PutData(p.cid) + (PutData(p.password) + PutUint8Map(ps))))
  {
    hide PutData, PutUint8Map, Enumerates;
    enc.WriteUInt8(p.version);
    enc.WriteData(p.uid);
    enc.WriteData(p.cid);
    enc.WriteData(p.password);
    ps := enc.WriteUInt8Map(p.props);
  }

  /** CONNACK and CLOSE: a code byte and the properties. */
  method WriteCoded(code: Byte, props: Props, enc: C.Encoder) returns (ghost ps: seq<(Byte, Str)>)
    modifies enc
    ensures Enumerates(ps, props) && enc.buf == old(enc.buf) + ([code] + PutUint8Map(ps))
  {
    hide PutUint8Map, Enumerates;
    enc.WriteUInt8(code);
    ps := enc.WriteUInt8Map(props);
  }

  method WriteMessage(p: Packet, enc: C.Encoder) returns (ghost ps: seq<(Byte, Str)>)
    requires p.Message?
    modifies enc
    ensures Enumerates(ps, p.props) && enc.buf == old(enc.buf) + Body(p, ps)
    ensures Body(p, ps) == [p.kind] + (PutUint8Map(ps) + p.payload)
  {
    hide PutUint8Map, Enumerates;
    enc.WriteUInt8(p.kind);
    ps := enc.WriteUInt8Map(p.props);
    enc.WriteBytes(p.payload);
  }

  method WriteRequest(p: Packet, enc: C.Encoder) returns (ghost ps: seq<(Byte, Str)>)
    requires p.Request?
    modifies enc
    ensures Enumerates(ps, p.props) && enc.buf == old(enc.buf) + Body(p, ps)
    ensures Body(p, ps) == PutUint(2, p.id) + (PutData(p.method_) + (PutUint8Map(ps) + p.body))
  {
    hide PutData, PutUint, PutUint8Map, Enumerates;
    enc.WriteUInt16(p.id);
    enc.WriteData(p.method_);
    ps := enc.WriteUInt8Map(p.props);
    enc.WriteBytes(p.body);
  }

  method WriteResponse(p: Packet, enc: C.Encoder) returns (ghost ps: seq<(Byte, Str)>)
    requires p.Response?
    modifies enc
    ensures Enumerates(ps, p.props) && enc.buf == old(enc.buf) + Body(p, ps)
    ensures Body(p, ps) == PutUint(2, p.id) + ([p.code] + (PutUint8Map(ps) + p.body))
  {
    hide PutUint, PutUint8Map, Enumerates;
    enc.WriteUInt16(p.id);
    enc.WriteUInt8(p.code);
    ps := enc.WriteUInt8Map(p.props);
    enc.WriteBytes(p.body);
  }

  /** WriteTo of the eight packet types. */
  method WriteBody(p: Packet, enc: C.Encoder) returns (ghost ps: seq<(Byte, Str)>)
    modifies enc
    ensures Enumerates(ps, p.props) && enc.buf == old(enc.buf) + Body(p, ps)
  {
    hide PutData, PutUint, PutUint8Map, Enumerates;
    match p
    case Connect(_, _, _, _, _) => ps := WriteConnect(p, enc);
    case Connack(props, code) => ps := WriteCoded(code, props, enc);
    case Message(_, _, _) => ps := WriteMessage(p, enc);
    case Request(_, _, _, _) => ps := WriteRequest(p, enc);
    case Response(_, _, _, _) => ps := WriteResponse(p, enc);
    case Ping(props) => ps := enc.WriteUInt8Map(props);
    case Pong(props) => ps := enc.WriteUInt8Map(props);
    case Close(props, code) => ps := WriteCoded(code, props, enc);
  }

  lemma Overwritten(reserved: Str, data: Str, h: Str)
    requires |h| <= 5 <= |data| == |reserved|
    requires forall i :: 5 <= i < |data| ==> data[i] == reserved[i]
    requires forall i :: 0 <= i < |h| ==> data[5 - |h| + i] == h[i]
    ensures data[5 - |h|..] == h + reserved[5..]
  {}

  /** The first byte as Marshal computes it, the type shifted within its byte. */
  lemma HeaderByte(t: Byte, form: nat, high: nat)
    requires t < 8 && form < 4 && high < 4
    ensures Or(Or(ToByte(Shl(t, 4)), Shl(form, 2)), ToByte(high)) == t * 16 + form * 4 + high
  {
    hide Or, Shl;
    ShlValues(t);
    HeaderBits(t, form, high);
  }

  /** The first byte of the shortest form, which leaves out its zero form bits. */
  lemma OneByte(t: Byte, high: nat)
    requires t < 8 && high < 4
    ensures Or(ToByte(Shl(t, 4)), ToByte(high)) == t * 16 + high
  {
    hide Or, Shl;
    ShlValues(1);
    ShlValues(t);
    OrDisjoint(t, 4, high);
  }

  /** The shortest form: the header overwrites the last two of the five reserved bytes, and the packet starts there. */
  method PutForm1(t: Byte, reserved: Str) returns (packet: Str)
    requires t < 8 && |reserved| >= 5 && |reserved| - 5 <= MID_LEN_1
    ensures packet == Header(t, |reserved| - 5) + reserved[5..]
  {
    hide Or, Shl, Shr;
    var data, length := reserved, |reserved| - 5;
    ShrValues(length);
    OneByte(t, length / 0x100);
    data := data[3 := Or(ToByte(Shl(t, 4)), ToByte(Shr(length, 8)))];
    data := data[4 := ToByte(length)];
    Overwritten(reserved, data, Header(t, length));
    packet := data[3..];
  }

  /** The form with 18 length bits. */
  method PutForm2(t: Byte, reserved: Str) returns (packet: Str)
    requires t < 8 && |reserved| >= 5 && MID_LEN_1 < |reserved| - 5 <= MID_LEN_2
    ensures packet == Header(t, |reserved| - 5) + reserved[5..]
  {
    hide Or, Shl, Shr;
    var data, length := reserved, |reserved| - 5;
    ShrValues(length);
    HeaderByte(t, 1, length / 0x1_0000);
    data := data[2 := Or(Or(ToByte(Shl(t, 4)), Shl(1, 2)), ToByte(Shr(length, 16)))];
    data := data[3 := ToByte(Shr(length, 8))];
    data := data[4 := ToByte(length)];
    Overwritten(reserved, data, Header(t, length));
    packet := data[2..];
  }

  /** The form with 26 length bits. */
  method PutForm3(t: Byte, reserved: Str) returns (packet: Str)
    requires t < 8 && |reserved| >= 5 && MID_LEN_2 < |reserved| - 5 <= MID_LEN_3
    ensures packet == Header(t, |reserved| - 5) + reserved[5..]
  {
    hide Or, Shl, Shr;
    var data, length := reserved, |reserved| - 5;
    ShrValues(length);
    HeaderByte(t, 2, length / 0x100_0000);
    data := data[1 := Or(Or(ToByte(Shl(t, 4)), Shl(2, 2)), ToByte(Shr(length, 24)))];
    data := data[2 := ToByte(Shr(length, 16))];
    data := data[3 := ToByte(Shr(length, 8))];
    data := data[4 := ToByte(length)];
    Overwritten(reserved, data, Header(t, length));
    packet := data[1..];
  }

  /** The form with 34 length bits. */
  method PutForm4(t: Byte, reserved: Str) returns (packet: Str)
    requires t < 8 && |reserved| >= 5 && MID_LEN_3 < |reserved| - 5 <= MAX_LEN
    ensures packet == Header(t, |reserved| - 5) + reserved[5..]
  {
    hide Or, Shl, Shr;
    var data, length := reserved, |reserved| - 5;
    ShrValues(length);
    HeaderByte(t, 3, length / 0x1_0000_0000);
    data := data[0 := Or(Or(ToByte(Shl(t, 4)), Shl(3, 2)), ToByte(Shr(length, 32)))];
    data := data[1 := ToByte(Shr(length, 24))];
    data := data[2 := ToByte(Shr(length, 16))];
    data := data[3 := ToByte(Shr(length, 8))];
    data := data[4 := ToByte(length)];
    Overwritten(reserved, data, Header(t, length));
    packet := data[0..];
  }

  /** The header in the shortest form that holds the length. */
  method PutHeader(t: Byte, reserved: Str) returns (r: Outcome<Str>)
    requires t < 8 && |reserved| >= 5
    ensures var body := reserved[5..];
            r == if |body| > 0x3_ffff_ffff then Bad(PacketSizeTooLarge) else Got(Header(t, |body|) + body)
  {
    hide Header;
    var length := |reserved| - 5;
    if length <= MID_LEN_1 {
      var packet := PutForm1(t, reserved);
      r := Got(packet);
    } else if length <= MID_LEN_2 {
      var packet := PutForm2(t, reserved);
      r := Got(packet);
    } else if length <= MID_LEN_3 {
      var packet := PutForm3(t, reserved);
      r := Got(packet);
    } else if length <= MAX_LEN {
      var packet := PutForm4(t, reserved);
      r := Got(packet);
    } else {
      r := Bad(PacketSizeTooLarge);
    }
  }

  /** Marshal: five bytes are reserved, the body follows, and the header is put before it. */
  method Marshal(p: Packet) returns (r: Outcome<Str>, ghost ps: seq<(Byte, Str)>)
    ensures Enumerates(ps, p.props) && r == Marshalled(p, ps)
    ensures r == Bad(PacketSizeTooLarge) <==> |Body(p, ps)| > 0x3_ffff_ffff
    ensures r.Got? ==> |r.value| >= 2
    ensures r.Got? && p.Connect? ==> r.value[0] / 16 == 0
    ensures r.Got? && p.Connack? ==> r.value[0] / 16 == 1
    ensures r.Got? && p.Message? ==> r.value[0] / 16 == 2
    ensures r.Got? && p.Request? ==> r.value[0] / 16 == 3
    ensures r.Got? && p.Response? ==> r.value[0] / 16 == 4
    ensures r.Got? && p.Ping? ==> r.value[0] / 16 == 5
    ensures r.Got? && p.Pong? ==> r.value[0] / 16 == 6
    ensures r.Got? && p.Close? ==> r.value[0] / 16 == 7
  {
    hide Enumerates, Body, Header;
    var enc := new C.Encoder();
    enc.WriteBytes([0, 0, 0, 0, 0]);
    ps := WriteBody(p, enc);
    var data := enc.Pick();
    assert data[5..] == Body(p, ps);
    r := PutHeader(TypeOf(p), data);
    if r.Got? { HeaderFields(TypeOf(p), |Body(p, ps)|); }
  }

  method ReadConnectFrom(d: C.Decoder) returns (r: C.Result<Packet>)
    requires d.Valid() && d.pos == 0
    modifies d
    ensures d.Valid() && C.Agrees(r, d.pos, ReadConnect(d.buf))
  {
    hide ReadUint8, ReadData, ReadUint8Map;
    var version := d.ReadUInt8();
    if version.Failure? { return C.Failure(version.error); }
    var uid := d.ReadData();
    if uid.Failure? { return C.Failure(uid.error); }
    var cid := d.ReadData();
    if cid.Failure? { return C.Failure(cid.error); }
    var password := d.ReadData();
    if password.Failure? { return C.Failure(password.error); }
    var props := d.ReadUInt8Map();
    if props.Failure? { return C.Failure(props.error); }
    r := C.Success(Connect(props.value, version.value, uid.value, cid.value, password.value));
  }

  method ReadCodedFrom(d: C.Decoder) returns (r: C.Result<(Byte, Props)>)
    requires d.Valid() && d.pos == 0
    modifies d
    ensures d.Valid() && C.Agrees(r, d.pos, ReadCoded(d.buf))
  {
    hide ReadUint8, ReadUint8Map;
    var code := d.ReadUInt8();
    if code.Failure? { return C.Failure(code.error); }
    var props := d.ReadUInt8Map();
    if props.Failure? { return C.Failure(props.error); }
    r := C.Success((code.value, props.value));
  }

  method ReadMessageFrom(d: C.Decoder) returns (r: C.Result<Packet>)
    requires d.Valid() && d.pos == 0
    modifies d
    ensures d.Valid() && C.Agrees(r, d.pos, ReadMessage(d.buf))
  {
    hide ReadUint8, ReadUint8Map;
    var kind := d.ReadUInt8();
    if kind.Failure? { return C.Failure(kind.error); }
    var props := d.ReadUInt8Map();
    if props.Failure? { return C.Failure(props.error); }
    var payload := d.ReadAll();
    r := C.Success(Message(props.value, kind.value, payload));
  }

  method ReadRequestFrom(d: C.Decoder) returns (r: C.Result<Packet>)
    requires d.Valid() && d.pos == 0
    modifies d
    ensures d.Valid() && C.Agrees(r, d.pos, ReadRequest(d.buf))
  {
    hide ReadUint, ReadData, ReadUint8Map;
    var id := d.ReadUInt(2);
    if id.Failure? { return C.Failure(id.error); }
    var name := d.ReadData();
    if name.Failure? { return C.Failure(name.error); }
    var props := d.ReadUInt8Map();
    if props.Failure? { return C.Failure(props.error); }
    var body := d.ReadAll();
    r := C.Success(Request(props.value, id.value, name.value, body));
  }

  method ReadResponseFrom(d: C.Decoder) returns (r: C.Result<Packet>)
    requires d.Valid() && d.pos == 0
    modifies d
    ensures d.Valid() && C.Agrees(r, d.pos, ReadResponse(d.buf))
  {
    hide ReadUint, ReadUint8, ReadUint8Map;
    var id := d.ReadUInt(2);
    if id.Failure? { return C.Failure(id.error); }
    var code := d.ReadUInt8();
    if code.Failure? { return C.Failure(code.error); }
    var props := d.ReadUInt8Map();
    if props.Failure? { return C.Failure(props.error); }
    var body := d.ReadAll();
    r := C.Success(Response(props.value, id.value, code.value, body));
  }

  function AsOutcome(r: C.Result<Packet>): Outcome<Packet> {
    match r
    case Success(p) => Got(p)
    case Failure(e) => Bad(Coding(e))
  }

  /** unpack: the packet of the type in the header byte. */
  method UnpackData(t: Byte, data: Str) returns (r: Outcome<Packet>)
    requires IsSlice(data)
    ensures r == Unpack(t, data)
  {
    hide ReadConnect, ReadCoded, ReadMessage, ReadRequest, ReadResponse, ReadUint8Map;
    var d := new C.Decoder(data);
    match t {
      case 0 => var p := ReadConnectFrom(d); r := AsOutcome(p);
      case 1 =>
        var c := ReadCodedFrom(d);
        r := if c.Success? then Got(Connack(c.value.1, c.value.0)) else Bad(Coding(c.error));
      case 2 => var p := ReadMessageFrom(d); r := AsOutcome(p);
      case 3 => var p := ReadRequestFrom(d); r := AsOutcome(p);
      case 4 => var p := ReadResponseFrom(d); r := AsOutcome(p);
      case 5 =>
        var m := d.ReadUInt8Map();
        r := if m.Success? then Got(Ping(m.value)) else Bad(Coding(m.error));
      case 6 =>
        var m := d.ReadUInt8Map();
        r := if m.Success? then Got(Pong(m.value)) else Bad(Coding(m.error));
      case 7 =>
        var c := ReadCodedFrom(d);
        r := if c.Success? then Got(Close(c.value.1, c.value.0)) else Bad(Coding(c.error));
      case _ => r := Bad(UnknownPacketType);
    }
  }

  /** The loop that shifts the extra bytes into the length. */
  method ExtendLength(first: nat, bs: Str) returns (length: nat)
    ensures length == Extend(first, bs)
  {
    hide Or, Shl;
    length := first;
    for i := 0 to |bs|
      invariant length == Extend(first, bs[..i])
    {
      assert bs[..i + 1][..i] == bs[..i];
      LengthBits(length, bs[i]);
      length := Or(Shl(length, 8), bs[i]);
    }
    assert bs[..|bs|] == bs;
  }

  method Unmarshal(bytes: Str) returns (r: Outcome<Packet>)
    requires IsSlice(bytes)
    ensures r == Unmarshalled(bytes)
  {
    hide ReadBytes, Unpack, Extend, Or, And, Shl, Shr;
    var dc := new C.Decoder(bytes);
    var header := dc.ReadBytes(2);
    if header.Failure? { return Bad(Coding(header.error)); }
    var h := header.value;
    ByteFields(h[0]);
    LengthBits(h[0] % 4, h[1]);
    var byteCount := And(Shr(h[0], 2), 3);
    var extra := dc.ReadBytes(byteCount);
    if extra.Failure? { return Bad(Coding(extra.error)); }
    var length := ExtendLength(Or(Shl(And(h[0], 3), 8), h[1]), extra.value);
    Extend3(FirstBits(h[0], h[1]), extra.value);
    var data := dc.ReadBytes(length);
    if data.Failure? { return Bad(Coding(data.error)); }
    r := UnpackData(Shr(h[0], 4), data.value);
  }

  /** An in-memory io.Reader. */
  class Reader {
    var rest: Str

    constructor (s: Str)
      ensures rest == s
    {
      rest := s;
    }

    /** Read into a zeroed buffer of n bytes; an exhausted reader reports the end of input. */
    method Read(n: nat) returns (ok: bool, bytes: Str)
      modifies this
      ensures ok <==> old(rest) != []
      ensures ok ==> (bytes, rest) == Fill(old(rest), n)
      ensures !ok ==> rest == []
    {
      if rest == [] {
        return false, [];
      }
      ok := true;
      if n <= |rest| {
        bytes, rest := rest[..n], rest[n..];
      } else {
        bytes, rest := rest + seq(n - |rest|, _ => 0), [];
      }
    }
  }

  method ReadFrom(r: Reader) returns (out: Outcome<Packet>)
    modifies r
    ensures Reading(out, r.rest) == ReadStream(old(r.rest))
  {
    hide Fill, Unpack, Extend, Or, And, Shl, Shr;
    var ok, h := r.Read(2);
    if !ok { return Bad(EndOfInput); }
    ByteFields(h[0]);
    LengthBits(h[0] % 4, h[1]);
    var byteCount := And(Shr(h[0], 2), 3);
    var bs: Str := [];
    if byteCount > 0 {
      ok, bs := r.Read(byteCount);
      if !ok { return Bad(EndOfInput); }
    }
    var length := ExtendLength(Or(Shl(And(h[0], 3), 8), h[1]), bs);
    Extend3(FirstBits(h[0], h[1]), bs);
    var data: Str := [];
    if length > 0 {
      ok, data := r.Read(length);
      if !ok { return Bad(EndOfInput); }
    }
    out := UnpackData(Shr(h[0], 4), data);
  }
}
