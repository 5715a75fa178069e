/**
 The byte formats of coder/coder.go as functions: what each writer appends, and
 what each reader yields at a cursor position. The classes of module Coder are
 proved against them.
 */
module Codec {
  import opened Bytes
  import opened Bits

  /** `SliceFault` is the Go run-time panic of slicing with a wrapped upper bound. */
  datatype Error = BufferTooShort | VarintOverflow | SliceFault

  /** A reader's answer: the value and the position after it, or an error. */
  datatype Read<+T> = Ok(value: T, next: nat) | Err(error: Error) {
    predicate IsFailure() { Err? }

    function PropagateFailure<U>(): Read<U>
      requires Err?
    {
      Err(error)
    }

    function Extract(): (T, nat)
      requires Ok?
    {
      (value, next)
    }
  }

  /** `enc` stands at `pos` in `buf`, with anything before and after it. */
  predicate Holds(buf: Str, pos: nat, enc: Str) {
    pos + |enc| <= |buf| && buf[pos..pos + |enc|] == enc
  }

  lemma HoldsSplit(buf: Str, pos: nat, a: Str, b: Str)
    requires Holds(buf, pos, a + b)
    ensures Holds(buf, pos, a) && Holds(buf, pos + |a|, b)
  {
    assert (a + b)[..|a|] == a;
    assert (a + b)[|a|..] == b;
  }

  lemma HoldsAll(buf: Str)
    ensures Holds(buf, 0, buf)
  {}

  lemma HoldsInFrame(pre: Str, enc: Str, suf: Str)
    ensures Holds(pre + enc + suf, |pre|, enc)
  {}

  // ---------------------------------------------------------------- varints

  /** binary.AppendUvarint: seven bits a byte, low group first, high bit set on all but the last. */
  function PutUvarint(x: nat): (r: Str)
    ensures |r| >= 1
  {
    if x < 128 then [x] else [x % 128 + 128] + PutUvarint(x / 128)
  }

  /** The first value too large for the bytes from the i-th on: 2^(64-7i). */
  function Cap(i: nat): (r: nat)
    requires i <= 9
    ensures r >= 2 && (i < 9 ==> r >= 256)
    decreases 9 - i
  {
    if i == 9 then 2 else 128 * Cap(i + 1)
  }

  lemma CapZero()
    ensures Cap(0) == U64
  {
    assert Cap(8) == 0x100;
    assert Cap(6) == 0x40_0000;
    assert Cap(4) == 0x10_0000_0000;
    assert Cap(2) == 0x4_0000_0000_0000;
  }

  /** binary.Uvarint from its i-th byte on; at most ten bytes, the tenth at most 1. */
  function Uvarint(buf: Str, pos: nat, i: nat): (r: Read<nat>)
    requires pos <= |buf| && i <= 10
    ensures r.Ok? ==> i <= 9 && pos < r.next <= |buf| && r.next <= pos + 10 - i && r.value < Cap(i)
    decreases |buf| - pos
  {
    if pos == |buf| then Err(BufferTooShort)
    else if i == 10 then Err(VarintOverflow)
    else if buf[pos] < 128 then
      if i == 9 && buf[pos] > 1 then Err(VarintOverflow) else Ok(buf[pos], pos + 1)
    else
      match Uvarint(buf, pos + 1, i + 1)
      case Ok(x, next) => Ok(buf[pos] - 128 + 128 * x, next)
      case Err(e) => Err(e)
  }

  /** Every uint64 is read back exactly, whatever stands around it. */
  lemma {:induction false} UvarintInverse(buf: Str, pos: nat, x: nat, i: nat)
    requires i <= 9 && x < Cap(i) && Holds(buf, pos, PutUvarint(x))
    ensures Uvarint(buf, pos, i) == Ok(x, pos + |PutUvarint(x)|)
    decreases x
  {
    var enc := PutUvarint(x);
    assert buf[pos] == buf[pos..pos + |enc|][0];
    if x < 128 {
    } else {
      HoldsSplit(buf, pos, [x % 128 + 128], PutUvarint(x / 128));
      UvarintInverse(buf, pos + 1, x / 128, i + 1);
    }
  }

  /** No byte string that reads as x is shorter than the encoding of x. */
  lemma {:induction false} UvarintMinimal(buf: Str, pos: nat, i: nat)
    requires pos <= |buf| && i <= 10 && Uvarint(buf, pos, i).Ok?
    ensures |PutUvarint(Uvarint(buf, pos, i).value)| <= Uvarint(buf, pos, i).next - pos <= 10 - i
    decreases |buf| - pos
  {
    if buf[pos] < 128 {
    } else {
      UvarintMinimal(buf, pos + 1, i + 1);
      var x := Uvarint(buf, pos, i).value;
      assert x / 128 == Uvarint(buf, pos + 1, i + 1).value;
    }
  }

  function ReadVarint(buf: Str, pos: nat): (r: Read<nat>)
    requires pos <= |buf|
    ensures r.Ok? ==> pos < r.next <= |buf| && r.next <= pos + 10 && r.value < U64
  {
    CapZero();
    Uvarint(buf, pos, 0)
  }

  /** A written varint is read back and the cursor moves by exactly its length, at most ten. */
  lemma VarintRoundTrip(buf: Str, pos: nat, x: nat)
    requires x < U64 && Holds(buf, pos, PutUvarint(x))
    ensures ReadVarint(buf, pos) == Ok(x, pos + |PutUvarint(x)|)
    ensures |PutUvarint(x)| <= 10
  {
    hide PutUvarint, Uvarint;
    CapZero();
    UvarintInverse(buf, pos, x, 0);
  }

  /** Byte k holds the k-th group of seven bits; all but the last, above which no bits are left, have the high bit. */
  lemma {:induction false} VarintBytes(x: nat, k: nat)
    requires k < |PutUvarint(x)|
    ensures PutUvarint(x)[k] == Shr(x, 7 * k) % 128 + (if k == |PutUvarint(x)| - 1 then 0 else 128)
    ensures Shr(x, 7 * |PutUvarint(x)|) == 0
    decreases x
  {
    ShrGroup(x);
    if x < 128 {
      assert PutUvarint(x) == [x];
    } else {
      VarintBytes(x / 128, if k == 0 then 0 else k - 1);
      ShrShr(x, 7, 7 * (|PutUvarint(x)| - 1));
      if k > 0 { ShrShr(x, 7, 7 * (k - 1)); }
    }
  }

  lemma ShrGroup(x: nat)
    ensures Shr(x, 0) == x && Shr(x, 7) == x / 128
  {
    Shr8(x);
    assert Shr(x, 5) == Shr(x, 4) / 2;
    assert Shr(x, 6) == Shr(x, 5) / 2;
  }

  /** The n bytes from `pos` on all have the high bit set. */
  predicate Continues(buf: Str, pos: nat, n: nat)
    requires pos + n <= |buf|
  {
    forall p :: pos <= p < pos + n ==> buf[p] >= 128
  }

  /** Exactly when reading a varint from its i-th byte on fails, and how. */
  lemma {:induction false} UvarintOutcome(buf: Str, pos: nat, i: nat)
    requires pos <= |buf| && i <= 10
    ensures var left, most := |buf| - pos, 10 - i;
            && (Uvarint(buf, pos, i) == Err(BufferTooShort) <==> left <= most && Continues(buf, pos, left))
            && (Uvarint(buf, pos, i) == Err(VarintOverflow) <==>
                  || (left > most && Continues(buf, pos, most))
                  || (0 < most <= left && Continues(buf, pos, most - 1) && 1 < buf[pos + most - 1] < 128))
            && Uvarint(buf, pos, i) != Err(SliceFault)
    decreases |buf| - pos
  {
    if pos == |buf| || i == 10 || buf[pos] < 128 {
    } else {
      UvarintOutcome(buf, pos + 1, i + 1);
    }
  }

  /**
   A varint is too short exactly when at most ten bytes are left and all have the high
   bit set. It overflows exactly when ten bytes do and more follow, or when nine do and
   the tenth is from 2 to 127.
   */
  lemma VarintOutcome(buf: Str, pos: nat)
    requires pos <= |buf|
    ensures var left := |buf| - pos;
            && (ReadVarint(buf, pos) == Err(BufferTooShort) <==> left <= 10 && Continues(buf, pos, left))
            && (ReadVarint(buf, pos) == Err(VarintOverflow) <==>
                  || (left > 10 && Continues(buf, pos, 10))
                  || (left >= 10 && Continues(buf, pos, 9) && 1 < buf[pos + 9] < 128))
            && ReadVarint(buf, pos) != Err(SliceFault)
  {
    hide Uvarint;
    UvarintOutcome(buf, pos, 0);
  }

  // ------------------------------------------------------ fixed-width integers

  function Pow256(w: nat): (r: nat)
    ensures r > 0
  {
    if w == 0 then 1 else 256 * Pow256(w - 1)
  }

  /** Big-endian, w bytes. */
  function PutUint(w: nat, x: nat): (r: Str)
    ensures |r| == w
  {
    if w == 0 then [] else PutUint(w - 1, x / 256) + [x % 256]
  }

  function GetUint(s: Str): nat {
    if s == [] then 0 else 256 * GetUint(s[..|s| - 1]) + s[|s| - 1]
  }

  /** Big-endian: byte k of w holds bits 8(w-1-k) and up. */
  lemma {:induction false} UintBytes(w: nat, x: nat, k: nat)
    requires k < w
    ensures PutUint(w, x)[k] == Shr(x, 8 * (w - 1 - k)) % 256
  {
    if k == w - 1 {
      Shr8(x);
    } else {
      UintBytes(w - 1, x / 256, k);
      Shr8(x);
      ShrShr(x, 8, 8 * (w - 2 - k));
    }
  }

  lemma {:induction false} UintInverse(w: nat, x: nat)
    requires x < Pow256(w)
    ensures GetUint(PutUint(w, x)) == x
  {
    if w == 0 {
    } else {
      UintInverse(w - 1, x / 256);
      assert PutUint(w, x)[..w - 1] == PutUint(w - 1, x / 256);
    }
  }

  lemma {:induction false} GetUintBound(s: Str)
    ensures GetUint(s) < Pow256(|s|)
  {
    if s == [] {
    } else {
      GetUintBound(s[..|s| - 1]);
    }
  }

  lemma Pow256Values()
    ensures Pow256(1) == 256 && Pow256(2) == 0x1_0000 && Pow256(8) == U64
  {
    assert Pow256(4) == 0x1_0000_0000;
    assert Pow256(6) == 0x1_0000_0000_0000;
  }

  // ------------------------------------------------------------ cursor reads

  /** A uint64 sum of two uint64 values. */
  function Wrap(x: nat): nat { if x < U64 then x else x - U64 }

  /** The bound check adds in uint64, so the sum wraps; a wrapped sum passes the check and faults. */
  function ReadBytes(buf: Str, pos: nat, l: nat): (r: Read<Str>)
    requires pos <= |buf| && IsSlice(buf) && l < U64
    ensures r.Ok? ==> r.next == pos + l <= |buf| && |r.value| == l
  {
    if l == 0 then Ok([], pos)
    else if Wrap(pos + l) > |buf| then Err(BufferTooShort)
    else if pos + l >= U64 then Err(SliceFault)
    else Ok(buf[pos..pos + l], pos + l)
  }

  /** Exactly when the three outcomes of ReadBytes occur, for every input. */
  lemma ReadBytesOutcome(buf: Str, pos: nat, l: nat)
    requires pos <= |buf| && IsSlice(buf) && l < U64
    ensures ReadBytes(buf, pos, l).Ok? <==> pos + l <= |buf|
    ensures ReadBytes(buf, pos, l) == Err(BufferTooShort) <==> |buf| < pos + l < U64
    ensures ReadBytes(buf, pos, l) == Err(SliceFault) <==> U64 <= pos + l
  {}

  function ReadUint8(buf: Str, pos: nat): (r: Read<Byte>)
    requires pos <= |buf|
    ensures r.Ok? ==> r.next == pos + 1 <= |buf|
  {
    if pos + 1 > |buf| then Err(BufferTooShort) else Ok(buf[pos], pos + 1)
  }

  /** ReadUInt16 and ReadUInt64: w bytes, big-endian. */
  function ReadUint(w: nat, buf: Str, pos: nat): (r: Read<nat>)
    requires pos <= |buf| && IsSlice(buf) && w < U64
    ensures r.Ok? ==> r.next == pos + w <= |buf|
  {
    match ReadBytes(buf, pos, w)
    case Ok(s, next) => Ok(GetUint(s), next)
    case Err(e) => Err(e)
  }

  lemma UintRoundTrip(w: nat, buf: Str, pos: nat, x: nat)
    requires IsSlice(buf) && x < Pow256(w) && Holds(buf, pos, PutUint(w, x))
    ensures ReadUint(w, buf, pos) == Ok(x, pos + w)
  {
    UintInverse(w, x);
    ReadBytesOutcome(buf, pos, w);
  }

  function PutData(d: Str): Str { PutUvarint(|d|) + d }

  /** ReadData and ReadString. */
  function ReadData(buf: Str, pos: nat): (r: Read<Str>)
    requires pos <= |buf| && IsSlice(buf)
    ensures r.Ok? ==> pos < r.next <= |buf|
  {
    match ReadVarint(buf, pos)
    case Err(e) => Err(e)
    case Ok(l, next) => ReadBytes(buf, next, l)
  }

  lemma DataRoundTrip(buf: Str, pos: nat, d: Str)
    requires IsSlice(buf) && Holds(buf, pos, PutData(d))
    ensures ReadData(buf, pos) == Ok(d, pos + |PutData(d)|)
  {
    hide PutUvarint, ReadVarint;
    HoldsSplit(buf, pos, PutUvarint(|d|), d);
    VarintRoundTrip(buf, pos, |d|);
    ReadBytesOutcome(buf, pos + |PutUvarint(|d|)|, |d|);
  }

  // ------------------------------------------------------------ string maps

  function PutPair(p: (Str, Str)): (r: Str)
    ensures |r| >= 2
  {
    PutData(p.0) + PutData(p.1)
  }

  function PutPairs(ps: seq<(Str, Str)>): (r: Str)
    ensures |r| >= 2 * |ps|
  {
    if ps == [] then [] else PutPairs(ps[..|ps| - 1]) + PutPair(ps[|ps| - 1])
  }

  /** WriteStrMap of the map enumerated as `ps`. */
  function PutStrMap(ps: seq<(Str, Str)>): (r: Str) { PutUvarint(|ps|) + PutPairs(ps) }

  function ReadPair(buf: Str, pos: nat): (r: Read<(Str, Str)>)
    requires pos <= |buf| && IsSlice(buf)
    ensures r.Ok? ==> pos + 2 <= r.next <= |buf|
  {
    match ReadData(buf, pos)
    case Err(e) => Err(e)
    case Ok(k, p) =>
      match ReadData(buf, p)
      case Err(e) => Err(e)
      case Ok(v, q) => Ok((k, v), q)
  }

  /** The pairs read by the first n iterations of ReadStrMap's loop. */
  function ReadPairs(buf: Str, pos: nat, n: nat): (r: Read<seq<(Str, Str)>>)
    requires pos <= |buf| && IsSlice(buf)
    ensures r.Ok? ==> pos + 2 * n <= r.next <= |buf| && |r.value| == n
  {
    if n == 0 then Ok([], pos)
    else
      match ReadPairs(buf, pos, n - 1)
      case Err(e) => Err(e)
      case Ok(ps, next) =>
        match ReadPair(buf, next)
        case Err(e) => Err(e)
        case Ok(p, next') => Ok(ps + [p], next')
  }

  /** int(l): a claimed count of 2^63 or more turns negative and the loop does not run. */
  function LoopCount(l: nat): nat { if l < I64 then l else 0 }

  function ReadStrMap(buf: Str, pos: nat): (r: Read<map<Str, Str>>)
    requires pos <= |buf| && IsSlice(buf)
    ensures r.Ok? ==> pos < r.next <= |buf|
  {
    match ReadVarint(buf, pos)
    case Err(e) => Err(e)
    case Ok(l, next) =>
      match ReadPairs(buf, next, LoopCount(l))
      case Err(e) => Err(e)
      case Ok(ps, next') => Ok(ToMap(ps), next')
  }

  lemma PairRoundTrip(buf: Str, pos: nat, p: (Str, Str))
    requires IsSlice(buf) && Holds(buf, pos, PutPair(p))
    ensures ReadPair(buf, pos) == Ok(p, pos + |PutPair(p)|)
  {
    hide Holds, PutData, ReadData;
    HoldsSplit(buf, pos, PutData(p.0), PutData(p.1));
    DataRoundTrip(buf, pos, p.0);
    DataRoundTrip(buf, pos + |PutData(p.0)|, p.1);
  }

  lemma {:induction false} PairsRoundTrip(buf: Str, pos: nat, ps: seq<(Str, Str)>)
    requires IsSlice(buf) && Holds(buf, pos, PutPairs(ps))
    ensures ReadPairs(buf, pos, |ps|) == Ok(ps, pos + |PutPairs(ps)|)
    decreases |ps|
  {
    hide Holds, PutPair, ReadPair;
    if ps == [] {
    } else {
      var init, last := ps[..|ps| - 1], ps[|ps| - 1];
      HoldsSplit(buf, pos, PutPairs(init), PutPair(last));
      PairsRoundTrip(buf, pos, init);
      PairRoundTrip(buf, pos + |PutPairs(init)|, last);
      assert init + [last] == ps;
    }
  }

  /** The map is recovered from every enumeration, and what follows stays unread. */
  lemma StrMapRoundTrip(buf: Str, pos: nat, ps: seq<(Str, Str)>, m: map<Str, Str>)
    requires IsSlice(buf) && Enumerates(ps, m) && Holds(buf, pos, PutStrMap(ps))
    ensures ReadStrMap(buf, pos) == Ok(m, pos + |PutStrMap(ps)|)
  {
    hide PutUvarint, ReadVarint, PutPairs, ReadPairs, ToMap;
    var count := PutUvarint(|ps|);
    HoldsSplit(buf, pos, count, PutPairs(ps));
    assert |ps| < I64 by {
      assert 2 * |ps| <= |PutPairs(ps)| <= |buf|;
    }
    VarintRoundTrip(buf, pos, |ps|);
    assert LoopCount(|ps|) == |ps|;
    PairsRoundTrip(buf, pos + |count|, ps);
  }

  /** Whatever count is claimed, the iterations that succeed are bounded by half the bytes left. */
  lemma {:induction false} PairsBound(buf: Str, pos: nat, n: nat)
    requires pos <= |buf| && IsSlice(buf)
    requires n > (|buf| - pos) / 2
    ensures ReadPairs(buf, pos, n).Err?
    ensures ReadPairs(buf, pos, n) == ReadPairs(buf, pos, (|buf| - pos) / 2 + 1)
  {
    hide ReadPair;
    if n - 1 <= (|buf| - pos) / 2 {
    } else {
      PairsBound(buf, pos, n - 1);
    }
  }

  // ---------------------------------------------------------- property maps

  function PutProp(p: (Byte, Str)): (r: Str) { [p.0] + PutData(p.1) }

  function PutProps(ps: seq<(Byte, Str)>): (r: Str) {
    if ps == [] then [] else PutProps(ps[..|ps| - 1]) + PutProp(ps[|ps| - 1])
  }

  /** WriteUInt8Map: the count is one byte, so 256 entries are announced as none. */
  function PutUint8Map(ps: seq<(Byte, Str)>): (r: Str) { [|ps| % 256] + PutProps(ps) }

  function ReadProp(buf: Str, pos: nat): (r: Read<(Byte, Str)>)
    requires pos <= |buf| && IsSlice(buf)
    ensures r.Ok? ==> pos + 2 <= r.next <= |buf|
  {
    match ReadUint8(buf, pos)
    case Err(e) => Err(e)
    case Ok(k, p) =>
      match ReadData(buf, p)
      case Err(e) => Err(e)
      case Ok(v, q) => Ok((k, v), q)
  }

  function ReadProps(buf: Str, pos: nat, n: nat): (r: Read<seq<(Byte, Str)>>)
    requires pos <= |buf| && IsSlice(buf)
    ensures r.Ok? ==> pos + 2 * n <= r.next <= |buf| && |r.value| == n
  {
    if n == 0 then Ok([], pos)
    else
      match ReadProps(buf, pos, n - 1)
      case Err(e) => Err(e)
      case Ok(ps, next) =>
        match ReadProp(buf, next)
        case Err(e) => Err(e)
        case Ok(p, next') => Ok(ps + [p], next')
  }

  function ReadUint8Map(buf: Str, pos: nat): (r: Read<map<Byte, Str>>)
    requires pos <= |buf| && IsSlice(buf)
    ensures r.Ok? ==> pos < r.next <= |buf|
  {
    match ReadUint8(buf, pos)
    case Err(e) => Err(e)
    case Ok(l, next) =>
      match ReadProps(buf, next, l)
      case Err(e) => Err(e)
      case Ok(ps, next') => Ok(ToMap(ps), next')
  }

  lemma Uint8RoundTrip(buf: Str, pos: nat, b: Byte)
    requires Holds(buf, pos, [b])
    ensures ReadUint8(buf, pos) == Ok(b, pos + 1)
  {
    assert buf[pos] == buf[pos..pos + 1][0];
  }

  lemma PropRoundTrip(buf: Str, pos: nat, p: (Byte, Str))
    requires IsSlice(buf) && Holds(buf, pos, PutProp(p))
    ensures ReadProp(buf, pos) == Ok(p, pos + |PutProp(p)|)
  {
    hide Holds, PutData, ReadData;
    HoldsSplit(buf, pos, [p.0], PutData(p.1));
    Uint8RoundTrip(buf, pos, p.0);
    DataRoundTrip(buf, pos + 1, p.1);
  }

  lemma {:induction false} PropsRoundTrip(buf: Str, pos: nat, ps: seq<(Byte, Str)>)
    requires IsSlice(buf) && Holds(buf, pos, PutProps(ps))
    ensures ReadProps(buf, pos, |ps|) == Ok(ps, pos + |PutProps(ps)|)
    decreases |ps|
  {
    hide Holds, PutProp, ReadProp;
    if ps == [] {
    } else {
      var init, last := ps[..|ps| - 1], ps[|ps| - 1];
      HoldsSplit(buf, pos, PutProps(init), PutProp(last));
      PropsRoundTrip(buf, pos, init);
      PropRoundTrip(buf, pos + |PutProps(init)|, last);
      assert init + [last] == ps;
    }
  }

  lemma {:induction false} KeysBelow(m: map<Byte, Str>, n: nat)
    requires n <= 256 && forall k :: k in m ==> k < n
    ensures |m| <= n
    decreases n
  {
    if n == 0 {
      assert m == map[];
    } else {
      var rest := map k | k in m && k != n - 1 :: m[k];
      KeysBelow(rest, n - 1);
      assert m.Keys == rest.Keys + (if n - 1 in m then {n - 1} else {});
    }
  }

  /** uint8 keys leave room for at most 256 entries. */
  lemma Uint8MapSize(m: map<Byte, Str>)
    ensures |m| <= 256
  {
    KeysBelow(m, 256);
  }

  /** The property map survives exactly when it does not use all 256 keys; else it reads as empty. */
  lemma Uint8MapRoundTrip(buf: Str, pos: nat, ps: seq<(Byte, Str)>, m: map<Byte, Str>)
    requires IsSlice(buf) && Enumerates(ps, m) && Holds(buf, pos, PutUint8Map(ps))
    ensures |m| != 256 ==> ReadUint8Map(buf, pos) == Ok(m, pos + |PutUint8Map(ps)|)
    ensures |m| == 256 ==> ReadUint8Map(buf, pos) == Ok(map[], pos + 1)
  {
    hide Holds, PutProps, ReadUint8, PutData, ReadProp;
    Uint8MapSize(m);
    var count: Byte := |ps| % 256;
    assert count == if |m| == 256 then 0 else |m|;
    HoldsSplit(buf, pos, [count], PutProps(ps));
    Uint8RoundTrip(buf, pos, count);
    if |m| != 256 {
      hide ReadProps, ToMap;
      PropsRoundTrip(buf, pos + 1, ps);
    } else {
      assert ReadProps(buf, pos + 1, 0) == Ok([], pos + 1);
    }
  }

  // ---------------------------------------------------- when and how reading fails

  /** The string at `pos` cannot be read: its length prefix fails, or its bytes end past the buffer or past 2^64. */
  predicate TextFails(buf: Str, pos: nat, e: Error)
    requires pos <= |buf|
  {
    match ReadVarint(buf, pos)
    case Err(x) => x == e
    case Ok(l, next) =>
      || (e == BufferTooShort && |buf| < next + l < 0x1_0000_0000_0000_0000)
      || (e == SliceFault && 0x1_0000_0000_0000_0000 <= next + l)
  }

  /** Reading a string fails with an error exactly when its length prefix says so; it panics when the sum wraps. */
  lemma DataFails(buf: Str, pos: nat, e: Error)
    requires pos <= |buf| && IsSlice(buf)
    ensures ReadData(buf, pos) == Err(e) <==> TextFails(buf, pos, e)
  {
    VarintOutcome(buf, pos);
    hide Uvarint, Continues;
    match ReadVarint(buf, pos)
    case Ok(l, next) => ReadBytesOutcome(buf, next, l);
    case Err(_) =>
  }

  /** The i-th pair is reached, and its key or its value cannot be read. */
  predicate PairFails(buf: Str, pos: nat, i: nat, e: Error)
    requires pos <= |buf| && IsSlice(buf)
  {
    match ReadPairs(buf, pos, i)
    case Err(_) => false
    case Ok(_, p) =>
      || TextFails(buf, p, e)
      || match ReadData(buf, p)
         case Ok(_, q) => TextFails(buf, q, e)
         case Err(_) => false
  }

  ghost predicate SomePairFails(buf: Str, pos: nat, n: nat, e: Error)
    requires pos <= |buf| && IsSlice(buf)
  {
    exists i :: 0 <= i < n && PairFails(buf, pos, i, e)
  }

  /** Reading n pairs fails exactly when one that is reached does. */
  lemma {:induction false} PairsFail(buf: Str, pos: nat, n: nat, e: Error)
    requires pos <= |buf| && IsSlice(buf)
    ensures ReadPairs(buf, pos, n) == Err(e) <==> SomePairFails(buf, pos, n, e)
  {
    hide ReadData, TextFails;
    if n == 0 {
    } else {
      PairsFail(buf, pos, n - 1, e);
      match ReadPairs(buf, pos, n - 1)
      case Ok(_, p) =>
        DataFails(buf, p, e);
        if ReadData(buf, p).Ok? { DataFails(buf, ReadData(buf, p).next, e); }
        assert ReadPairs(buf, pos, n) == Err(e) <==> PairFails(buf, pos, n - 1, e);
      case Err(_) =>
    }
  }

  /** The i-th property is reached, and its key is missing or its value cannot be read. */
  predicate PropFails(buf: Str, pos: nat, i: nat, e: Error)
    requires pos <= |buf| && IsSlice(buf)
  {
    match ReadProps(buf, pos, i)
    case Err(_) => false
    case Ok(_, p) => if p < |buf| then TextFails(buf, p + 1, e) else e == BufferTooShort
  }

  ghost predicate SomePropFails(buf: Str, pos: nat, n: nat, e: Error)
    requires pos <= |buf| && IsSlice(buf)
  {
    exists i :: 0 <= i < n && PropFails(buf, pos, i, e)
  }

  lemma OnePropFails(buf: Str, pos: nat, e: Error)
    requires pos <= |buf| && IsSlice(buf)
    ensures ReadProp(buf, pos) == Err(e) <==>
              if pos < |buf| then TextFails(buf, pos + 1, e) else e == BufferTooShort
  {
    hide ReadData, TextFails;
    if pos < |buf| { DataFails(buf, pos + 1, e); }
  }

  /** Reading n properties fails exactly when one that is reached does. */
  lemma {:induction false} PropsFail(buf: Str, pos: nat, n: nat, e: Error)
    requires pos <= |buf| && IsSlice(buf)
    ensures ReadProps(buf, pos, n) == Err(e) <==> SomePropFails(buf, pos, n, e)
  {
    hide ReadProp, TextFails;
    if n == 0 {
    } else {
      PropsFail(buf, pos, n - 1, e);
      match ReadProps(buf, pos, n - 1)
      case Ok(_, p) =>
        OnePropFails(buf, p, e);
        assert ReadProps(buf, pos, n) == Err(e) <==> PropFails(buf, pos, n - 1, e);
      case Err(_) =>
    }
  }

  /** What a message is made of, field after field. */
  datatype Shape = Fixed(width: nat, rest: Shape) | Text(rest: Shape) | Props | Pairs | End

  /**
   Walking over the fields from `pos` on, the first that cannot be read fails with e. A
   claimed number of pairs of 2^63 or more counts as none.
   */
  ghost predicate Fails(buf: Str, pos: nat, shape: Shape, e: Error)
    requires pos <= |buf| && IsSlice(buf)
    decreases shape
  {
    match shape
    case Fixed(w, rest) => if pos + w <= |buf| then Fails(buf, pos + w, rest, e) else e == BufferTooShort
    case Text(rest) =>
      || TextFails(buf, pos, e)
      || (match ReadData(buf, pos)
          case Ok(_, next) => Fails(buf, next, rest, e)
          case Err(_) => false)
    case Props => if pos < |buf| then SomePropFails(buf, pos + 1, buf[pos], e) else e == BufferTooShort
    case Pairs =>
      (match ReadVarint(buf, pos)
       case Ok(l, next) => l < 0x8000_0000_0000_0000 && SomePairFails(buf, next, l, e)
       case Err(x) => x == e)
    case End => false
  }

  lemma Uint8MapFails(buf: Str, pos: nat, e: Error)
    requires pos <= |buf| && IsSlice(buf)
    ensures ReadUint8Map(buf, pos) == Err(e) <==> Fails(buf, pos, Props, e)
  {
    hide ReadProps, SomePropFails, ToMap;
    if pos < |buf| {
      PropsFail(buf, pos + 1, buf[pos], e);
    }
  }

  lemma StrMapFails(buf: Str, pos: nat, e: Error)
    requires pos <= |buf| && IsSlice(buf)
    ensures ReadStrMap(buf, pos) == Err(e) <==> Fails(buf, pos, Pairs, e)
    ensures ReadVarint(buf, pos).Ok? && ReadVarint(buf, pos).value >= 0x8000_0000_0000_0000 ==>
              ReadStrMap(buf, pos) == Ok(map[], ReadVarint(buf, pos).next)
  {
    hide Uvarint, SomePairFails;
    match ReadVarint(buf, pos)
    case Ok(l, next) =>
      if l < I64 {
        hide ReadPairs, ToMap;
        PairsFail(buf, next, l, e);
      }
    case Err(_) =>
  }

  /** A fixed-width field is read exactly when its bytes are there, and else is too short. */
  lemma FixedOutcome(w: nat, buf: Str, pos: nat)
    requires pos <= |buf| && IsSlice(buf) && w <= 8
    ensures ReadUint(w, buf, pos).Ok? <==> pos + w <= |buf|
    ensures ReadUint(w, buf, pos) == Err(BufferTooShort) <==> pos + w > |buf|
  {
    ReadBytesOutcome(buf, pos, w);
  }

  /** The varint of 2^64 - 1. */
  const LONGEST: Str := [255, 255, 255, 255, 255, 255, 255, 255, 255, 1]

  lemma {:induction false} LongestFrom(buf: Str, pos: nat, i: nat)
    requires i <= 9 && pos + 10 - i <= |buf|
    requires (forall p :: pos <= p < pos + 9 - i ==> buf[p] == 255) && buf[pos + 9 - i] == 1
    ensures Uvarint(buf, pos, i) == Ok(Cap(i) - 1, pos + 10 - i)
    decreases 9 - i
  {
    if i == 9 {
    } else {
      LongestFrom(buf, pos + 1, i + 1);
    }
  }

  /** As a length prefix these ten bytes make the decoder panic wherever they stand. */
  lemma LongestFaults(buf: Str, pos: nat)
    requires Holds(buf, pos, LONGEST)
    ensures TextFails(buf, pos, SliceFault)
  {
    CapZero();
    hide Uvarint;
    forall p | pos <= p < pos + 10 ensures buf[p] == LONGEST[p - pos] {
      assert buf[p] == buf[pos..pos + 10][p - pos];
    }
    LongestFrom(buf, pos, 0);
  }
}
