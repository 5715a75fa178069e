/**
 The encoder and decoder objects of coder/coder.go. The encoder appends to its
 buffer, the decoder moves a position over its buffer; both are proved against the
 formats of module Codec. Go maps are visited in an arbitrary order, so the map
 writers report which enumeration they happened to use.
 */
module Coder {
  import opened Bytes
  import opened Codec

  datatype Result<+T> = Success(value: T) | Failure(error: Error)

  /** A reader method did what the format says: same value and new position, or same error. */
  ghost predicate Agrees<T>(r: Result<T>, pos: nat, spec: Read<T>) {
    match spec
    case Ok(v, next) => r == Success(v) && pos == next
    case Err(e) => r == Failure(e)
  }

  class Encoder {
    var buf: Str

    constructor ()
      ensures buf == []
    {
      buf := [];
    }

    /** Pick clones the bytes and returns the emptied encoder to its pool. */
    method Pick() returns (r: Str)
      modifies this
      ensures r == old(buf) && buf == []
    {
      r := buf;
      buf := [];
    }

    method WriteBytes(p: Str)
      modifies this
      ensures buf == old(buf) + p
    {
      buf := buf + p;
    }

    method WriteUInt8(i: Byte)
      modifies this
      ensures buf == old(buf) + [i]
    {
      buf := buf + [i];
    }

    method WriteUInt16(i: nat)
      modifies this
      ensures buf == old(buf) + PutUint(2, i)
    {
      buf := buf + PutUint(2, i);
    }

    method WriteUInt64(i: nat)
      modifies this
      ensures buf == old(buf) + PutUint(8, i)
    {
      buf := buf + PutUint(8, i);
    }

    method WriteVarint(i: nat)
      modifies this
      ensures buf == old(buf) + PutUvarint(i)
    {
      var x := i;
      while x >= 128
        invariant buf + PutUvarint(x) == old(buf) + PutUvarint(i)
      {
        ghost var before := buf + PutUvarint(x);
        buf := buf + [x % 128 + 128];
        x := x / 128;
        assert buf + PutUvarint(x) == before;
      }
      buf := buf + [x];
    }

    method WriteData(data: Str)
      modifies this
      ensures buf == old(buf) + PutData(data)
      ensures PutData(data) == PutUvarint(|data|) + data
    {
      WriteVarint(|data|);
      if |data| > 0 {
        WriteBytes(data);
      }
    }

    method WritePair(p: (Str, Str))
      modifies this
      ensures buf == old(buf) + PutPair(p)
      ensures PutPair(p) == PutData(p.0) + PutData(p.1)
    {
      hide PutData;
      WriteData(p.0);
      WriteData(p.1);
    }

    method WriteProp(p: (Byte, Str))
      modifies this
      ensures buf == old(buf) + PutProp(p)
      ensures PutProp(p) == [p.0] + PutData(p.1)
    {
      hide PutData;
      WriteUInt8(p.0);
      WriteData(p.1);
    }

    /** The loop over the map, in the order Go happens to choose. */
    method WritePairs(m: map<Str, Str>) returns (ghost ps: seq<(Str, Str)>)
      modifies this
      ensures Enumerates(ps, m)
      ensures buf == old(buf) + PutPairs(ps)
    {
      hide *;
      ps := [];
      var todo := m.Keys;
      PairsStart(m);
      while todo != {}
        invariant todo <= m.Keys
        invariant ToMap(ps) == Visited(m, todo)
        invariant |ps| + |todo| == |m|
        invariant buf == old(buf) + PutPairs(ps)
        decreases |todo|
      {
        var k :| k in todo;
        WritePair((k, m[k]));
        PairsSnoc(ps, (k, m[k]));
        VisitedStep(m, todo, k);
        assert buf == old(buf) + (PutPairs(ps) + PutPair((k, m[k])));
        ps := ps + [(k, m[k])];
        todo := todo - {k};
      }
      VisitedAll(m);
      Enumerated(ps, m);
    }

    method WriteStrMap(m: map<Str, Str>) returns (ghost ps: seq<(Str, Str)>)
      modifies this
      ensures Enumerates(ps, m)
      ensures buf == old(buf) + PutStrMap(ps)
      ensures PutStrMap(ps) == PutUvarint(|m|) + PutPairs(ps)
    {
      hide PutPairs, ToMap, PutUvarint;
      WriteVarint(|m|);
      ps := WritePairs(m);
    }

    /** The loop over the map, in the order Go happens to choose. */
    method WriteProps(m: map<Byte, Str>) returns (ghost ps: seq<(Byte, Str)>)
      modifies this
      ensures Enumerates(ps, m)
      ensures buf == old(buf) + PutProps(ps)
    {
      hide *;
      ps := [];
      var todo := m.Keys;
      PropsStart(m);
      while todo != {}
        invariant todo <= m.Keys
        invariant ToMap(ps) == Visited(m, todo)
        invariant |ps| + |todo| == |m|
        invariant buf == old(buf) + PutProps(ps)
        decreases |todo|
      {
        var k :| k in todo;
        WriteProp((k, m[k]));
        PropsSnoc(ps, (k, m[k]));
        VisitedStep(m, todo, k);
        assert buf == old(buf) + (PutProps(ps) + PutProp((k, m[k])));
        ps := ps + [(k, m[k])];
        todo := todo - {k};
      }
      VisitedAll(m);
      Enumerated(ps, m);
    }

    method WriteUInt8Map(m: map<Byte, Str>) returns (ghost ps: seq<(Byte, Str)>)
      modifies this
      ensures Enumerates(ps, m)
      ensures buf == old(buf) + PutUint8Map(ps)
      ensures PutUint8Map(ps) == [|m| % 256] + PutProps(ps)
    {
      hide PutProps, ToMap, PutUvarint;
      WriteUInt8(|m| % 256);
      ps := WriteProps(m);
    }
  }

  /** The entries of `m` an iteration has visited when the keys `todo` are still to come. */
  ghost function Visited<K, V>(m: map<K, V>, todo: set<K>): map<K, V> {
    map k | k in m && k !in todo :: m[k]
  }

  lemma VisitedStep<K, V>(m: map<K, V>, todo: set<K>, k: K)
    requires k in todo && k in m
    ensures Visited(m, todo - {k}) == Visited(m, todo)[k := m[k]]
    ensures |todo - {k}| == |todo| - 1
  {}

  lemma VisitedAll<K, V>(m: map<K, V>)
    ensures Visited(m, {}) == m
  {}

  lemma EmptyMap<K>()
    ensures ToMap<K, Str>([]) == map[]
  {}

  lemma Enumerated<K, V>(ps: seq<(K, V)>, m: map<K, V>)
    requires |ps| == |m| && ToMap(ps) == m
    ensures Enumerates(ps, m)
  {}

  lemma PairsStart(m: map<Str, Str>)
    ensures PutPairs([]) == [] && ToMap<Str, Str>([]) == Visited(m, m.Keys)
  {}

  lemma PropsStart(m: map<Byte, Str>)
    ensures PutProps([]) == [] && ToMap<Byte, Str>([]) == Visited(m, m.Keys)
  {}

  lemma PairsSnoc(ps: seq<(Str, Str)>, p: (Str, Str))
    ensures PutPairs(ps + [p]) == PutPairs(ps) + PutPair(p)
    ensures ToMap(ps + [p]) == ToMap(ps)[p.0 := p.1]
  {
    hide PutPair;
    assert (ps + [p])[..|ps|] == ps;
  }

  lemma PropsSnoc(ps: seq<(Byte, Str)>, p: (Byte, Str))
    ensures PutProps(ps + [p]) == PutProps(ps) + PutProp(p)
    ensures ToMap(ps + [p]) == ToMap(ps)[p.0 := p.1]
  {
    hide PutProp;
    assert (ps + [p])[..|ps|] == ps;
  }

  function Pow128(i: nat): nat { if i == 0 then 1 else 128 * Pow128(i - 1) }

  /** What the whole varint reads as, once its first i bytes have put x together. */
  ghost function Resume(x: nat, i: nat, rest: Read<nat>): Read<nat> {
    match rest
    case Ok(y, next) => Ok(x + Pow128(i) * y, next)
    case Err(e) => Err(e)
  }

  lemma ResumeStep(x: nat, i: nat, b: nat, rest: Read<nat>)
    ensures Resume(x, i, match rest case Ok(y, next) => Ok(b + 128 * y, next) case Err(e) => Err(e))
         == Resume(x + Pow128(i) * b, i + 1, rest)
  {
    if rest.Ok? {
      assert Pow128(i) * (b + 128 * rest.value) == Pow128(i) * b + 128 * Pow128(i) * rest.value;
    }
  }

  lemma ScanStart(buf: Str, pos: nat)
    requires pos <= |buf|
    ensures Pow128(0) == 1 && Resume(0, 0, Uvarint(buf, pos, 0)) == Uvarint(buf, pos, 0)
  {
    hide Uvarint;
  }

  /** A byte with the high bit set goes into the value, and the scan goes on. */
  lemma ScanOn(buf: Str, pos: nat, x: nat, i: nat)
    requires pos < |buf| && i < 10 && buf[pos] >= 128
    ensures Resume(x, i, Uvarint(buf, pos, i))
         == Resume(x + Pow128(i) * (buf[pos] - 128), i + 1, Uvarint(buf, pos + 1, i + 1))
    ensures Pow128(i + 1) == 128 * Pow128(i) && Pow128(i) * (buf[pos] - 128) >= 0
  {
    ResumeStep(x, i, buf[pos] - 128, Uvarint(buf, pos + 1, i + 1));
    hide Resume, Cap;
  }

  /** The scan ends at the end of the buffer, at the eleventh byte, or at a byte without the high bit. */
  lemma ScanEnd(buf: Str, pos: nat, x: nat, i: nat)
    requires pos <= |buf| && i <= 10
    ensures pos == |buf| ==> Resume(x, i, Uvarint(buf, pos, i)) == Err(BufferTooShort)
    ensures pos < |buf| && (i == 10 || (i == 9 && 1 < buf[pos] < 128)) ==>
              Resume(x, i, Uvarint(buf, pos, i)) == Err(VarintOverflow)
    ensures pos < |buf| && i < 10 && buf[pos] < 128 && (i < 9 || buf[pos] <= 1) ==>
              Resume(x, i, Uvarint(buf, pos, i)) == Ok(x + Pow128(i) * buf[pos], pos + 1)
  {
    hide Cap, Pow128;
  }

  /** The loop of binary.Uvarint: it puts the groups together low end first. */
  method ScanUvarint(buf: Str, pos: nat) returns (r: Read<nat>)
    requires pos <= |buf|
    ensures r == Uvarint(buf, pos, 0)
  {
    hide *;
    ScanStart(buf, pos);
    var x: nat, scale: nat, i: nat := 0, 1, 0;
    while pos + i < |buf|
      invariant i <= 10 && pos + i <= |buf|
      invariant scale == Pow128(i)
      invariant Uvarint(buf, pos, 0) == Resume(x, i, Uvarint(buf, pos + i, i))
    {
      var b: nat := buf[pos + i];
      ScanEnd(buf, pos + i, x, i);
      if i == 10 {
        return Err(VarintOverflow);
      }
      if b < 128 {
        if i == 9 && b > 1 {
          return Err(VarintOverflow);
        }
        return Ok(x + scale * b, pos + i + 1);
      }
      ScanOn(buf, pos + i, x, i);
      x := x + scale * (b - 128);
      scale := 128 * scale;
      i := i + 1;
    }
    ScanEnd(buf, pos + i, x, i);
    r := Err(BufferTooShort);
  }

  class Decoder {
    const buf: Str
    var pos: nat

    /** The cursor never leaves the buffer. */
    ghost predicate Valid()
      reads this
    {
      pos <= |buf| && IsSlice(buf)
    }

    constructor (bytes: Str)
      requires IsSlice(bytes)
      ensures Valid() && buf == bytes && pos == 0
    {
      buf := bytes;
      pos := 0;
    }

    method ReadBytes(l: nat) returns (r: Result<Str>)
      requires Valid() && l < U64
      modifies this
      ensures Valid() && Agrees(r, pos, Codec.ReadBytes(buf, old(pos), l))
    {
      if l == 0 {
        return Success([]);
      }
      if Wrap(pos + l) > |buf| {
        return Failure(BufferTooShort);
      }
      if Wrap(pos + l) < pos {
        return Failure(SliceFault);
      }
      r := Success(buf[pos..pos + l]);
      pos := pos + l;
    }

    method ReadUInt8() returns (r: Result<Byte>)
      requires Valid()
      modifies this
      ensures Valid() && Agrees(r, pos, Codec.ReadUint8(buf, old(pos)))
    {
      if pos + 1 > |buf| {
        return Failure(BufferTooShort);
      }
      r := Success(buf[pos]);
      pos := pos + 1;
    }

    /** ReadUInt16 (w = 2) and ReadUInt64 (w = 8). */
    method ReadUInt(w: nat) returns (r: Result<nat>)
      requires Valid() && w < U64
      modifies this
      ensures Valid() && Agrees(r, pos, Codec.ReadUint(w, buf, old(pos)))
    {
      var bytes := ReadBytes(w);
      if bytes.Failure? {
        return Failure(bytes.error);
      }
      r := Success(GetUint(bytes.value));
    }

    method ReadVarint() returns (r: Result<nat>)
      requires Valid()
      modifies this
      ensures Valid() && Agrees(r, pos, Codec.ReadVarint(buf, old(pos)))
    {
      hide Uvarint;
      var v := ScanUvarint(buf, pos);
      if v.Err? {
        return Failure(v.error);
      }
      r := Success(v.value);
      pos := v.next;
    }

    /** ReadData and ReadString. */
    method ReadData() returns (r: Result<Str>)
      requires Valid()
      modifies this
      ensures Valid() && Agrees(r, pos, Codec.ReadData(buf, old(pos)))
    {
      hide Codec.ReadVarint, Codec.ReadBytes;
      var l := ReadVarint();
      if l.Failure? {
        return Failure(l.error);
      }
      r := ReadBytes(l.value);
    }

    /** One turn of ReadStrMap's loop. */
    method ReadPair() returns (r: Result<(Str, Str)>)
      requires Valid()
      modifies this
      ensures Valid() && Agrees(r, pos, Codec.ReadPair(buf, old(pos)))
    {
      hide Codec.ReadData;
      var k := ReadData();
      if k.Failure? {
        return Failure(k.error);
      }
      var v := ReadData();
      if v.Failure? {
        return Failure(v.error);
      }
      r := Success((k.value, v.value));
    }

    /** Whatever count is claimed, the loop turns at most half as often as bytes are left, plus once. */
    method ReadStrMap() returns (r: Result<map<Str, Str>>, ghost turns: nat)
      requires Valid()
      modifies this
      ensures Valid() && Agrees(r, pos, Codec.ReadStrMap(buf, old(pos)))
      ensures turns <= (|buf| - old(pos)) / 2 + 1
    {
      hide Codec.ReadVarint, Codec.ReadPair, ToMap;
      turns := 0;
      var l := ReadVarint();
      if l.Failure? {
        return Failure(l.error), turns;
      }
      var n := LoopCount(l.value);
      ghost var start := pos;
      ghost var ps: seq<(Str, Str)> := [];
      var m: map<Str, Str> := map[];
      EmptyMap<Str>();
      for i := 0 to n
        invariant Valid() && turns == i
        invariant m == ToMap(ps)
        invariant ReadPairs(buf, start, i) == Ok(ps, pos)
      {
        turns := turns + 1;
        PairsErrorStays(buf, start, i + 1, n);
        var kv := ReadPair();
        if kv.Failure? {
          return Failure(kv.error), turns;
        }
        PairsSnoc(ps, kv.value);
        m := m[kv.value.0 := kv.value.1];
        ps := ps + [kv.value];
      }
      r := Success(m);
    }

    /** One turn of ReadUInt8Map's loop. */
    method ReadProp() returns (r: Result<(Byte, Str)>)
      requires Valid()
      modifies this
      ensures Valid() && Agrees(r, pos, Codec.ReadProp(buf, old(pos)))
    {
      hide Codec.ReadUint8, Codec.ReadData;
      var k := ReadUInt8();
      if k.Failure? {
        return Failure(k.error);
      }
      var v := ReadData();
      if v.Failure? {
        return Failure(v.error);
      }
      r := Success((k.value, v.value));
    }

    method ReadUInt8Map() returns (r: Result<map<Byte, Str>>)
      requires Valid()
      modifies this
      ensures Valid() && Agrees(r, pos, Codec.ReadUint8Map(buf, old(pos)))
    {
      hide Codec.ReadUint8, Codec.ReadProp, ToMap;
      var l := ReadUInt8();
      if l.Failure? {
        return Failure(l.error);
      }
      ghost var start := pos;
      ghost var ps: seq<(Byte, Str)> := [];
      var m: map<Byte, Str> := map[];
      EmptyMap<Byte>();
      for i := 0 to l.value
        invariant Valid()
        invariant m == ToMap(ps)
        invariant ReadProps(buf, start, i) == Ok(ps, pos)
      {
        PropsErrorStays(buf, start, i + 1, l.value);
        var kv := ReadProp();
        if kv.Failure? {
          return Failure(kv.error);
        }
        PropsSnoc(ps, kv.value);
        m := m[kv.value.0 := kv.value.1];
        ps := ps + [kv.value];
      }
      r := Success(m);
    }

    method ReadAll() returns (r: Str)
      requires Valid()
      modifies this
      ensures Valid() && r == buf[old(pos)..] && pos == |buf|
    {
      if pos >= |buf| {
        return [];
      }
      r := buf[pos..];
      pos := |buf|;
    }
  }

  /** The loop stops at its first error. */
  lemma {:induction false} PairsErrorStays(buf: Str, pos: nat, i: nat, n: nat)
    requires pos <= |buf| && IsSlice(buf) && i <= n
    ensures ReadPairs(buf, pos, i).Err? ==> ReadPairs(buf, pos, n) == ReadPairs(buf, pos, i)
    decreases n
  {
    hide ReadPair;
    if i == n {
    } else {
      PairsErrorStays(buf, pos, i, n - 1);
    }
  }

  lemma {:induction false} PropsErrorStays(buf: Str, pos: nat, i: nat, n: nat)
    requires pos <= |buf| && IsSlice(buf) && i <= n
    ensures ReadProps(buf, pos, i).Err? ==> ReadProps(buf, pos, n) == ReadProps(buf, pos, i)
    decreases n
  {
    hide ReadProp;
    if i == n {
    } else {
      PropsErrorStays(buf, pos, i, n - 1);
    }
  }
}
