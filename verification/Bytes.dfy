/** Bytes, Go strings and the integer widths the coder package works with. */
module Bytes {

  type Byte = x: int | 0 <= x < 256

  /** A Go string or byte slice: Go strings are arbitrary byte sequences. */
  type Str = seq<Byte>

  /** 2^64: every uint64 is below it, and uint64 addition wraps at it. */
  const U64: nat := 0x1_0000_0000_0000_0000

  /** 2^63: every Go int, hence every slice or map length, is below it. */
  const I64: nat := 0x8000_0000_0000_0000

  /** A byte slice that fits in memory as far as Go's int lengths allow. */
  predicate IsSlice(s: Str) { |s| < I64 }

  /** The bytes of a Go slice. */
  type Slice = s: Str | IsSlice(s)

  /** The map built by storing the pairs one after the other. */
  function ToMap<K, V>(ps: seq<(K, V)>): (m: map<K, V>)
    ensures |m| <= |ps|
  {
    if ps == [] then map[]
    else
      var last := ps[|ps| - 1];
      ToMap(ps[..|ps| - 1])[last.0 := last.1]
  }

  /**
   `ps` is one iteration order of the Go map `m`: it yields exactly the entries of
   `m`, and with only |m| pairs to do so it visits no key twice.
   */
  predicate Enumerates<K, V(==)>(ps: seq<(K, V)>, m: map<K, V>) {
    |ps| == |m| && ToMap(ps) == m
  }

  lemma {:induction false} ToMapKeys<K, V>(ps: seq<(K, V)>, i: nat)
    requires i < |ps|
    ensures ps[i].0 in ToMap(ps)
  {
    if i == |ps| - 1 {
    } else {
      ToMapKeys(ps[..|ps| - 1], i);
    }
  }

  /** An iteration order visits every key once, with its value. */
  lemma {:induction false} EnumerationIsExact<K, V>(ps: seq<(K, V)>, m: map<K, V>)
    requires Enumerates(ps, m)
    ensures forall i, j :: 0 <= i < j < |ps| ==> ps[i].0 != ps[j].0
    ensures forall i :: 0 <= i < |ps| ==> ps[i].0 in m && m[ps[i].0] == ps[i].1
  {
    if ps == [] {
    } else {
      var init, last := ps[..|ps| - 1], ps[|ps| - 1];
      assert |ToMap(init)| <= |init|;
      assert last.0 !in ToMap(init);
      EnumerationIsExact(init, ToMap(init));
      forall i | 0 <= i < |init| ensures ps[i].0 in ToMap(init) {
        ToMapKeys(init, i);
      }
      assert forall i :: 0 <= i < |init| ==> ps[i] == init[i];
    }
  }
}
