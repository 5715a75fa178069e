/**
 The map of maps of internal/safe/keymap.go, and the three-level indexes the broker
 keeps: node → KeyMap. An index is "tidy" when no key maps to an empty inner map.
 */
module KeyMap {
  import opened Bytes
  import opened Registry

  type Nested<T> = map<Str, map<Str, T>>
  type Index<T> = map<Node, Nested<T>>

  /** GetOrSet of the inner map, then Set in it. */
  function SetKey<T>(m: Nested<T>, key: Str, field: Str, value: T): Nested<T> {
    var v := if key in m then m[key] else map[];
    m[key := v[field := value]]
  }

  /** Delete in the inner map; the inner map goes when it is left empty. */
  function DeleteKey<T>(m: Nested<T>, key: Str, field: Str): Nested<T> {
    if key !in m then m
    else
      var v := m[key] - {field};
      if |v| == 0 then m - {key} else m[key := v]
  }

  ghost predicate TidyNested<T>(m: Nested<T>) { forall key :: key in m ==> m[key] != map[] }

  ghost predicate Tidy<T>(ix: Index<T>) { forall n :: n in ix ==> TidyNested(ix[n]) }

  predicate Has<T>(ix: Index<T>, k: Key) {
    k.node in ix && k.outer in ix[k.node] && k.inner in ix[k.node][k.outer]
  }

  function At<T>(ix: Index<T>, k: Key): T
    requires Has(ix, k)
  {
    ix[k.node][k.outer][k.inner]
  }

  /** What RangeKey(key) and Get(key) on the node's KeyMap see. */
  function FieldsOf<T>(ix: Index<T>, n: Node, key: Str): map<Str, T>
    requires n in ix
  {
    if key in ix[n] then ix[n][key] else map[]
  }

  ghost predicate AreLeaves<T>(r: map<Key, T>, ix: Index<T>) {
    && (forall k :: k in r <==> Has(ix, k))
    && (forall k :: k in r ==> r[k] == At(ix, k))
  }

  /** The leaves of an index. */
  ghost function Leaves<T>(ix: Index<T>): (r: map<Key, T>)
    ensures AreLeaves(r, ix)
  {
    var keys := set n, o, i | n in ix && o in ix[n] && i in ix[n][o] :: Key(n, o, i);
    assert forall k :: Has(ix, k) ==> k == Key(k.node, k.outer, k.inner);
    map k | k in keys :: At(ix, k)
  }

  /** A tidy index is determined by its nodes and its leaves: nothing else can differ. */
  lemma LeavesDetermine<T>(a: Index<T>, b: Index<T>)
    requires Tidy(a) && Tidy(b) && a.Keys == b.Keys && Leaves(a) == Leaves(b)
    ensures a == b
  {
    forall n | n in a ensures a[n] == b[n] {
      NestedDetermined(a, b, n);
      NestedDetermined(b, a, n);
      forall o | o in a[n] ensures o in b[n] && a[n][o] == b[n][o] {
        forall i ensures i in a[n][o] <==> i in b[n][o] {
          assert Has(a, Key(n, o, i)) <==> Key(n, o, i) in Leaves(a);
          assert Has(b, Key(n, o, i)) <==> Key(n, o, i) in Leaves(b);
        }
        forall i | i in a[n][o] ensures a[n][o][i] == b[n][o][i] {
          assert Leaves(a)[Key(n, o, i)] == Leaves(b)[Key(n, o, i)];
        }
      }
    }
  }

  lemma NestedDetermined<T>(a: Index<T>, b: Index<T>, n: Node)
    requires Tidy(a) && Leaves(a) == Leaves(b) && n in a && n in b
    ensures a[n].Keys <= b[n].Keys
  {
    forall o | o in a[n] ensures o in b[n] {
      assert TidyNested(a[n]);
      assert a[n][o] != map[];
      var i :| i in a[n][o];
      assert Has(a, Key(n, o, i));
      assert Key(n, o, i) in Leaves(b);
    }
  }

  /** The field is present under the key. */
  predicate HasKey<T>(m: Nested<T>, key: Str, field: Str) { key in m && field in m[key] }

  lemma SetKeyEffect<T>(m: Nested<T>, key: Str, field: Str, value: T)
    requires TidyNested(m)
    ensures var m' := SetKey(m, key, field, value);
            && TidyNested(m')
            && (forall o, i :: HasKey(m', o, i) <==> (o == key && i == field) || HasKey(m, o, i))
            && (forall o, i :: HasKey(m', o, i) ==>
                  m'[o][i] == if o == key && i == field then value else m[o][i])
  {
    var m' := SetKey(m, key, field, value);
    assert field in m'[key];
  }

  lemma DeleteKeyEffect<T>(m: Nested<T>, key: Str, field: Str)
    requires TidyNested(m)
    ensures var m' := DeleteKey(m, key, field);
            && TidyNested(m')
            && (forall o, i :: HasKey(m', o, i) <==> !(o == key && i == field) && HasKey(m, o, i))
            && (forall o, i :: HasKey(m', o, i) ==> m'[o][i] == m[o][i])
  {
    if key in m {
      var v := m[key] - {field};
      assert |v| == 0 <==> v == map[];
      assert forall i :: i in v <==> i in m[key] && i != field;
    }
  }

  /** An index whose leaves are those of `m`, spelled out. */
  lemma LeavesAre<T>(ix: Index<T>, m: map<Key, T>)
    requires forall k :: Has(ix, k) <==> k in m
    requires forall k :: k in m ==> At(ix, k) == m[k]
    ensures Leaves(ix) == m
  {}

  lemma HasNested<T>(ix: Index<T>, k: Key)
    ensures Has(ix, k) <==> k.node in ix && HasKey(ix[k.node], k.outer, k.inner)
  {}

  /** Setting a key adds or overwrites exactly one leaf. */
  lemma SetKeyLeaves<T>(ix: Index<T>, k: Key, value: T)
    requires Tidy(ix) && k.node in ix
    ensures var ix' := ix[k.node := SetKey(ix[k.node], k.outer, k.inner, value)];
            Tidy(ix') && ix'.Keys == ix.Keys && Leaves(ix') == Leaves(ix)[k := value]
  {
    SetKeyEffect(ix[k.node], k.outer, k.inner, value);
    hide SetKey;
    var ix' := ix[k.node := SetKey(ix[k.node], k.outer, k.inner, value)];
    var m := Leaves(ix)[k := value];
    forall x ensures Has(ix', x) <==> x in m {
      HasNested(ix', x);
      HasNested(ix, x);
    }
    forall x | x in m ensures At(ix', x) == m[x] {
      HasNested(ix', x);
      HasNested(ix, x);
    }
    LeavesAre(ix', m);
  }

  /** Deleting a key removes exactly one leaf, and no empty inner map stays behind. */
  lemma DeleteKeyLeaves<T>(ix: Index<T>, k: Key)
    requires Tidy(ix) && k.node in ix
    ensures var ix' := ix[k.node := DeleteKey(ix[k.node], k.outer, k.inner)];
            Tidy(ix') && ix'.Keys == ix.Keys && Leaves(ix') == Leaves(ix) - {k}
  {
    DeleteKeyEffect(ix[k.node], k.outer, k.inner);
    hide DeleteKey;
    var ix' := ix[k.node := DeleteKey(ix[k.node], k.outer, k.inner)];
    var m := Leaves(ix) - {k};
    forall x ensures Has(ix', x) <==> x in m {
      HasNested(ix', x);
      HasNested(ix, x);
    }
    forall x | x in m ensures At(ix', x) == m[x] {
      HasNested(ix', x);
      HasNested(ix, x);
    }
    LeavesAre(ix', m);
  }

  /** GetOrSet of a node: an empty KeyMap when it is new, else no change. */
  function Ensure<T>(ix: Index<T>, n: Node): Index<T> {
    if n in ix then ix else ix[n := map[]]
  }

  lemma EnsureLeaves<T>(ix: Index<T>, n: Node)
    requires Tidy(ix)
    ensures var ix' := Ensure(ix, n);
            Tidy(ix') && ix'.Keys == ix.Keys + {n} && Leaves(ix') == Leaves(ix)
  {
    var ix' := Ensure(ix, n);
    LeavesAre(ix', Leaves(ix));
  }

  lemma RemoveLeaves<T>(ix: Index<T>, n: Node)
    requires Tidy(ix)
    ensures var ix' := ix - {n};
            Tidy(ix') && ix'.Keys == ix.Keys - {n}
            && Leaves(ix') == map k | k in Leaves(ix) && k.node != n :: Leaves(ix)[k]
  {
    var ix' := ix - {n};
    LeavesAre(ix', map k | k in Leaves(ix) && k.node != n :: Leaves(ix)[k]);
  }

  /** Under a tidy index a key is listed exactly when it has a field: key counts count live keys. */
  lemma KeysAreLive<T>(ix: Index<T>, n: Node, key: Str)
    requires Tidy(ix) && n in ix
    ensures key in ix[n] <==> exists field :: Key(n, key, field) in Leaves(ix)
  {
    if key in ix[n] {
      assert TidyNested(ix[n]) && ix[n][key] != map[];
      var field :| field in ix[n][key];
      assert Has(ix, Key(n, key, field));
    }
    if field :| Key(n, key, field) in Leaves(ix) {
      assert Has(ix, Key(n, key, field));
    }
  }

  ghost function NestInner<T>(leaves: map<Key, T>, n: Node, o: Str): map<Str, T> {
    var inner := set k | k in leaves && k.node == n && k.outer == o :: k.inner;
    map i | i in inner && Key(n, o, i) in leaves :: leaves[Key(n, o, i)]
  }

  ghost function NestOuter<T>(leaves: map<Key, T>, n: Node): Nested<T> {
    var outer := set k | k in leaves && k.node == n :: k.outer;
    map o | o in outer :: NestInner(leaves, n, o)
  }

  /** The nested maps with the given nodes and leaves. */
  ghost function Nest<T>(nodes: set<Node>, leaves: map<Key, T>): Index<T> {
    map n | n in nodes :: NestOuter(leaves, n)
  }

  lemma NestHas<T>(nodes: set<Node>, leaves: map<Key, T>, k: Key)
    requires forall x :: x in leaves ==> x.node in nodes
    ensures Has(Nest(nodes, leaves), k) <==> k in leaves
    ensures k in leaves ==> At(Nest(nodes, leaves), k) == leaves[k]
  {
    assert k == Key(k.node, k.outer, k.inner);
  }

  /** Every set of leaves on the given nodes has tidy nested maps. */
  lemma NestIsTidy<T>(nodes: set<Node>, leaves: map<Key, T>)
    requires forall x :: x in leaves ==> x.node in nodes
    ensures var ix := Nest(nodes, leaves);
            Tidy(ix) && ix.Keys == nodes && Leaves(ix) == leaves
  {
    var ix := Nest(nodes, leaves);
    forall n, o | n in ix && o in ix[n] ensures ix[n][o] != map[] {
      var k :| k in leaves && k.node == n && k.outer == o;
      NestHas(nodes, leaves, k);
      assert k.inner in ix[n][o];
    }
    forall k ensures Has(ix, k) <==> k in leaves
      ensures k in leaves ==> At(ix, k) == leaves[k]
    {
      NestHas(nodes, leaves, k);
    }
    hide Nest;
    LeavesAre(ix, leaves);
  }

  lemma SetKeySize<T>(m: Nested<T>, key: Str, field: Str, value: T)
    requires TidyNested(m)
    ensures TidyNested(SetKey(m, key, field, value))
    ensures |SetKey(m, key, field, value)| == |m| + (if key in m then 0 else 1)
  {
    SetKeyEffect(m, key, field, value);
    assert SetKey(m, key, field, value).Keys == m.Keys + {key};
  }

  /** GetOrSet of the inner map and then the update in it are one SetKey. */
  lemma SetKeySteps<T>(m: Nested<T>, key: Str, field: Str, value: T)
    ensures key in m ==> m[key := m[key][field := value]] == SetKey(m, key, field, value)
    ensures key !in m ==> m[key := map[]][key := map[field := value]] == SetKey(m, key, field, value)
  {}

  lemma DeleteKeySize<T>(m: Nested<T>, key: Str, field: Str)
    requires TidyNested(m)
    ensures TidyNested(DeleteKey(m, key, field))
    ensures |DeleteKey(m, key, field)|
         == |m| - (if key in m && |m[key] - {field}| == 0 then 1 else 0)
  {
    DeleteKeyEffect(m, key, field);
    if key in m {
      assert (m - {key}).Keys == m.Keys - {key};
      assert m[key := m[key] - {field}].Keys == m.Keys;
    }
  }

  /** A KeyMap object: the outer map is an RMap, so it carries a counter of its own beside the map. */
  class KeyMap<T> {
    var m: Nested<T>
    var l: int

    /** The counter is the number of keys. */
    ghost predicate Counted()
      reads this
    {
      l == |m|
    }

    /** Besides, no inner map is empty. */
    ghost predicate Valid()
      reads this
    {
      Counted() && TidyNested(m)
    }

    constructor ()
      ensures Valid() && m == map[]
    {
      m, l := map[], 0;
    }

    method SetKeyIn(key: Str, field: Str, value: T)
      requires Valid()
      modifies this
      ensures Valid() && m == SetKey(old(m), key, field, value)
    {
      hide SetKey, TidyNested;
      SetKeySize(m, key, field, value);
      SetKeySteps(m, key, field, value);
      if key !in m {
        m := m[key := map[]];
        l := l + 1;
      }
      m := m[key := m[key][field := value]];
    }

    /** Set: Swap of the whole inner map, with its counter step. */
    method Set(key: Str, value: map<Str, T>)
      requires Counted()
      modifies this
      ensures Counted() && m == old(m)[key := value]
    {
      assert m[key := value].Keys == m.Keys + {key};
      if key !in m {
        l := l + 1;
      }
      m := m[key := value];
    }

    /** The loop of recoverFromSnapshot over one node's keys, in any order. */
    method Restore(dump: Nested<T>)
      requires Counted() && m == map[]
      modifies this
      ensures Counted() && m == dump
      ensures TidyNested(dump) ==> Valid()
    {
      hide Counted;
      var todo := dump.Keys;
      while todo != {}
        invariant Counted() && todo <= dump.Keys && m.Keys == dump.Keys - todo
        invariant forall key :: key in m ==> m[key] == dump[key]
      {
        var key :| key in todo;
        Set(key, dump[key]);
        todo := todo - {key};
      }
    }

    method DeleteKeyIn(key: Str, field: Str)
      requires Valid()
      modifies this
      ensures Valid() && m == DeleteKey(old(m), key, field)
    {
      DeleteKeySize(m, key, field);
      hide TidyNested;
      if key in m {
        m := m[key := m[key] - {field}];
        if |m[key]| == 0 {
          m := m - {key};
          l := l - 1;
          assert m == old(m) - {key};
        }
      }
    }

    /** Len: the number of keys that have at least one field. */
    method Len() returns (n: int)
      requires Valid()
      ensures n == |m| == |set key | key in m && m[key] != map[]|
    {
      assert (set key | key in m && m[key] != map[]) == m.Keys;
      n := l;
    }
  }
}
