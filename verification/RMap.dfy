/**
 The atomic map with a separate counter of internal/safe/rmap.go. Every operation is
 one atomic step on the map, followed for some outcomes by a step on the counter;
 operations of different goroutines interleave between the two.
 */
module RMap {

  datatype Op<K, V> =
    | Store(key: K, value: V)      // Set and Swap
    | LoadOrStore(key: K, value: V) // GetOrSet
    | Delete(key: K)

  /** `pending` has, for each goroutine between its two steps, what it will add to the counter. */
  datatype State<K, V> = State(m: map<K, V>, count: int, pending: map<nat, int>)

  datatype Action<K, V> = MapStep(who: nat, op: Op<K, V>) | CountStep(who: nat)

  function Apply<K, V>(m: map<K, V>, op: Op<K, V>): map<K, V> {
    match op
    case Store(k, v) => m[k := v]
    case LoadOrStore(k, v) => if k in m then m else m[k := v]
    case Delete(k) => m - {k}
  }

  /** What the operation must still add to the counter; nothing when the key's presence did not change. */
  function Owed<K, V>(m: map<K, V>, op: Op<K, V>): int {
    if op.Delete? then if op.key in m then -1 else 0
    else if op.key in m then 0 else 1
  }

  ghost predicate Next<K, V>(s: State<K, V>, a: Action<K, V>, s': State<K, V>) {
    match a
    case MapStep(who, op) =>
      && who !in s.pending
      && var owed := Owed(s.m, op);
         s' == State(Apply(s.m, op), s.count, if owed == 0 then s.pending else s.pending[who := owed])
    case CountStep(who) =>
      who in s.pending && s' == State(s.m, s.count + s.pending[who], s.pending - {who})
  }

  /** The goroutines that still owe the given amount. */
  ghost function Owing(pending: map<nat, int>, amount: int): set<nat> {
    set who | who in pending && pending[who] == amount
  }

  /** The counter, corrected by what is pending, is the number of keys. */
  ghost predicate Inv<K, V>(s: State<K, V>) {
    && (forall who :: who in s.pending ==> s.pending[who] == 1 || s.pending[who] == -1)
    && s.count + |Owing(s.pending, 1)| - |Owing(s.pending, -1)| == |s.m|
  }

  lemma ApplySize<K, V>(m: map<K, V>, op: Op<K, V>)
    ensures |Apply(m, op)| == |m| + Owed(m, op)
  {
    if op.Delete? {
      assert (m - {op.key}).Keys == m.Keys - {op.key};
    } else {
      assert m[op.key := op.value].Keys == m.Keys + {op.key};
    }
  }

  lemma OwingAdd(pending: map<nat, int>, who: nat, owed: int, amount: int)
    requires who !in pending
    ensures |Owing(pending[who := owed], amount)| == |Owing(pending, amount)| + (if owed == amount then 1 else 0)
  {
    assert Owing(pending[who := owed], amount)
        == if owed == amount then Owing(pending, amount) + {who} else Owing(pending, amount);
  }

  /** A map step leaves behind a debt that accounts for the change in the number of keys. */
  lemma MapStepInv<K, V>(s: State<K, V>, who: nat, op: Op<K, V>)
    requires Inv(s) && who !in s.pending
    ensures var owed := Owed(s.m, op);
            Inv(State(Apply(s.m, op), s.count, if owed == 0 then s.pending else s.pending[who := owed]))
  {
    ApplySize(s.m, op);
    OwingAdd(s.pending, who, Owed(s.m, op), 1);
    OwingAdd(s.pending, who, Owed(s.m, op), -1);
    hide Owing, Apply;
  }

  /** A counter step pays the debt. */
  lemma CountStepInv<K, V>(s: State<K, V>, who: nat)
    requires Inv(s) && who in s.pending
    ensures Inv(State(s.m, s.count + s.pending[who], s.pending - {who}))
  {
    var owed := s.pending[who];
    var rest := s.pending - {who};
    assert rest[who := owed] == s.pending;
    OwingAdd(rest, who, owed, 1);
    OwingAdd(rest, who, owed, -1);
    hide Owing;
  }

  /** Both steps keep the corrected count equal to the number of keys. */
  lemma NextInv<K, V>(s: State<K, V>, a: Action<K, V>, s': State<K, V>)
    requires Inv(s) && Next(s, a, s')
    ensures Inv(s')
  {
    hide Inv, Apply, Owed;
    match a
    case MapStep(who, op) => MapStepInv(s, who, op);
    case CountStep(who) => CountStepInv(s, who);
  }

  ghost predicate Run<K(!new), V(!new)>(states: seq<State<K, V>>, actions: seq<Action<K, V>>) {
    && |states| == |actions| + 1
    && states[0] == State(map[], 0, map[])
    && forall i :: 0 <= i < |actions| ==> Next(states[i], actions[i], states[i + 1])
  }

  /**
   Counter conservation: in every interleaving, Len differs from the number of keys by
   exactly the increments minus the decrements still pending; it is exact at quiescence.
   */
  lemma {:induction false} LenIsConserved<K(!new), V(!new)>(
    states: seq<State<K, V>>, actions: seq<Action<K, V>>, i: nat)
    requires Run(states, actions) && i < |states|
    ensures Inv(states[i])
    ensures states[i].count == |states[i].m| <==> |Owing(states[i].pending, 1)| == |Owing(states[i].pending, -1)|
    ensures states[i].pending == map[] ==> states[i].count == |states[i].m|
  {
    hide Next;
    if i == 0 {
      assert Owing(states[0].pending, 1) == {} && Owing(states[0].pending, -1) == {};
    } else {
      LenIsConserved(states, actions, i - 1);
      NextInv(states[i - 1], actions[i - 1], states[i]);
    }
    assert states[i].pending == map[] ==> Owing(states[i].pending, 1) == {} && Owing(states[i].pending, -1) == {};
  }

  // ------------------------------------------------------- what the map holds

  /**
   What each operation does to the entries: Set and Swap store the value, GetOrSet
   stores it only under a key that is absent and else changes nothing, Delete removes
   the key, and no other key is touched.
   */
  lemma ApplyAt<K, V>(m: map<K, V>, op: Op<K, V>, k: K)
    ensures k != op.key ==> (k in Apply(m, op) <==> k in m) && (k in m ==> Apply(m, op)[k] == m[k])
    ensures op.Store? ==> op.key in Apply(m, op) && Apply(m, op)[op.key] == op.value
    ensures op.LoadOrStore? && op.key in m ==> Apply(m, op) == m
    ensures op.LoadOrStore? && op.key !in m ==> op.key in Apply(m, op) && Apply(m, op)[op.key] == op.value
    ensures op.Delete? ==> op.key !in Apply(m, op)
  {}

  /** The operations whose map step is among the actions, in that order. */
  ghost function Ops<K, V>(actions: seq<Action<K, V>>): seq<Op<K, V>> {
    if actions == [] then []
    else
      var last := actions[|actions| - 1];
      Ops(actions[..|actions| - 1]) + (if last.MapStep? then [last.op] else [])
  }

  /** Some operation has put the key there and none has deleted it since. */
  ghost predicate Present<K(!new), V(!new)>(ops: seq<Op<K, V>>, k: K) { exists i :: PutAt(ops, i, k) }

  ghost predicate PutAt<K(!new), V(!new)>(ops: seq<Op<K, V>>, i: int, k: K) {
    && 0 <= i < |ops| && !ops[i].Delete? && ops[i].key == k
    && forall j :: i < j < |ops| ==> ops[j] != Delete(k)
  }

  /** The i-th operation gives the key its value: a Set or Swap, or a GetOrSet that finds the key absent. */
  ghost predicate Gives<K(!new), V(!new)>(ops: seq<Op<K, V>>, i: int, k: K, v: V) {
    && 0 <= i < |ops|
    && (ops[i] == Store(k, v) || (ops[i] == LoadOrStore(k, v) && !Present(ops[..i], k)))
  }

  /** The i-th operation gives the key its value, and those on the key since then only look it up. */
  ghost predicate GivesLast<K(!new), V(!new)>(ops: seq<Op<K, V>>, i: int, k: K, v: V) {
    Gives(ops, i, k, v) && forall j :: i < j < |ops| && ops[j].key == k ==> ops[j].LoadOrStore?
  }

  /** The value the operations leave under the key. */
  ghost predicate Leaves<K(!new), V(!new)>(ops: seq<Op<K, V>>, k: K, v: V) { exists i :: GivesLast(ops, i, k, v) }

  lemma PresentSnoc<K(!new), V(!new)>(ops: seq<Op<K, V>>, o: Op<K, V>, k: K)
    ensures Present(ops + [o], k) <==> (o.key == k && !o.Delete?) || (o != Delete(k) && Present(ops, k))
  {
    var all := ops + [o];
    assert all[|ops|] == o && forall i :: 0 <= i < |ops| ==> all[i] == ops[i];
    if o.key == k && !o.Delete? {
      assert PutAt(all, |ops|, k);
    } else if o != Delete(k) && Present(ops, k) {
      var i :| PutAt(ops, i, k);
      assert PutAt(all, i, k);
    } else if Present(all, k) {
      var i :| PutAt(all, i, k);
      assert i < |ops|;
      assert PutAt(ops, i, k);
    }
  }

  lemma GivesSnoc<K(!new), V(!new)>(ops: seq<Op<K, V>>, o: Op<K, V>, k: K, v: V, i: int)
    requires i < |ops|
    ensures Gives(ops + [o], i, k, v) <==> Gives(ops, i, k, v)
  {
    hide Present;
    if 0 <= i {
      assert (ops + [o])[..i] == ops[..i];
    }
  }

  lemma LeavesSnoc<K(!new), V(!new)>(ops: seq<Op<K, V>>, o: Op<K, V>, k: K, v: V)
    ensures Leaves(ops + [o], k, v)
       <==> || o == Store(k, v) || (o == LoadOrStore(k, v) && !Present(ops, k))
            || ((o.key != k || o.LoadOrStore?) && Leaves(ops, k, v))
  {
    hide Present;
    var all := ops + [o];
    assert all[|ops|] == o && all[..|ops|] == ops && forall i :: 0 <= i < |ops| ==> all[i] == ops[i];
    if o == Store(k, v) || (o == LoadOrStore(k, v) && !Present(ops, k)) {
      assert GivesLast(all, |ops|, k, v);
    }
    if (o.key != k || o.LoadOrStore?) && Leaves(ops, k, v) {
      var i :| GivesLast(ops, i, k, v);
      GivesSnoc(ops, o, k, v, i);
      assert GivesLast(all, i, k, v);
    }
    if Leaves(all, k, v) {
      var i :| GivesLast(all, i, k, v);
      if i < |ops| {
        GivesSnoc(ops, o, k, v, i);
        assert GivesLast(ops, i, k, v);
      }
    }
  }

  /** The map is what the operations leave. */
  ghost predicate Reflects<K(!new), V(!new)>(m: map<K, V>, ops: seq<Op<K, V>>, k: K, v: V) {
    (k in m <==> Present(ops, k)) && (k in m && m[k] == v <==> Leaves(ops, k, v))
  }

  lemma ReflectsNext<K(!new), V(!new)>(m: map<K, V>, ops: seq<Op<K, V>>, o: Op<K, V>, k: K, v: V)
    requires Reflects(m, ops, k, v)
    ensures Reflects(Apply(m, o), ops + [o], k, v)
  {
    PresentSnoc(ops, o, k);
    LeavesSnoc(ops, o, k, v);
    ApplyAt(m, o, k);
    hide Present, Leaves;
  }

  /**
   In every interleaving the map holds a key exactly when some operation has put it
   there since its last Delete, and under it the value of the latest Set or Swap, or
   of the GetOrSet that found it absent.
   */
  lemma {:induction false} MapIsHistory<K(!new), V(!new)>(
    states: seq<State<K, V>>, actions: seq<Action<K, V>>, i: nat, k: K, v: V)
    requires Run(states, actions) && i < |states|
    ensures k in states[i].m <==> Present(Ops(actions[..i]), k)
    ensures k in states[i].m && states[i].m[k] == v <==> Leaves(Ops(actions[..i]), k, v)
  {
    hide Present, Leaves, Apply, Owed;
    if i == 0 {
      NothingPresent(Ops(actions[..0]), k, v);
    } else {
      MapIsHistory(states, actions, i - 1, k, v);
      assert actions[..i][..i - 1] == actions[..i - 1];
      assert Next(states[i - 1], actions[i - 1], states[i]);
      match actions[i - 1]
      case MapStep(_, op) => ReflectsNext(states[i - 1].m, Ops(actions[..i - 1]), op, k, v);
      case CountStep(_) => assert Ops(actions[..i]) == Ops(actions[..i - 1]);
    }
  }

  lemma NothingPresent<K(!new), V(!new)>(ops: seq<Op<K, V>>, k: K, v: V)
    requires ops == []
    ensures !Present(ops, k) && !Leaves(ops, k, v)
  {}
}
