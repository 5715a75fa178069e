/**
 Replicas of the registry over one committed log: applying batches, taking snapshots
 and compacting, and overwriting a replica from another's snapshot, as in
 cluster/cluster_raft.go. The committed log and the contract of the in-memory Raft
 storage are given; Raft itself is not modelled.
 */
module Cluster {
  import opened Bytes
  import opened Registry
  import O = Operations
  import B = Broker

  // ---------------------------------------------------------- log and storage

  /** What an entry carries. A normal entry may be empty; configuration entries are taken to decode. */
  datatype Body = Normal(data: Slice) | AddNode(id: Node) | DropNode(id: Node)

  datatype Entry = Entry(index: nat, body: Body)

  /** Applying the entry makes the decoder panic. */
  predicate Faults(b: Body) { b.Normal? && b.data != [] && O.DecodeOp(b.data) == O.Fault }

  /** No entry makes the decoder panic. */
  ghost predicate Clean(log: seq<Body>) { forall i :: 0 <= i < |log| ==> !Faults(log[i]) }

  ghost function Effect(t: Table, b: Body): Table {
    match b
    case Normal(data) => O.Effect(t, data)
    case AddNode(_) => t
    case DropNode(n) => Step(t, RemoveNode(n))
  }

  ghost function Fold(t: Table, log: seq<Body>): Table {
    if log == [] then t else Effect(Fold(t, log[..|log| - 1]), log[|log| - 1])
  }

  /** The registry a log determines. */
  ghost function Meaning(log: seq<Body>): Table { Fold(EMPTY, log) }

  lemma {:induction false} FoldAppend(t: Table, a: seq<Body>, b: seq<Body>)
    ensures Fold(t, a + b) == Fold(Fold(t, a), b)
    decreases |b|
  {
    hide Effect;
    if b == [] {
      assert a + b == a;
    } else {
      var init := b[..|b| - 1];
      FoldAppend(t, a, init);
      assert (a + b)[..|a + b| - 1] == a + init;
    }
  }

  function Bodies(entries: seq<Entry>): (r: seq<Body>)
    ensures |r| == |entries|
  {
    if entries == [] then [] else Bodies(entries[..|entries| - 1]) + [entries[|entries| - 1].body]
  }

  lemma FoldStart(t: Table, entries: seq<Entry>)
    ensures Fold(t, Bodies(entries[..0])) == t
  {}

  lemma FoldEntry(t: Table, entries: seq<Entry>, k: nat)
    requires k < |entries|
    ensures Fold(t, Bodies(entries[..k + 1])) == Effect(Fold(t, Bodies(entries[..k])), entries[k].body)
  {
    hide Effect;
    assert entries[..k + 1][..k] == entries[..k];
    assert Bodies(entries[..k + 1])[..k] == Bodies(entries[..k]);
  }

  /** The in-memory storage: its snapshot, the index up to which entries are dropped, and the last index. */
  datatype Storage = Storage(snapIndex: nat, snapData: B.Indexes, offset: nat, last: nat)

  datatype StorageError = SnapOutOfDate | Compacted | Panic

  datatype Stored = Done(store: Storage) | Failed(error: StorageError)

  function CreateSnapshot(s: Storage, i: nat, data: B.Indexes): Stored {
    if i <= s.snapIndex then Failed(SnapOutOfDate)
    else if i > s.last then Failed(Panic)
    else Done(s.(snapIndex := i, snapData := data))
  }

  function Compact(s: Storage, i: nat): Stored {
    if i <= s.offset then Failed(Compacted)
    else if i > s.last then Failed(Panic)
    else Done(s.(offset := i))
  }

  function StoreSnapshot(s: Storage, i: nat, data: B.Indexes): Stored {
    if s.snapIndex >= i then Failed(SnapOutOfDate) else Done(Storage(i, data, i, i))
  }

  // --------------------------------------------------------------- one replica

  datatype Replica = Replica(ix: B.Indexes, applied: nat, snapIndex: nat, store: Storage)

  const FRESH := Replica(B.NO_ENTRIES, 0, 0, Storage(0, B.NO_ENTRIES, 0, 0))

  /** uint64 subtraction. */
  function Sub64(a: nat, b: nat): nat
    requires b <= a + U64
  {
    if b <= a then a - b else a + U64 - b
  }

  /** How attemptSnapshot ends; `Uncompacted` is its tolerated ErrCompacted branch. */
  datatype Attempt = Skipped | Taken | Uncompacted | Panicked

  const KEEP: nat := 1024

  function Attempted(r: Replica): (Replica, Attempt)
    requires r.snapIndex <= r.applied + U64
  {
    if Sub64(r.applied, r.snapIndex) <= KEEP then (r, Skipped)
    else
      match CreateSnapshot(r.store, r.applied, r.ix)
      case Failed(_) => (r, Panicked)
      case Done(s1) =>
        var r1 := r.(snapIndex := r.applied, store := s1);
        match Compact(s1, if r.applied > KEEP then r.applied - KEEP else 1)
        case Failed(Compacted) => (r1, Uncompacted)
        case Failed(_) => (r1, Panicked)
        case Done(s2) => (r1.(store := s2), Taken)
  }

  /** The raft loop hands a snapshot to the storage and then to applySnapshot, which panics on an old one. */
  function Installed(r: Replica, index: nat, data: B.Indexes): (Replica, bool) {
    var stored := StoreSnapshot(r.store, index, data);
    var r1 := if stored.Done? then r.(store := stored.store) else r;
    if index <= r.applied then (r1, true)
    else (r1.(ix := data, snapIndex := index, applied := index), false)
  }

  class Cluster {
    const broker: B.Broker
    var appliedIndex: nat
    var snapshotIndex: nat
    var storage: Storage

    constructor (b: B.Broker)
      requires b.Valid() && b.View() == B.NO_ENTRIES
      ensures broker == b && View() == FRESH
    {
      broker := b;
      appliedIndex, snapshotIndex := 0, 0;
      storage := Storage(0, B.NO_ENTRIES, 0, 0);
    }

    ghost function View(): Replica
      reads this, broker
    {
      Replica(broker.View(), appliedIndex, snapshotIndex, storage)
    }

    /** One turn of applyEntries' loop. */
    method ApplyEntry(body: Body) returns (faulted: bool)
      requires broker.Valid()
      modifies broker
      ensures broker.Valid() && broker.Entries() == Effect(old(broker.Entries()), body)
      ensures faulted <==> Faults(body)
    {
      hide Step, O.DecodeOp;
      faulted := false;
      match body
      case Normal(data) =>
        if |data| > 0 {
          faulted := O.ApplyRaftOp(broker, data);
        }
      case AddNode(_) =>
      case DropNode(n) => broker.ApplyRemoveNode(n);
    }

    /** applyEntries: the loop stops where the process would, at an entry that makes the decoder panic. */
    method ApplyEntries(entries: seq<Entry>) returns (faulted: bool)
      requires broker.Valid() && entries != []
      modifies this`appliedIndex, broker
      ensures broker.Valid()
      ensures faulted <==> exists i :: 0 <= i < |entries| && Faults(entries[i].body)
      ensures !faulted ==> broker.Entries() == Fold(old(broker.Entries()), Bodies(entries))
      ensures appliedIndex == if faulted then old(appliedIndex) else entries[|entries| - 1].index
      ensures !faulted && appliedIndex == old(appliedIndex) + |entries| ==>
                Advances(old(View()), View(), Bodies(entries))
    {
      hide *;
      ghost var t, start := broker.Entries(), View();
      ViewIsBroker();
      FoldStart(t, entries);
      for k := 0 to |entries|
        invariant broker.Valid() && appliedIndex == old(appliedIndex)
        invariant forall i :: 0 <= i < k ==> !Faults(entries[i].body)
        invariant broker.Entries() == Fold(t, Bodies(entries[..k]))
      {
        FoldEntry(t, entries, k);
        faulted := ApplyEntry(entries[k].body);
        if faulted {
          return;
        }
      }
      assert entries[..|entries|] == entries;
      appliedIndex := entries[|entries| - 1].index;
      faulted := false;
      ViewIsBroker();
      Advanced(start, View(), Bodies(entries));
    }

    lemma ViewIsBroker()
      ensures View() == Replica(broker.View(), appliedIndex, snapshotIndex, storage)
      ensures broker.Valid() <==> B.TidyAll(View().ix)
      ensures broker.Entries() == B.TableOf(View().ix)
    {}

    method AttemptSnapshot() returns (outcome: Attempt)
      requires broker.Valid() && snapshotIndex <= appliedIndex + U64
      modifies this`snapshotIndex, this`storage
      ensures broker.Valid() && (View(), outcome) == Attempted(old(View()))
    {
      if Sub64(appliedIndex, snapshotIndex) <= KEEP {
        return Skipped;
      }
      var data := broker.MakeSnapshot();
      var created := CreateSnapshot(storage, appliedIndex, data);
      if created.Failed? {
        return Panicked;
      }
      storage := created.store;
      snapshotIndex := appliedIndex;
      var compactIndex := 1;
      if appliedIndex > KEEP {
        compactIndex := appliedIndex - KEEP;
      }
      var compacted := Compact(storage, compactIndex);
      if compacted.Failed? {
        return if compacted.error == Compacted then Uncompacted else Panicked;
      }
      storage := compacted.store;
      outcome := Taken;
    }

    method InstallSnapshot(index: nat, data: B.Indexes) returns (panicked: bool)
      requires broker.Valid() && B.TidyAll(data)
      modifies this, broker
      ensures broker.Valid() && (View(), panicked) == Installed(old(View()), index, data)
    {
      var stored := StoreSnapshot(storage, index, data);
      if stored.Done? {
        storage := stored.store;
      }
      if index <= appliedIndex {
        return true;
      }
      broker.RecoverFromSnapshot(data);
      snapshotIndex := index;
      appliedIndex := index;
      panicked := false;
    }
  }

  // ------------------------------------------------------------ runs of a cluster

  /** A snapshot in flight between replicas. */
  datatype Snap = Snap(index: nat, data: B.Indexes)

  /** The processes that run are in `replicas`; those that panicked and have not been restarted in `crashed`. */
  datatype System = System(log: seq<Body>, replicas: map<nat, Replica>, wire: set<Snap>, crashed: set<nat>)

  datatype Action =
    | Commit(bodies: seq<Body>)          // the committed log grows, by any bytes
    | Boot(id: nat)                      // a process starts with empty memory
    | Append(id: nat, last: nat)         // the storage takes entries, possibly overwriting uncommitted ones
    | Apply(id: nat, count: nat)         // applyEntries of the next committed batch
    | Try(id: nat)                       // attemptSnapshot
    | Send(id: nat)                      // the stored snapshot is sent
    | Install(id: nat, snap: Snap)       // a received snapshot, new or old, goes to the raft loop

  ghost predicate Init(s: System) { s == System([], map[], {}, {}) }

  /** What ApplyEntries guarantees of the indexes; they are then determined (TableDetermines). */
  ghost predicate Advances(r: Replica, r': Replica, batch: seq<Body>) {
    && B.TidyAll(r'.ix) && B.TableOf(r'.ix) == Fold(B.TableOf(r.ix), batch)
    && r' == r.(ix := r'.ix, applied := r.applied + |batch|)
  }

  lemma Advanced(r: Replica, r': Replica, batch: seq<Body>)
    requires B.TidyAll(r'.ix) && B.TableOf(r'.ix) == Fold(B.TableOf(r.ix), batch)
    requires r' == r.(ix := r'.ix, applied := r'.applied)
    ensures r'.applied == r.applied + |batch| ==> Advances(r, r', batch)
  {}

  /** The replica goes on as r. */
  function Lives(s: System, id: nat, r: Replica): System { s.(replicas := s.replicas[id := r]) }

  /** The replica's process panics, and its memory, storage included, is gone. */
  function Dies(s: System, id: nat): System {
    s.(replicas := s.replicas - {id}, crashed := s.crashed + {id})
  }

  /** The committed entries that come next for a replica; fewer when the log ends. */
  function Batch(s: System, id: nat, count: nat): seq<Body>
    requires id in s.replicas
  {
    var from := s.replicas[id].applied;
    if from + count <= |s.log| then s.log[from..from + count] else []
  }

  ghost predicate Next(s: System, a: Action, s': System) {
    match a
    case Commit(bodies) => s' == s.(log := s.log + bodies)
    case Boot(id) => s' == Lives(s, id, FRESH).(crashed := s.crashed - {id})
    case Append(id, last) =>
      && id in s.replicas && last >= s.replicas[id].applied
      && s' == Lives(s, id, s.replicas[id].(store := s.replicas[id].store.(last := last)))
    case Apply(id, count) =>
      && id in s.replicas && count > 0
      && var r := s.replicas[id];
         && r.applied + count <= |s.log| && r.applied + count <= r.store.last
         && var batch := Batch(s, id, count);
            if !Clean(batch) then s' == Dies(s, id)
            else id in s'.replicas && Advances(r, s'.replicas[id], batch) && s' == Lives(s, id, s'.replicas[id])
    case Try(id) =>
      && id in s.replicas && s.replicas[id].snapIndex <= s.replicas[id].applied + U64
      && var (r, outcome) := Attempted(s.replicas[id]);
         s' == if outcome == Panicked then Dies(s, id) else Lives(s, id, r)
    case Send(id) =>
      && id in s.replicas && s.replicas[id].store.snapIndex > 0
      && s' == s.(wire := s.wire + {Snap(s.replicas[id].store.snapIndex, s.replicas[id].store.snapData)})
    case Install(id, snap) =>
      && id in s.replicas && snap in s.wire
      && var (r, panicked) := Installed(s.replicas[id], snap.index, snap.data);
         s' == if panicked then Dies(s, id) else Lives(s, id, r)
  }

  /** The snapshot is the registry of the log up to its index, which the decoder gets through. */
  ghost predicate GoodSnap(log: seq<Body>, snap: Snap) {
    && 0 < snap.index <= |log| && Clean(log[..snap.index])
    && B.TidyAll(snap.data) && B.TableOf(snap.data) == Meaning(log[..snap.index])
  }

  ghost predicate GoodReplica(log: seq<Body>, r: Replica) {
    && r.applied <= |log| && Clean(log[..r.applied])
    && B.TidyAll(r.ix) && B.TableOf(r.ix) == Meaning(log[..r.applied])
    && r.store.snapIndex == r.snapIndex
    && (r.snapIndex > 0 ==> GoodSnap(log, Snap(r.snapIndex, r.store.snapData)))
    && r.store.offset <= r.snapIndex <= r.applied <= r.store.last
    && (r.snapIndex == r.store.offset || r.snapIndex == r.store.offset + KEEP)
  }

  ghost predicate Good(s: System) {
    && s.crashed !! s.replicas.Keys
    && (forall id :: id in s.replicas ==> GoodReplica(s.log, s.replicas[id]))
    && (forall snap :: snap in s.wire ==> GoodSnap(s.log, snap))
  }

  lemma GoodSnapGrows(log: seq<Body>, more: seq<Body>, snap: Snap)
    requires GoodSnap(log, snap)
    ensures GoodSnap(log + more, snap)
  {
    assert (log + more)[..snap.index] == log[..snap.index];
  }

  lemma GoodReplicaGrows(log: seq<Body>, more: seq<Body>, r: Replica)
    requires GoodReplica(log, r)
    ensures GoodReplica(log + more, r)
  {
    assert (log + more)[..r.applied] == log[..r.applied];
    hide GoodSnap, Clean;
    if r.snapIndex > 0 {
      GoodSnapGrows(log, more, Snap(r.snapIndex, r.store.snapData));
    }
  }

  lemma FreshIsGood(log: seq<Body>)
    ensures GoodReplica(log, FRESH)
  {
    B.EmptyTable();
    assert log[..0] == [];
  }

  lemma CleanAppend(a: seq<Body>, b: seq<Body>)
    requires Clean(a) && Clean(b)
    ensures Clean(a + b)
  {
    hide Faults;
  }

  lemma ApplyIsGood(log: seq<Body>, r: Replica, r': Replica, count: nat)
    requires GoodReplica(log, r) && r.applied + count <= |log| && r.applied + count <= r.store.last
    requires Clean(log[r.applied..r.applied + count])
    requires Advances(r, r', log[r.applied..r.applied + count])
    ensures GoodReplica(log, r')
  {
    hide B.TidyAll, B.TableOf, Fold, GoodSnap, Clean;
    var before, batch := log[..r.applied], log[r.applied..r.applied + count];
    FoldAppend(EMPTY, before, batch);
    CleanAppend(before, batch);
    assert before + batch == log[..r.applied + count];
  }

  /**
   attemptSnapshot on a good replica: its subtraction does not underflow, it neither
   panics nor finds the log already compacted, and each compaction point is larger
   than the one before.
   */
  lemma AttemptIsGood(log: seq<Body>, r: Replica)
    requires GoodReplica(log, r)
    ensures Sub64(r.applied, r.snapIndex) == r.applied - r.snapIndex
    ensures var (r', outcome) := Attempted(r);
            && GoodReplica(log, r')
            && (outcome == Skipped || outcome == Taken)
            && (outcome == Taken <==> r.applied - r.snapIndex > 1024)
            && (outcome == Skipped ==> r' == r)
            && (outcome == Taken ==> r.store.offset < r'.store.offset == r.applied - 1024 && r'.snapIndex == r.applied)
            && r'.applied == r.applied && r'.ix == r.ix && r'.store.last == r.store.last
  {
    hide B.TidyAll, B.TableOf, Meaning, Clean;
  }

  /** A received snapshot makes the replica panic exactly when it is not newer, and else brings it to the snapshot. */
  lemma InstallIsGood(log: seq<Body>, r: Replica, snap: Snap)
    requires GoodReplica(log, r) && GoodSnap(log, snap)
    ensures var (r', panicked) := Installed(r, snap.index, snap.data);
            && (panicked <==> snap.index <= r.applied)
            && (!panicked ==>
                  && GoodReplica(log, r')
                  && r' == Replica(snap.data, snap.index, snap.index,
                                   Storage(snap.index, snap.data, snap.index, snap.index)))
  {
    hide B.TidyAll, B.TableOf, Meaning, Clean;
  }

  lemma AppendIsGood(log: seq<Body>, r: Replica, last: nat)
    requires GoodReplica(log, r) && last >= r.applied
    ensures GoodReplica(log, r.(store := r.store.(last := last)))
  {}

  lemma SendIsGood(log: seq<Body>, r: Replica)
    requires GoodReplica(log, r) && r.store.snapIndex > 0
    ensures GoodSnap(log, Snap(r.store.snapIndex, r.store.snapData))
  {}

  lemma CommitIsGood(s: System, bodies: seq<Body>)
    requires Good(s)
    ensures Good(s.(log := s.log + bodies))
  {
    hide GoodReplica, GoodSnap;
    forall id | id in s.replicas ensures GoodReplica(s.log + bodies, s.replicas[id]) {
      GoodReplicaGrows(s.log, bodies, s.replicas[id]);
    }
    forall snap | snap in s.wire ensures GoodSnap(s.log + bodies, snap) {
      GoodSnapGrows(s.log, bodies, snap);
    }
  }

  /** Every step keeps every running replica, stored snapshot and snapshot in flight in agreement with the log. */
  lemma NextIsGood(s: System, a: Action, s': System)
    requires Good(s) && Next(s, a, s')
    ensures Good(s') && s.log <= s'.log
  {
    hide GoodReplica, GoodSnap, Attempted, Installed, Advances, Clean;
    match a
    case Commit(bodies) => CommitIsGood(s, bodies);
    case Boot(id) => FreshIsGood(s.log);
    case Append(id, last) => AppendIsGood(s.log, s.replicas[id], last);
    case Apply(id, count) =>
      if Clean(Batch(s, id, count)) { ApplyIsGood(s.log, s.replicas[id], s'.replicas[id], count); }
    case Try(id) => AttemptIsGood(s.log, s.replicas[id]);
    case Send(id) => SendIsGood(s.log, s.replicas[id]);
    case Install(id, snap) => InstallIsGood(s.log, s.replicas[id], snap);
  }

  /** A run: states joined by actions, from the initial one. */
  ghost predicate Run(states: seq<System>, actions: seq<Action>) {
    && |states| == |actions| + 1
    && Init(states[0])
    && forall i :: 0 <= i < |actions| ==> Next(states[i], actions[i], states[i + 1])
  }

  /** All states of all runs are good, and the log only grows. */
  lemma {:induction false} RunsAreGood(states: seq<System>, actions: seq<Action>, i: nat, j: nat)
    requires Run(states, actions) && i <= j < |states|
    ensures Good(states[j]) && states[i].log <= states[j].log
    decreases j
  {
    hide Next, GoodReplica, GoodSnap;
    if j == 0 {
    } else {
      RunsAreGood(states, actions, if i < j then i else j - 1, j - 1);
      NextIsGood(states[j - 1], actions[j - 1], states[j]);
    }
  }

  /**
   Replica agreement: in every run, two running replicas that have applied the same
   number of entries, at the same or at different times, hold equal indexes, whether
   they got there by replay or from a snapshot.
   */
  lemma ReplicasAgree(states: seq<System>, actions: seq<Action>, i: nat, j: nat, a: nat, b: nat)
    requires Run(states, actions) && i <= j < |states|
    requires a in states[i].replicas && b in states[j].replicas
    requires states[i].replicas[a].applied == states[j].replicas[b].applied
    ensures states[i].replicas[a].ix == states[j].replicas[b].ix
  {
    RunsAreGood(states, actions, i, i);
    RunsAreGood(states, actions, i, j);
    hide Run, Meaning, Clean, B.TidyAll, B.TableOf;
    var r, q := states[i].replicas[a], states[j].replicas[b];
    assert GoodReplica(states[i].log, r) && GoodReplica(states[j].log, q);
    assert states[i].log[..r.applied] == states[j].log[..q.applied];
    B.TableDetermines(r.ix, q.ix);
  }

  /** In every run each applied entry is covered by the replica's snapshot or still stored. */
  lemma EntriesAreKept(states: seq<System>, actions: seq<Action>, j: nat, id: nat, index: nat)
    requires Run(states, actions) && j < |states| && id in states[j].replicas
    requires 0 < index <= states[j].replicas[id].applied
    ensures var r := states[j].replicas[id];
            index <= r.snapIndex || r.store.offset < index <= r.store.last
  {
    RunsAreGood(states, actions, j, j);
    hide Run, Meaning, Clean, B.TidyAll, B.TableOf;
    assert GoodReplica(states[j].log, states[j].replicas[id]);
  }

  // ------------------------------------------------------------------- panics

  /** The step hands the replica a batch the decoder panics on, or a snapshot that is not newer than its state. */
  ghost predicate Poisons(s: System, a: Action, id: nat) {
    && id in s.replicas
    && match a
       case Apply(target, count) => target == id && !Clean(Batch(s, id, count))
       case Install(target, snap) => target == id && snap.index <= s.replicas[id].applied
       case _ => false
  }

  /** A replica panics in a step exactly when the step poisons it: attemptSnapshot never does. */
  lemma CrashIff(s: System, a: Action, s': System, id: nat)
    requires Good(s) && Next(s, a, s')
    ensures id in s'.crashed && id !in s.crashed <==> Poisons(s, a, id)
  {
    hide GoodReplica, GoodSnap, Attempted, Installed, Advances, Clean;
    match a
    case Try(target) => AttemptIsGood(s.log, s.replicas[target]);
    case Install(target, snap) => InstallIsGood(s.log, s.replicas[target], snap);
    case _ =>
  }

  /** In every run no replica is ever down exactly when no step poisons one. */
  lemma NoCrashIff(states: seq<System>, actions: seq<Action>)
    requires Run(states, actions)
    ensures (forall j :: 0 <= j < |states| ==> states[j].crashed == {})
       <==> (forall i, id :: 0 <= i < |actions| ==> !Poisons(states[i], actions[i], id))
  {
    hide Next, Good, Poisons;
    if forall j :: 0 <= j < |states| ==> states[j].crashed == {} {
      forall i, id | 0 <= i < |actions| ensures !Poisons(states[i], actions[i], id) {
        RunsAreGood(states, actions, i, i);
        CrashIff(states[i], actions[i], states[i + 1], id);
      }
    }
    if forall i, id :: 0 <= i < |actions| ==> !Poisons(states[i], actions[i], id) {
      forall j | 0 <= j < |states| ensures states[j].crashed == {} {
        StaysUp(states, actions, j);
      }
    }
  }

  lemma {:induction false} StaysUp(states: seq<System>, actions: seq<Action>, j: nat)
    requires Run(states, actions) && j < |states|
    requires forall i, id :: 0 <= i < j ==> !Poisons(states[i], actions[i], id)
    ensures states[j].crashed == {}
  {
    hide Next, Good, Poisons;
    if j == 0 {
    } else {
      StaysUp(states, actions, j - 1);
      RunsAreGood(states, actions, j - 1, j - 1);
      forall id ensures id !in states[j].crashed {
        CrashIff(states[j - 1], actions[j - 1], states[j], id);
      }
    }
  }

  /**
   An entry the decoder panics on stops the cluster for good: once it is committed, no
   replica and no snapshot ever gets past it, whatever is restarted or installed.
   */
  lemma FaultStopsAll(states: seq<System>, actions: seq<Action>, j: nat, index: nat, id: nat, snap: Snap)
    requires Run(states, actions) && j < |states|
    requires index < |states[j].log| && Faults(states[j].log[index])
    ensures id in states[j].replicas ==> states[j].replicas[id].applied <= index
    ensures snap in states[j].wire ==> snap.index <= index
  {
    RunsAreGood(states, actions, j, j);
    hide Run, Faults, Clean, Meaning, B.TidyAll, B.TableOf;
    var log := states[j].log;
    if id in states[j].replicas {
      assert GoodReplica(log, states[j].replicas[id]);
      CleanPrefix(log, states[j].replicas[id].applied);
    }
    if snap in states[j].wire {
      assert GoodSnap(log, snap);
      CleanPrefix(log, snap.index);
    }
  }

  lemma CleanPrefix(log: seq<Body>, k: nat)
    requires k <= |log| && Clean(log[..k])
    ensures forall i :: 0 <= i < k ==> !Faults(log[i])
  {
    hide Faults;
    forall i | 0 <= i < k ensures !Faults(log[i]) {
      assert log[..k][i] == log[i];
    }
  }

  // --------------------------------------------------------------- progress

  /** The replica has not moved back. */
  ghost predicate NotBehind(r: Replica, r': Replica) {
    r.applied <= r'.applied && r.snapIndex <= r'.snapIndex && r.store.offset <= r'.store.offset
  }

  lemma NextNotBehind(s: System, a: Action, s': System, id: nat)
    requires Good(s) && Next(s, a, s') && a != Boot(id) && id in s'.replicas
    ensures id in s.replicas && NotBehind(s.replicas[id], s'.replicas[id])
  {
    hide Attempted, Installed, Clean, B.TidyAll, B.TableOf, Meaning, Fold;
    assert id in s.replicas ==> GoodReplica(s.log, s.replicas[id]);
    match a
    case Try(target) => AttemptIsGood(s.log, s.replicas[target]);
    case Install(target, snap) =>
      assert GoodReplica(s.log, s.replicas[target]) && GoodSnap(s.log, snap);
      InstallIsGood(s.log, s.replicas[target], snap);
    case _ =>
  }

  /** In every run, until a replica is restarted, its applied, snapshot and compaction indexes never decrease. */
  lemma {:induction false} RunsNotBehind(states: seq<System>, actions: seq<Action>, i: nat, j: nat, id: nat)
    requires Run(states, actions) && i <= j < |states| && id in states[j].replicas
    requires forall m :: i <= m < j ==> actions[m] != Boot(id)
    ensures id in states[i].replicas && NotBehind(states[i].replicas[id], states[j].replicas[id])
    decreases j
  {
    hide Next, Good;
    if i == j {
    } else {
      RunsAreGood(states, actions, j - 1, j - 1);
      NextNotBehind(states[j - 1], actions[j - 1], states[j], id);
      RunsNotBehind(states, actions, i, j - 1, id);
    }
  }

  /**
   Compaction points strictly increase: in every run, a snapshot taken at step j moves
   the replica's compaction point past all those it had since it was last started.
   */
  lemma CompactionAdvances(states: seq<System>, actions: seq<Action>, i: nat, j: nat, id: nat)
    requires Run(states, actions) && i <= j < |actions| && id in states[j].replicas
    requires forall m :: i <= m < j ==> actions[m] != Boot(id)
    requires actions[j] == Try(id) && states[j].replicas[id].applied - states[j].replicas[id].snapIndex > 1024
    ensures id in states[i].replicas && id in states[j + 1].replicas
    ensures states[i].replicas[id].store.offset < states[j + 1].replicas[id].store.offset
    ensures states[j + 1].replicas[id].store.offset == states[j].replicas[id].applied - 1024
    ensures states[j + 1].replicas[id].snapIndex == states[j].replicas[id].applied
  {
    RunsNotBehind(states, actions, i, j, id);
    RunsAreGood(states, actions, j, j);
    assert Next(states[j], actions[j], states[j + 1]);
    hide Run, Attempted, GoodReplica, GoodSnap;
    AttemptIsGood(states[j].log, states[j].replicas[id]);
  }

  // ------------------------------------------------- what steps do and runs reach

  /** A batch the decoder gets through moves the replica past it, its registry that of the longer log. */
  lemma ApplyMoves(s: System, id: nat, count: nat, s': System)
    requires Good(s) && Next(s, Apply(id, count), s')
    requires Clean(s.log[s.replicas[id].applied..s.replicas[id].applied + count])
    ensures id in s'.replicas && s' == s.(replicas := s.replicas[id := s'.replicas[id]])
    ensures var r, r' := s.replicas[id], s'.replicas[id];
            && r'.applied == r.applied + count
            && B.TidyAll(r'.ix) && B.TableOf(r'.ix) == Meaning(s.log[..r.applied + count])
            && r'.snapIndex == r.snapIndex && r'.store == r.store
  {
    hide B.TidyAll, B.TableOf, Clean, Fold, GoodSnap;
    var r := s.replicas[id];
    assert GoodReplica(s.log, r);
    FoldAppend(EMPTY, s.log[..r.applied], s.log[r.applied..r.applied + count]);
    assert s.log[..r.applied] + s.log[r.applied..r.applied + count] == s.log[..r.applied + count];
  }

  /** A newer snapshot replaces the replica's registry, indexes and storage. */
  lemma InstallMoves(s: System, id: nat, snap: Snap, s': System)
    requires Good(s) && Next(s, Install(id, snap), s') && snap.index > s.replicas[id].applied
    ensures s' == s.(replicas := s.replicas[id :=
                       Replica(snap.data, snap.index, snap.index,
                               Storage(snap.index, snap.data, snap.index, snap.index))])
  {
    hide GoodReplica, GoodSnap, Installed;
    InstallIsGood(s.log, s.replicas[id], snap);
  }

  lemma RunExtends(states: seq<System>, actions: seq<Action>, a: Action, s': System)
    requires Run(states, actions) && Next(states[|actions|], a, s')
    ensures Run(states + [s'], actions + [a])
  {
    hide Next;
    forall i | 0 <= i < |actions + [a]| ensures Next((states + [s'])[i], (actions + [a])[i], (states + [s'])[i + 1]) {
      if i < |actions| {
        assert Next(states[i], actions[i], states[i + 1]);
      }
    }
  }

  /** A batch the decoder gets through can always be applied once it is stored. */
  lemma CanApply(s: System, id: nat, count: nat) returns (s': System)
    requires Good(s) && id in s.replicas && count > 0
    requires s.replicas[id].applied + count <= |s.log| && s.replicas[id].applied + count <= s.replicas[id].store.last
    requires Clean(s.log[s.replicas[id].applied..s.replicas[id].applied + count])
    requires Inv(Meaning(s.log[..s.replicas[id].applied + count]))
    ensures Next(s, Apply(id, count), s')
  {
    hide B.TidyAll, B.TableOf, Clean, Fold, GoodSnap, Inv;
    var r := s.replicas[id];
    assert GoodReplica(s.log, r);
    var ix := B.Represented(Meaning(s.log[..r.applied + count]));
    FoldAppend(EMPTY, s.log[..r.applied], s.log[r.applied..r.applied + count]);
    assert s.log[..r.applied] + s.log[r.applied..r.applied + count] == s.log[..r.applied + count];
    s' := Lives(s, id, r.(ix := ix, applied := r.applied + count));
  }

  lemma {:induction false} MeaningInv(log: seq<Body>)
    ensures Inv(Meaning(log))
  {
    if log == [] {
      assert Inv(EMPTY);
    } else {
      var t := Meaning(log[..|log| - 1]);
      MeaningInv(log[..|log| - 1]);
      hide Inv, Step, O.DecodeOp;
      match log[|log| - 1]
      case Normal(data) =>
        if data != [] && O.DecodeOp(data).Op? { StepInv(t, O.DecodeOp(data).e); }
      case AddNode(_) =>
      case DropNode(n) => StepInv(t, RemoveNode(n));
    }
  }

  lemma CleanPart(log: seq<Body>, from: nat)
    requires Clean(log) && from <= |log|
    ensures Clean(log[from..|log|])
  {
    hide Faults;
  }

  /** The run goes on, over the same log, to a state in which the replica has applied all of it. */
  ghost predicate CaughtUp(states: seq<System>, actions: seq<Action>, log: seq<Body>, id: nat) {
    && Run(states, actions) && states[|actions|].log == log
    && id in states[|actions|].replicas && states[|actions|].replicas[id].applied == |log|
  }

  /** By replay: any run over a log the decoder gets through can go on until a running replica has applied all of it. */
  lemma CatchesUp(states: seq<System>, actions: seq<Action>, id: nat)
      returns (states': seq<System>, actions': seq<Action>)
    requires Run(states, actions) && id in states[|actions|].replicas && Clean(states[|actions|].log)
    ensures states <= states' && actions <= actions' && CaughtUp(states', actions', states[|actions|].log, id)
    ensures forall a :: a in actions'[|actions|..] ==> (a.Append? || a.Apply?) && a.id == id
    ensures forall other :: other != id ==>
              (other in states'[|actions'|].replicas <==> other in states[|actions|].replicas)
    ensures forall other :: other != id && other in states[|actions|].replicas ==>
              states'[|actions'|].replicas[other] == states[|actions|].replicas[other]
    ensures states'[|actions'|].replicas[id].snapIndex == states[|actions|].replicas[id].snapIndex
  {
    var s := states[|actions|];
    RunsAreGood(states, actions, |actions|, |actions|);
    hide Run, Next, Good, Clean;
    if s.replicas[id].applied == |s.log| {
      states', actions' := states, actions;
    } else {
      var a, b, s1, s2 := CatchUpSteps(s, id);
      RunExtends(states, actions, a, s1);
      RunExtends(states + [s1], actions + [a], b, s2);
      states', actions' := states + [s1] + [s2], actions + [a] + [b];
      RunLength(states', actions');
      assert actions'[|actions|..] == [a, b];
    }
  }

  lemma RunLength(states: seq<System>, actions: seq<Action>)
    requires Run(states, actions)
    ensures |states| == |actions| + 1
  {}

  /** The storage takes the log, and the replica applies what it lacks. */
  lemma CatchUpSteps(s: System, id: nat) returns (a: Action, b: Action, s1: System, s2: System)
    requires Good(s) && id in s.replicas && Clean(s.log) && s.replicas[id].applied != |s.log|
    ensures Next(s, a, s1) && Next(s1, b, s2) && a.Append? && a.id == id && b.Apply? && b.id == id
    ensures id in s2.replicas && s2 == s.(replicas := s.replicas[id := s2.replicas[id]])
    ensures s2.replicas[id].applied == |s.log| && s2.replicas[id].snapIndex == s.replicas[id].snapIndex
  {
    hide Clean, Inv, Meaning, GoodSnap, Fold, Advances, B.TidyAll, B.TableOf, Attempted, Installed;
    var r := s.replicas[id];
    assert GoodReplica(s.log, r);
    var last := if r.store.last < |s.log| then |s.log| else r.store.last;
    a, s1 := Append(id, last), Lives(s, id, r.(store := r.store.(last := last)));
    assert Next(s, a, s1);
    NextIsGood(s, a, s1);
    hide Good, GoodReplica;
    CleanPart(s.log, r.applied);
    assert s.log[..|s.log|] == s.log;
    MeaningInv(s.log);
    b := Apply(id, |s.log| - r.applied);
    s2 := CanApply(s1, id, b.count);
    ApplyMoves(s1, id, b.count, s2);
  }

  /**
   Whole logs: for every log there is a run in which a replica applies all of it,
   if and only if the decoder gets through all of it.
   */
  lemma AppliedIffClean(log: seq<Body>, id: nat)
    ensures (exists states, actions :: CaughtUp(states, actions, log, id)) <==> Clean(log)
  {
    hide Run, Clean;
    if states: seq<System>, actions: seq<Action> :| CaughtUp(states, actions, log, id) {
      RunLength(states, actions);
      ReachedIsClean(states, actions, log, id);
    }
    if Clean(log) {
      var states, actions := Started(log, id);
      RunLength(states, actions);
      var states', actions' := CatchesUp(states, actions, id);
      assert CaughtUp(states', actions', log, id);
    }
  }

  lemma ReachedIsClean(states: seq<System>, actions: seq<Action>, log: seq<Body>, id: nat)
    requires CaughtUp(states, actions, log, id)
    ensures Clean(log)
  {
    RunLength(states, actions);
    RunsAreGood(states, actions, |actions|, |actions|);
    hide Run, Clean, Meaning, GoodSnap, B.TidyAll, B.TableOf;
    assert GoodReplica(log, states[|actions|].replicas[id]);
    assert log[..|log|] == log;
  }

  /** A log and a running replica to begin with. */
  lemma Started(log: seq<Body>, id: nat) returns (states: seq<System>, actions: seq<Action>)
    ensures Run(states, actions) && actions == [Commit(log), Boot(id)] && |states| == 3
    ensures states[2] == System(log, map[id := FRESH], {}, {})
  {
    var s0 := System([], map[], {}, {});
    var s1 := System(log, map[], {}, {});
    var s2 := System(log, map[id := FRESH], {}, {});
    assert [] + log == log;
    assert Next(s0, Commit(log), s1) && Next(s1, Boot(id), s2);
    states, actions := [s0, s1, s2], [Commit(log), Boot(id)];
  }

  /**
   By snapshot: when a replica has applied all of the log and more than 1024 entries
   since its last snapshot, the run can go on until any other running replica that lags
   behind holds the same registry, without applying an entry itself.
   */
  lemma ShipsSnapshot(states: seq<System>, actions: seq<Action>, from: nat, id: nat)
      returns (states': seq<System>, actions': seq<Action>)
    requires Run(states, actions) && from != id
    requires from in states[|actions|].replicas && id in states[|actions|].replicas
    requires var s := states[|actions|];
             && s.replicas[from].applied == |s.log| && |s.log| - s.replicas[from].snapIndex > 1024
             && s.replicas[id].applied < |s.log|
    ensures states <= states' && actions <= actions' && CaughtUp(states', actions', states[|actions|].log, id)
    ensures states'[|actions'|].replicas[id].ix == states[|actions|].replicas[from].ix
    ensures forall a :: a in actions'[|actions|..] ==> !a.Apply?
  {
    var s := states[|actions|];
    RunsAreGood(states, actions, |actions|, |actions|);
    hide Run, Next, Good;
    var snap, s1, s2, s3 := ShipSteps(s, from, id);
    RunExtends(states, actions, Try(from), s1);
    RunExtends(states + [s1], actions + [Try(from)], Send(from), s2);
    RunExtends(states + [s1] + [s2], actions + [Try(from)] + [Send(from)], Install(id, snap), s3);
    states' := states + [s1] + [s2] + [s3];
    actions' := actions + [Try(from)] + [Send(from)] + [Install(id, snap)];
    RunLength(states', actions');
    assert actions'[|actions|..] == [Try(from), Send(from), Install(id, snap)];
  }

  /** A snapshot is taken, sent and installed. */
  lemma ShipSteps(s: System, from: nat, id: nat) returns (snap: Snap, s1: System, s2: System, s3: System)
    requires Good(s) && from != id && from in s.replicas && id in s.replicas
    requires s.replicas[from].applied == |s.log| && |s.log| - s.replicas[from].snapIndex > 1024
    requires s.replicas[id].applied < |s.log|
    ensures Next(s, Try(from), s1) && Next(s1, Send(from), s2) && Next(s2, Install(id, snap), s3)
    ensures s3.log == s.log && id in s3.replicas
    ensures s3.replicas[id].applied == |s.log| && s3.replicas[id].ix == s.replicas[from].ix
  {
    hide Clean, Meaning, GoodSnap, B.TidyAll, B.TableOf, Installed, Advances, Fold;
    var r := s.replicas[from];
    assert GoodReplica(s.log, r);
    AttemptIsGood(s.log, r);
    SnapshotTaken(r);
    hide Attempted;
    var r1 := Attempted(r).0;
    s1 := Lives(s, from, r1);
    assert Next(s, Try(from), s1);
    NextIsGood(s, Try(from), s1);
    snap := Snap(|s.log|, r.ix);
    s2 := s1.(wire := s1.wire + {snap});
    assert Next(s1, Send(from), s2);
    NextIsGood(s1, Send(from), s2);
    hide Good, GoodReplica;
    s3 := Shipped(s2, id, snap);
  }

  lemma SnapshotTaken(r: Replica)
    requires r.snapIndex <= r.applied && Attempted(r).1 == Taken
    ensures Attempted(r).0.store.snapIndex == r.applied && Attempted(r).0.store.snapData == r.ix
  {}

  lemma Shipped(s: System, id: nat, snap: Snap) returns (s': System)
    requires Good(s) && id in s.replicas && snap in s.wire && s.replicas[id].applied < snap.index
    ensures Next(s, Install(id, snap), s')
    ensures s'.log == s.log && id in s'.replicas
    ensures s'.replicas[id].applied == snap.index && s'.replicas[id].ix == snap.data
  {
    hide GoodReplica, GoodSnap, Installed;
    InstallIsGood(s.log, s.replicas[id], snap);
    s' := Lives(s, id, Installed(s.replicas[id], snap.index, snap.data).0);
    InstallMoves(s, id, snap, s');
  }

  /** Every long log the decoder gets through has a run in which a replica gets all of it from a snapshot alone. */
  lemma ShippedWhole(log: seq<Body>, from: nat, id: nat) returns (states: seq<System>, actions: seq<Action>)
    requires Clean(log) && |log| > 1024 && from != id
    ensures CaughtUp(states, actions, log, id) && forall count :: Apply(id, count) !in actions
    ensures B.TableOf(states[|actions|].replicas[id].ix) == Meaning(log)
  {
    var states0, actions0 := Started(log, id);
    var s := states0[2];
    var s3 := Lives(s, from, FRESH).(crashed := s.crashed - {from});
    assert Next(s, Boot(from), s3);
    RunExtends(states0, actions0, Boot(from), s3);
    var states1, actions1 := states0 + [s3], actions0 + [Boot(from)];
    hide Next;
    var states2, actions2 := CatchesUp(states1, actions1, from);
    states, actions := ShipsSnapshot(states2, actions2, from, id);
    forall count ensures Apply(id, count) !in actions {
      assert actions == actions2 + actions[|actions2|..];
      assert actions2 == actions1 + actions2[|actions1|..];
    }
    RunsAreGood(states, actions, |actions|, |actions|);
    hide Run;
    assert GoodReplica(log, states[|actions|].replicas[id]);
    assert log[..|log|] == log;
  }
}
