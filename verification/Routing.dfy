/**
 What the cluster promises end to end: the registry that any replica of any run holds,
 and the counts a broker reports from it, are determined by the bytes of the log it
 has applied.
 */
module Routing {
  import opened Bytes
  import opened Registry
  import opened KeyMap
  import B = Broker
  import C = Cluster
  import F = Fanout
  import H = History
  import O = Operations

  /** The event an entry stands for, if any. */
  function EventsOf(b: C.Body): seq<Event> {
    match b
    case Normal(data) =>
      if data == [] then []
      else (match O.DecodeOp(data)
            case Op(e) => [e]
            case _ => [])
    case AddNode(_) => []
    case DropNode(n) => [RemoveNode(n)]
  }

  function Events(log: seq<C.Body>): seq<Event> {
    if log == [] then [] else Events(log[..|log| - 1]) + EventsOf(log[|log| - 1])
  }

  /** The registry of a log of bytes is the replay of the events it decodes to. */
  lemma {:induction false} MeaningIsReplay(log: seq<C.Body>)
    ensures C.Meaning(log) == Replay(Events(log))
  {
    if log == [] {
    } else {
      var past, b := log[..|log| - 1], log[|log| - 1];
      MeaningIsReplay(past);
      assert C.Meaning(log) == C.Effect(C.Meaning(past), b);
      hide O.DecodeOp, Step, Replay, C.Meaning;
      if EventsOf(b) == [] {
        assert Events(log) == Events(past);
      } else {
        ReplaySnoc(Events(past), EventsOf(b)[0]);
        assert Events(log) == Events(past) + [EventsOf(b)[0]];
      }
    }
  }

  /**
   What one more entry does to the registry of a log: bytes that decode have the effect
   of their operation, a removed node leaves nothing behind, and an added node, an empty
   entry and rejected bytes change nothing.
   */
  lemma EntryEffects(log: seq<C.Body>, b: C.Body, k: Key)
    ensures var before, after := C.Meaning(log), C.Meaning(log + [b]);
            && (b.AddNode? || b == C.Normal([]) ==> after == before)
            && (b.Normal? && b.data != [] && O.DecodeOp(b.data).Op? ==> after == Step(before, O.DecodeOp(b.data).e))
            && (b.Normal? && b.data != [] && !O.DecodeOp(b.data).Op? ==> after == before)
            && (b.DropNode? ==>
                  && b.id !in after.userNodes + after.chanNodes + after.linkNodes
                  && (k.node == b.id ==> k !in after.users && k !in after.chans && k !in after.links)
                  && (k.node != b.id ==>
                        && (forall net :: H.Lists(after.users, k, net) <==> H.Lists(before.users, k, net))
                        && (forall net :: H.Lists(after.chans, k, net) <==> H.Lists(before.chans, k, net))
                        && (k in after.links <==> k in before.links)))
  {
    hide O.DecodeOp, C.Meaning;
    MeaningSnoc(log, b);
  }

  lemma MeaningSnoc(log: seq<C.Body>, b: C.Body)
    ensures C.Meaning(log + [b]) == C.Effect(C.Meaning(log), b)
  {
    hide C.Effect;
    assert (log + [b])[..|log|] == log;
  }

  /** A proposed operation, in whatever order its channels were written, is an entry for that operation. */
  lemma ProposedEntry(e: Event, ps: seq<(Str, Str)>)
    requires O.Proposable(e) && Enumerates(ps, O.Channels(e)) && IsSlice(O.OpBytes(e, ps))
    ensures EventsOf(C.Normal(O.OpBytes(e, ps))) == [e] && !C.Faults(C.Normal(O.OpBytes(e, ps)))
  {
    O.OpRoundTrip(e, ps);
    hide O.DecodeOp, O.OpBody, Enumerates, O.Proposable;
  }

  /** An entry that the cluster itself puts into the log: empty, a configuration change or a proposed operation. */
  ghost predicate Proposed(b: C.Body) {
    b.Normal? ==> b.data == [] || exists e, ps :: IsProposal(b.data, e, ps)
  }

  ghost predicate IsProposal(data: Str, e: Event, ps: seq<(Str, Str)>) {
    O.Proposable(e) && Enumerates(ps, O.Channels(e)) && data == O.OpBytes(e, ps)
  }

  lemma ProposedIsClean(b: C.Body)
    requires Proposed(b)
    ensures !C.Faults(b)
  {
    hide O.Proposable, O.OpBytes, O.DecodeOp, Enumerates, O.Channels;
    if b.Normal? && b.data != [] {
      var e, ps :| IsProposal(b.data, e, ps);
      ProposedEntry(e, ps);
    }
  }

  /** What Raft guarantees of a step: only proposals are committed, and only newer snapshots are handed over. */
  ghost predicate Guarded(s: C.System, a: C.Action) {
    match a
    case Commit(bodies) => forall i :: 0 <= i < |bodies| ==> Proposed(bodies[i])
    case Install(id, snap) => id in s.replicas ==> snap.index > s.replicas[id].applied
    case _ => true
  }

  lemma {:induction false} GuardedLogIsClean(states: seq<C.System>, actions: seq<C.Action>, j: nat)
    requires C.Run(states, actions) && j < |states|
    requires forall i :: 0 <= i < j ==> Guarded(states[i], actions[i])
    ensures C.Clean(states[j].log)
  {
    hide C.Faults, Proposed;
    if j == 0 {
    } else {
      GuardedLogIsClean(states, actions, j - 1);
      assert C.Next(states[j - 1], actions[j - 1], states[j]) && Guarded(states[j - 1], actions[j - 1]);
      match actions[j - 1]
      case Commit(bodies) =>
        forall i | 0 <= i < |bodies| ensures !C.Faults(bodies[i]) { ProposedIsClean(bodies[i]); }
      case _ => hide C.Attempted, C.Installed, C.Advances, C.Clean;
    }
  }

  /** In every run in which Raft keeps its guarantees, no replica ever panics. */
  lemma GuardedRunsStayUp(states: seq<C.System>, actions: seq<C.Action>, j: nat)
    requires C.Run(states, actions) && j < |states|
    requires forall i :: 0 <= i < j ==> Guarded(states[i], actions[i])
    ensures states[j].crashed == {}
  {
    hide C.Next, Proposed, C.Faults;
    forall i, id | 0 <= i < j ensures !C.Poisons(states[i], actions[i], id) {
      GuardedLogIsClean(states, actions, i);
      assert Guarded(states[i], actions[i]);
    }
    hide C.Poisons, Guarded;
    C.StaysUp(states, actions, j);
  }

  /** The events that the replica's state reflects. */
  ghost function Applied(s: C.System, id: nat): seq<Event>
    requires id in s.replicas
  {
    var applied := s.replicas[id].applied;
    Events(if applied <= |s.log| then s.log[..applied] else s.log)
  }

  /** Every replica of every run holds the replay of its log prefix, in tidy nested maps. */
  lemma ReplicaIsReplay(states: seq<C.System>, actions: seq<C.Action>, j: nat, id: nat)
    requires C.Run(states, actions) && j < |states| && id in states[j].replicas
    ensures states[j].replicas[id].applied <= |states[j].log|
    ensures B.TidyAll(states[j].replicas[id].ix)
    ensures B.TableOf(states[j].replicas[id].ix) == Replay(Applied(states[j], id))
    ensures Inv(B.TableOf(states[j].replicas[id].ix))
  {
    C.RunsAreGood(states, actions, j, j);
    hide C.Run, C.Meaning, C.Clean, B.TidyAll, B.TableOf, Inv, Replay, Events;
    var r := states[j].replicas[id];
    assert C.GoodReplica(states[j].log, r);
    MeaningIsReplay(states[j].log[..r.applied]);
    ReplayInv(Applied(states[j], id));
  }

  /**
   Routing follows the log: in every run, a replica lists client cid on node n under
   channel ch, with network net, exactly when the latest event it has applied that
   touches the three subscribes the client over net; and it lists cid under user uid
   exactly when the latest such event is an open.
   */
  lemma RoutesAreHistory(states: seq<C.System>, actions: seq<C.Action>, j: nat, id: nat, k: Key, net: Str)
    requires C.Run(states, actions) && j < |states| && id in states[j].replicas
    ensures H.Lists(Leaves(states[j].replicas[id].ix.chans), k, net)
       <==> H.LatestPuts(H.ChanEffects(Applied(states[j], id), k), net)
    ensures H.Lists(Leaves(states[j].replicas[id].ix.users), k, net) <==> H.Owns(Applied(states[j], id), k, net)
  {
    ReplicaIsReplay(states, actions, j, id);
    H.ChannelsAreHistory(Applied(states[j], id), k, net);
    H.UsersAreHistory(Applied(states[j], id), k, net);
    hide C.Run, Inv, Replay, Applied, H.Lists, H.LatestPuts;
    var ix := states[j].replicas[id].ix;
    assert B.TableOf(ix).chans == Leaves(ix.chans) && B.TableOf(ix).users == Leaves(ix.users);
  }

  // ----------------------------------------------------------------- sending

  /** After the log, client k.inner on node k.node listens to channel k.outer. */
  ghost predicate Listens(log: seq<Event>, k: Key) { exists net :: H.LatestPuts(H.ChanEffects(log, k), net) }

  /** After the log, client k.inner on node k.node belongs to user k.outer. */
  ghost predicate Belongs(log: seq<Event>, k: Key) { exists net :: H.Owns(log, k, net) }

  lemma LeafIsListed(ix: Index<Str>, k: Key)
    ensures k in Leaves(ix) <==> exists net :: H.Lists(Leaves(ix), k, net)
  {
    hide Leaves, AreLeaves;
    if k in Leaves(ix) {
      assert H.Lists(Leaves(ix), k, Leaves(ix)[k]);
    }
  }

  /**
   Fan-out follows the log: the entries that a send on a replica counts when every node
   answers are exactly the subscriptions to the channel, or the clients of the user,
   that the applied log leaves live.
   */
  lemma TargetsAreHistory(states: seq<C.System>, actions: seq<C.Action>, j: nat, id: nat, name: Str, k: Key)
    requires C.Run(states, actions) && j < |states| && id in states[j].replicas
    ensures var ix, log := states[j].replicas[id].ix, Applied(states[j], id);
            && (k in F.Targets(ix.chans, name, ix.chans.Keys) <==> k.outer == name && Listens(log, k))
            && (k in F.Targets(ix.users, name, ix.users.Keys) <==> k.outer == name && Belongs(log, k))
  {
    var ix := states[j].replicas[id].ix;
    var log := Applied(states[j], id);
    forall net ensures H.Lists(Leaves(ix.chans), k, net) <==> H.LatestPuts(H.ChanEffects(log, k), net)
      ensures H.Lists(Leaves(ix.users), k, net) <==> H.Owns(log, k, net)
    {
      RoutesAreHistory(states, actions, j, id, k, net);
    }
    hide C.Run, Applied, H.LatestPuts, H.Owns, H.Lists;
    LeafIsListed(ix.chans, k);
    LeafIsListed(ix.users, k);
    assert k in Leaves(ix.chans) ==> Has(ix.chans, k);
    assert k in Leaves(ix.users) ==> Has(ix.users, k);
  }

  /**
   What a send has counted, given the live targets with their networks: the total is
   that of the local node and of the known peers that answer, success that of the
   targets among them whose listener runs and accepts; when all answer, all are counted.
   */
  ghost predicate Accounts(r: F.Sent, all: F.Parties, live: map<Key, Str>) {
    r.Counted? ==>
      && r.total == |set k | k in live
                          && (k.node == all.self || (k.node in all.peers && all.peers[k.node].Answering?))|
      && r.success == |set k | k in live
                            && (if k.node == all.self
                                then live[k] in all.local.started && k.inner in all.local.accepts
                                else && k.node in all.peers && all.peers[k.node].Answering?
                                     && live[k] in all.peers[k.node].delivery.started
                                     && k.inner in all.peers[k.node].delivery.accepts)|
      && r.success <= r.total <= |live|
      && ((forall k :: k in live && k.node != all.self ==> k.node in all.peers && all.peers[k.node].Answering?)
            ==> r.total == |live|)
  }

  /** The entries under a name, with their networks. */
  ghost function Named(ix: Index<Str>, name: Str): map<Key, Str> {
    map k | k in Leaves(ix) && k.outer == name :: Leaves(ix)[k]
  }

  lemma Accounted(r: F.Sent, all: F.Parties, leaves: map<Key, Str>, live: map<Key, Str>, name: Str)
    requires live == map k | k in leaves && k.outer == name :: leaves[k]
    requires r.Counted? ==>
               r.total == |set k | k in leaves && k.outer == name
                                && (k.node == all.self || (k.node in all.peers && all.peers[k.node].Answering?))|
    requires r.Counted? ==>
               r.success == |set k | k in leaves && k.outer == name
                                && (if k.node == all.self
                                    then leaves[k] in all.local.started && k.inner in all.local.accepts
                                    else && k.node in all.peers && all.peers[k.node].Answering?
                                         && leaves[k] in all.peers[k.node].delivery.started
                                         && k.inner in all.peers[k.node].delivery.accepts)|
    requires r.Counted? ==> r.success <= r.total
    ensures Accounts(r, all, live)
  {
    if r.Counted? {
      var counted := set k | k in live
                          && (k.node == all.self || (k.node in all.peers && all.peers[k.node].Answering?));
      assert counted == set k | k in leaves && k.outer == name
                             && (k.node == all.self || (k.node in all.peers && all.peers[k.node].Answering?));
      F.SubsetSize(counted, live.Keys);
      assert (set k | k in leaves && k.outer == name
                   && (if k.node == all.self
                       then leaves[k] in all.local.started && k.inner in all.local.accepts
                       else && k.node in all.peers && all.peers[k.node].Answering?
                            && leaves[k] in all.peers[k.node].delivery.started
                            && k.inner in all.peers[k.node].delivery.accepts))
          == set k | k in live
                  && (if k.node == all.self
                      then live[k] in all.local.started && k.inner in all.local.accepts
                      else && k.node in all.peers && all.peers[k.node].Answering?
                           && live[k] in all.peers[k.node].delivery.started
                           && k.inner in all.peers[k.node].delivery.accepts);
      if forall k :: k in live && k.node != all.self ==> k.node in all.peers && all.peers[k.node].Answering? {
        assert counted == live.Keys;
      }
    }
  }

  lemma NamedIsHistory(states: seq<C.System>, actions: seq<C.Action>, j: nat, id: nat, name: Str, k: Key, net: Str)
    requires C.Run(states, actions) && j < |states| && id in states[j].replicas
    ensures var ix, log := states[j].replicas[id].ix, Applied(states[j], id);
            && (H.Lists(Named(ix.chans, name), k, net)
                <==> k.outer == name && H.LatestPuts(H.ChanEffects(log, k), net))
            && (H.Lists(Named(ix.users, name), k, net) <==> k.outer == name && H.Owns(log, k, net))
  {
    RoutesAreHistory(states, actions, j, id, k, net);
    hide C.Run, Applied, H.LatestPuts, H.Owns, Leaves, AreLeaves;
  }

  /**
   SendToChannel on any replica of any run: it counts, of the subscriptions to the
   channel that are live after the applied log, each with the network of its latest
   subscribing event, those on the nodes that answer and those among them delivered.
   */
  method SendToChannel(
      ghost states: seq<C.System>, ghost actions: seq<C.Action>, ghost j: nat, ghost id: nat,
      ix: Index<Str>, all: F.Parties, channel: Str) returns (r: F.Sent, ghost live: map<Key, Str>)
    requires C.Run(states, actions) && j < |states| && id in states[j].replicas
    requires ix == states[j].replicas[id].ix.chans
    ensures r == F.Invalid <==> channel == []
    ensures forall k, net :: H.Lists(live, k, net)
                        <==> k.outer == channel && H.LatestPuts(H.ChanEffects(Applied(states[j], id), k), net)
    ensures Accounts(r, all, live)
  {
    live := Named(ix, channel);
    hide Leaves, AreLeaves, C.Run, Applied, H.LatestPuts, H.Lists;
    r := F.SendTo(all, ix, channel);
    Accounted(r, all, Leaves(ix), live, channel);
    hide *;
    forall k, net ensures H.Lists(live, k, net)
                     <==> k.outer == channel && H.LatestPuts(H.ChanEffects(Applied(states[j], id), k), net) {
      NamedIsHistory(states, actions, j, id, channel, k, net);
    }
  }

  /** SendToUser likewise, with the clients the user has after the applied log. */
  method SendToUser(
      ghost states: seq<C.System>, ghost actions: seq<C.Action>, ghost j: nat, ghost id: nat,
      ix: Index<Str>, all: F.Parties, uid: Str) returns (r: F.Sent, ghost live: map<Key, Str>)
    requires C.Run(states, actions) && j < |states| && id in states[j].replicas
    requires ix == states[j].replicas[id].ix.users
    ensures r == F.Invalid <==> uid == []
    ensures forall k, net :: H.Lists(live, k, net) <==> k.outer == uid && H.Owns(Applied(states[j], id), k, net)
    ensures Accounts(r, all, live)
  {
    live := Named(ix, uid);
    hide Leaves, AreLeaves, C.Run, Applied, H.Owns, H.Lists;
    r := F.SendTo(all, ix, uid);
    Accounted(r, all, Leaves(ix), live, uid);
    hide *;
    forall k, net ensures H.Lists(live, k, net) <==> k.outer == uid && H.Owns(Applied(states[j], id), k, net) {
      NamedIsHistory(states, actions, j, id, uid, k, net);
    }
  }

  // ---------------------------------------------------------------- inspecting

  /** After the log, the user has a client on the node. */
  ghost predicate Online(log: seq<Event>, n: Node, uid: Str) { exists cid :: Belongs(log, Key(n, uid, cid)) }

  /** After the log, some client of the node listens to the channel. */
  ghost predicate Heard(log: seq<Event>, n: Node, ch: Str) { exists cid :: Listens(log, Key(n, ch, cid)) }

  /** The users and channels a replica knows on a node are those with at least one client there, by the log. */
  lemma KeysAreHistory(states: seq<C.System>, actions: seq<C.Action>, j: nat, id: nat, n: Node, key: Str)
    requires C.Run(states, actions) && j < |states| && id in states[j].replicas
    ensures var ix, log := states[j].replicas[id].ix, Applied(states[j], id);
            && ix.users.Keys == ix.chans.Keys == ix.links.Keys
            && (n in ix.users ==> (key in ix.users[n] <==> Online(log, n, key)))
            && (n in ix.chans ==> (key in ix.chans[n] <==> Heard(log, n, key)))
  {
    ReplicaIsReplay(states, actions, j, id);
    var ix, log := states[j].replicas[id].ix, Applied(states[j], id);
    assert ix.users.Keys == ix.chans.Keys == ix.links.Keys && Tidy(ix.users) && Tidy(ix.chans);
    hide *;
    if n in ix.users { KeysAreLive(ix.users, n, key); }
    if n in ix.chans { KeysAreLive(ix.chans, n, key); }
    LeavesAreHistory(states, actions, j, id, n, key);
  }

  lemma LeavesAreHistory(states: seq<C.System>, actions: seq<C.Action>, j: nat, id: nat, n: Node, key: Str)
    requires C.Run(states, actions) && j < |states| && id in states[j].replicas
    ensures var ix, log := states[j].replicas[id].ix, Applied(states[j], id);
            && ((exists cid :: Key(n, key, cid) in Leaves(ix.users)) <==> Online(log, n, key))
            && ((exists cid :: Key(n, key, cid) in Leaves(ix.chans)) <==> Heard(log, n, key))
  {
    var ix, log := states[j].replicas[id].ix, Applied(states[j], id);
    forall cid ensures Key(n, key, cid) in Leaves(ix.users) <==> Belongs(log, Key(n, key, cid))
      ensures Key(n, key, cid) in Leaves(ix.chans) <==> Listens(log, Key(n, key, cid))
    {
      TargetsAreHistory(states, actions, j, id, key, Key(n, key, cid));
      assert Key(n, key, cid) in Leaves(ix.users) ==> Has(ix.users, Key(n, key, cid));
      assert Key(n, key, cid) in Leaves(ix.chans) ==> Has(ix.chans, Key(n, key, cid));
      hide C.Run, Applied, Belongs, Listens;
    }
    hide C.Run, Applied, Belongs, Listens, Leaves, AreLeaves;
  }

  /** One of inspect's two loops: the counter of every node's KeyMap, in any order. */
  method KeyCounts(maps: map<Node, KeyMap<Str>>, ghost ix: Index<Str>) returns (counts: map<Node, int>)
    requires maps.Keys == ix.Keys
    requires forall n :: n in maps ==> maps[n].Valid() && maps[n].m == ix[n]
    ensures counts.Keys == ix.Keys && forall n :: n in ix ==> counts[n] == |ix[n]|
  {
    counts := map[];
    var todo := maps.Keys;
    while todo != {}
      invariant todo <= maps.Keys && counts.Keys == maps.Keys - todo
      invariant forall n :: n in counts ==> counts[n] == |ix[n]|
    {
      var n :| n in todo;
      var count := maps[n].Len();
      counts := counts[n := count];
      todo := todo - {n};
    }
  }

  lemma SameSize(m: map<Str, map<Str, Str>>, keys: set<Str>)
    requires forall key :: key in m <==> key in keys
    ensures |m| == |keys|
  {
    assert m.Keys == keys;
  }

  /** The counts inspect reports are, node by node, the numbers of users and of channels with a client there. */
  lemma CountsAreLive(
      states: seq<C.System>, actions: seq<C.Action>, j: nat, id: nat, n: Node, online: set<Str>, heard: set<Str>)
    requires C.Run(states, actions) && j < |states| && id in states[j].replicas
    requires forall uid :: uid in online <==> Online(Applied(states[j], id), n, uid)
    requires forall ch :: ch in heard <==> Heard(Applied(states[j], id), n, ch)
    ensures var ix := states[j].replicas[id].ix;
            && (n in ix.users ==> |ix.users[n]| == |online|)
            && (n in ix.chans ==> |ix.chans[n]| == |heard|)
  {
    hide *;
    var ix := states[j].replicas[id].ix;
    forall key ensures n in ix.users ==> (key in ix.users[n] <==> key in online)
      ensures n in ix.chans ==> (key in ix.chans[n] <==> key in heard)
    {
      KeysAreHistory(states, actions, j, id, n, key);
    }
    if n in ix.users { SameSize(ix.users[n], online); }
    if n in ix.chans { SameSize(ix.chans[n], heard); }
  }
}
