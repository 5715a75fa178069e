/**
 Sending to a user or to a channel: cluster/broker.go counts, over the local node and
 the peers that answer, the clients targeted and the clients reached.
 */
module Fanout {
  import opened Bytes
  import opened Registry
  import opened KeyMap

  /** What a broker finds when it sends: which listeners run, and for which clients sending succeeds. */
  datatype Delivery = Delivery(started: set<Str>, accepts: set<Str>)

  /** A peer is unknown, answers with an error, or does the sending. */
  datatype Peer = Missing | Failing | Answering(delivery: Delivery)

  /** The client is reached: the listener of its network runs and accepts the message. */
  predicate Reaches(d: Delivery, cid: Str, net: Str) { net in d.started && cid in d.accepts }

  /** The clients of `cids` among `done` that are reached. */
  ghost function Delivered(cids: map<Str, Str>, d: Delivery, done: set<Str>): set<Str> {
    set c | c in cids && c in done && Reaches(d, c, cids[c])
  }

  lemma DeliveredStep(cids: map<Str, Str>, d: Delivery, done: set<Str>, c: Str)
    requires c in cids && c !in done
    ensures |Delivered(cids, d, done + {c})| == |Delivered(cids, d, done)| + (if Reaches(d, c, cids[c]) then 1 else 0)
  {
    assert Delivered(cids, d, done + {c})
        == if Reaches(d, c, cids[c]) then Delivered(cids, d, done) + {c} else Delivered(cids, d, done);
  }

  /** sendToClients, in whatever order the map is visited. */
  method SendToClients(cids: map<Str, Str>, d: Delivery) returns (total: nat, success: nat)
    ensures total == |cids|
    ensures success == |set c | c in cids && cids[c] in d.started && c in d.accepts|
  {
    total, success := 0, 0;
    var todo := cids.Keys;
    ghost var done: set<Str> := {};
    assert Delivered(cids, d, done) == {};
    hide Delivered;
    while todo != {}
      invariant done + todo == cids.Keys && done !! todo
      invariant total == |done|
      invariant success == |Delivered(cids, d, done)|
      decreases |todo|
    {
      var cid :| cid in todo;
      DeliveredStep(cids, d, done, cid);
      total := total + 1;
      if cids[cid] in d.started {
        if cid in d.accepts {
          success := success + 1;
        }
      }
      done := done + {cid};
      todo := todo - {cid};
    }
    DeliveredAll(cids, d);
    assert done == cids.Keys;
  }

  lemma DeliveredAll(cids: map<Str, Str>, d: Delivery)
    ensures Delivered(cids, d, cids.Keys) == set c | c in cids && cids[c] in d.started && c in d.accepts
  {}

  /** Who takes part in a send: the local node and the peers it knows. */
  datatype Parties = Parties(self: Node, local: Delivery, peers: map<Node, Peer>)

  /** How a node takes part: the local one always sends. */
  function Part(all: Parties, n: Node): Peer {
    if n == all.self then Answering(all.local) else if n in all.peers then all.peers[n] else Missing
  }

  /** The (node, client) entries under `key` on the given nodes. */
  ghost function Targets(ix: Index<Str>, key: Str, nodes: set<Node>): set<Key> {
    set k | k in Leaves(ix) && k.outer == key && k.node in nodes
  }

  /** Those among the targets that the sending reaches. */
  ghost function Hits(ix: Index<Str>, key: Str, nodes: set<Node>, all: Parties): set<Key> {
    set k | k in Targets(ix, key, nodes) && Part(all, k.node).Answering?
         && Reaches(Part(all, k.node).delivery, k.inner, Leaves(ix)[k])
  }

  /** The nodes among the given ones that answer. */
  ghost function Answered(nodes: set<Node>, all: Parties): set<Node> {
    set n | n in nodes && Part(all, n).Answering?
  }

  lemma {:induction false} ImageSize(n: Node, key: Str, cs: set<Str>)
    ensures |set c | c in cs :: Key(n, key, c)| == |cs|
    decreases |cs|
  {
    var image := set c | c in cs :: Key(n, key, c);
    if cs == {} {
      assert image == {};
    } else {
      var c :| c in cs;
      ImageSize(n, key, cs - {c});
      var rest := set x | x in cs - {c} :: Key(n, key, x);
      assert image == rest + {Key(n, key, c)};
    }
  }

  lemma FieldsAreTargets(ix: Index<Str>, key: Str, n: Node)
    requires n in ix
    ensures Targets(ix, key, {n}) == set c | c in FieldsOf(ix, n, key) :: Key(n, key, c)
    ensures forall k :: k in Targets(ix, key, {n}) ==> Leaves(ix)[k] == FieldsOf(ix, n, key)[k.inner]
  {
    forall k: Key ensures k in Targets(ix, key, {n}) <==> k in (set c | c in FieldsOf(ix, n, key) :: Key(n, key, c)) {
      assert k in Leaves(ix) <==> Has(ix, k);
      assert k == Key(k.node, k.outer, k.inner);
    }
  }

  /** One node's share of both counts. */
  lemma NodeShare(ix: Index<Str>, key: Str, n: Node, all: Parties)
    requires n in ix
    ensures |Targets(ix, key, {n})| == |FieldsOf(ix, n, key)|
    ensures Part(all, n).Answering? ==>
      |Hits(ix, key, {n}, all)| == |Delivered(FieldsOf(ix, n, key), Part(all, n).delivery, FieldsOf(ix, n, key).Keys)|
  {
    FieldsAreTargets(ix, key, n);
    var m := FieldsOf(ix, n, key);
    hide Leaves, AreLeaves, Targets, FieldsOf;
    ImageSize(n, key, m.Keys);
    assert (set c | c in m.Keys :: Key(n, key, c)) == (set c | c in m :: Key(n, key, c));
    if Part(all, n).Answering? {
      var ok := Delivered(m, Part(all, n).delivery, m.Keys);
      ImageSize(n, key, ok);
      assert Hits(ix, key, {n}, all) == set c | c in ok :: Key(n, key, c);
    }
  }

  lemma DisjointSum(a: set<Key>, b: set<Key>, u: set<Key>)
    requires a !! b && u == a + b
    ensures |u| == |a| + |b|
  {}

  lemma AddTargets(ix: Index<Str>, key: Str, done: set<Node>, n: Node, all: Parties)
    requires n !in done
    ensures |Targets(ix, key, Answered(done + {n}, all))|
         == |Targets(ix, key, Answered(done, all))| + (if Part(all, n).Answering? then |Targets(ix, key, {n})| else 0)
  {
    hide Leaves, AreLeaves;
    var a, b := Targets(ix, key, Answered(done, all)), Targets(ix, key, {n});
    var u := Targets(ix, key, Answered(done + {n}, all));
    if Part(all, n).Answering? {
      assert Answered(done + {n}, all) == Answered(done, all) + {n};
      DisjointSum(a, b, u);
    } else {
      assert Answered(done + {n}, all) == Answered(done, all);
    }
  }

  lemma AddHits(ix: Index<Str>, key: Str, done: set<Node>, n: Node, all: Parties)
    requires n !in done
    ensures |Hits(ix, key, done + {n}, all)| == |Hits(ix, key, done, all)| + |Hits(ix, key, {n}, all)|
    ensures !Part(all, n).Answering? ==> Hits(ix, key, {n}, all) == {}
  {
    hide Leaves, AreLeaves, Reaches;
    var a, b, u := Hits(ix, key, done, all), Hits(ix, key, {n}, all), Hits(ix, key, done + {n}, all);
    assert u == a + b;
    DisjointSum(a, b, u);
  }

  /** What one more node adds to both counts: its clients when it answers, else nothing. */
  lemma NextNode(ix: Index<Str>, key: Str, done: set<Node>, n: Node, all: Parties)
    requires n in ix && n !in done
    ensures var m, part := FieldsOf(ix, n, key), Part(all, n);
            && |Targets(ix, key, Answered(done + {n}, all))|
               == |Targets(ix, key, Answered(done, all))| + (if part.Answering? then |m| else 0)
            && |Hits(ix, key, done + {n}, all)|
               == |Hits(ix, key, done, all)| + (if part.Answering? then |Delivered(m, part.delivery, m.Keys)| else 0)
  {
    hide *;
    NodeShare(ix, key, n, all);
    AddTargets(ix, key, done, n, all);
    AddHits(ix, key, done, n, all);
  }

  /**
   The fan-out of SendToUser and SendToChannel. Each turn of the loop is the completion
   of one node's goroutine; they complete in any order.
   */
  method Send(all: Parties, ix: Index<Str>, key: Str) returns (total: nat, success: nat)
    ensures total == |set k | k in Leaves(ix) && k.outer == key
                           && (k.node == all.self || (k.node in all.peers && all.peers[k.node].Answering?))|
    ensures success == |set k | k in Leaves(ix) && k.outer == key
                             && (if k.node == all.self
                                 then Leaves(ix)[k] in all.local.started && k.inner in all.local.accepts
                                 else && k.node in all.peers && all.peers[k.node].Answering?
                                      && Leaves(ix)[k] in all.peers[k.node].delivery.started
                                      && k.inner in all.peers[k.node].delivery.accepts)|
    ensures success <= total
  {
    hide *;
    total, success := 0, 0;
    var todo := ix.Keys;
    ghost var done: set<Node> := {};
    Nothing(ix, key, all);
    while todo != {}
      invariant done + todo == ix.Keys && done !! todo
      invariant total == |Targets(ix, key, Answered(done, all))|
      invariant success == |Hits(ix, key, done, all)|
      decreases |todo|
    {
      var n :| n in todo;
      NextNode(ix, key, done, n, all);
      var part := Part(all, n);
      if part.Answering? {
        DeliveredAll(FieldsOf(ix, n, key), part.delivery);
        var t, s := SendToClients(FieldsOf(ix, n, key), part.delivery);
        total := total + t;
        success := success + s;
      }
      done := done + {n};
      todo := todo - {n};
    }
    assert done == ix.Keys;
    HitsAreTargets(ix, key, ix.Keys, all);
    TargetsWrittenOut(all, ix, key);
    HitsWrittenOut(all, ix, key);
  }

  lemma Nothing(ix: Index<Str>, key: Str, all: Parties)
    ensures Targets(ix, key, Answered({}, all)) == {} && Hits(ix, key, {}, all) == {}
  {}

  lemma SubsetSize(a: set<Key>, b: set<Key>)
    requires a <= b
    ensures |a| <= |b|
  {
    assert b == a + (b - a);
  }

  lemma HitsAreTargets(ix: Index<Str>, key: Str, nodes: set<Node>, all: Parties)
    ensures |Hits(ix, key, nodes, all)| <= |Targets(ix, key, Answered(nodes, all))|
  {
    hide Leaves, AreLeaves;
    SubsetSize(Hits(ix, key, nodes, all), Targets(ix, key, Answered(nodes, all)));
  }

  datatype Sent = Invalid | Counted(total: nat, success: nat)

  /** Who is counted, said of the parties themselves. */
  lemma TargetsWrittenOut(all: Parties, ix: Index<Str>, key: Str)
    ensures Targets(ix, key, Answered(ix.Keys, all))
         == set k | k in Leaves(ix) && k.outer == key
                 && (k.node == all.self || (k.node in all.peers && all.peers[k.node].Answering?))
  {
    assert forall k :: k in Leaves(ix) ==> Has(ix, k);
    hide Leaves, AreLeaves;
  }

  lemma HitsWrittenOut(all: Parties, ix: Index<Str>, key: Str)
    ensures Hits(ix, key, ix.Keys, all)
         == set k | k in Leaves(ix) && k.outer == key
                 && (if k.node == all.self then Leaves(ix)[k] in all.local.started && k.inner in all.local.accepts
                     else && k.node in all.peers && all.peers[k.node].Answering?
                          && Leaves(ix)[k] in all.peers[k.node].delivery.started
                          && k.inner in all.peers[k.node].delivery.accepts)
  {
    assert forall k :: k in Leaves(ix) ==> Has(ix, k);
    hide Leaves, AreLeaves;
  }

  /**
   SendToUser and SendToChannel: the empty name is refused. Else the total counts the
   entries under the name on the local node and on the known peers that answer, and
   success those among them whose listener runs and accepts on their node.
   */
  method SendTo(all: Parties, ix: Index<Str>, key: Str) returns (r: Sent)
    ensures r == Invalid <==> key == []
    ensures r.Counted? ==>
              r.total == |set k | k in Leaves(ix) && k.outer == key
                               && (k.node == all.self || (k.node in all.peers && all.peers[k.node].Answering?))|
    ensures r.Counted? ==>
              r.success == |set k | k in Leaves(ix) && k.outer == key
                               && (if k.node == all.self
                                   then Leaves(ix)[k] in all.local.started && k.inner in all.local.accepts
                                   else && k.node in all.peers && all.peers[k.node].Answering?
                                        && Leaves(ix)[k] in all.peers[k.node].delivery.started
                                        && k.inner in all.peers[k.node].delivery.accepts)|
    ensures r.Counted? ==> r.success <= r.total
  {
    if |key| == 0 {
      return Invalid;
    }
    hide Leaves, AreLeaves;
    var total, success := Send(all, ix, key);
    r := Counted(total, success);
  }
}
