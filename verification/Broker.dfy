/**
 The broker's three indexes and the methods of cluster/broker.go that update them in
 place. Every loop over a Go map picks an arbitrary next key, so each contract holds
 for every iteration order: applying an event is a function of the registry.
 */
module Broker {
  import opened Bytes
  import opened Registry
  import opened KeyMap

  /** The contents of the three indexes; also what a snapshot holds (its JSON is taken as the identity). */
  datatype Indexes = Indexes(users: Index<Str>, chans: Index<Str>, links: Index<()>)

  const NO_ENTRIES := Indexes(map[], map[], map[])

  ghost predicate TidyAll(x: Indexes) { Tidy(x.users) && Tidy(x.chans) && Tidy(x.links) }

  /** The table of entries that the nested maps stand for. */
  ghost function TableOf(x: Indexes): Table {
    Table(x.users.Keys, x.chans.Keys, x.links.Keys, Leaves(x.users), Leaves(x.chans), Leaves(x.links).Keys)
  }

  lemma UnitLeaves(a: Index<()>, b: Index<()>)
    requires Leaves(a).Keys == Leaves(b).Keys
    ensures Leaves(a) == Leaves(b)
  {
    forall k | k in Leaves(a) ensures Leaves(a)[k] == Leaves(b)[k] {
      assert Leaves(a)[k] == ();
      assert k in Leaves(b).Keys;
      assert Leaves(b)[k] == ();
    }
  }

  /** Two tidy registries with the same entries are the same nested maps. */
  lemma TableDetermines(a: Indexes, b: Indexes)
    requires TidyAll(a) && TidyAll(b) && TableOf(a) == TableOf(b)
    ensures a == b
  {
    hide AreLeaves, Leaves, Tidy;
    LeavesDetermine(a.users, b.users);
    LeavesDetermine(a.chans, b.chans);
    UnitLeaves(a.links, b.links);
    LeavesDetermine(a.links, b.links);
  }

  /** Every table whose entries lie on its nodes is that of tidy nested maps. */
  lemma Represented(t: Table) returns (x: Indexes)
    requires Inv(t)
    ensures TidyAll(x) && TableOf(x) == t
  {
    hide Nest, Leaves, AreLeaves, Tidy, Owned;
    var units := map k | k in t.links :: ();
    assert units.Keys == t.links;
    NestIsTidy(t.userNodes, t.users);
    NestIsTidy(t.chanNodes, t.chans);
    NestIsTidy(t.linkNodes, units);
    x := Indexes(Nest(t.userNodes, t.users), Nest(t.chanNodes, t.chans), Nest(t.linkNodes, units));
  }

  lemma EmptyTable()
    ensures TidyAll(NO_ENTRIES) && TableOf(NO_ENTRIES) == EMPTY
  {
    LeavesAre(NO_ENTRIES.users, map[]);
    LeavesAre(NO_ENTRIES.chans, map[]);
    LeavesAre(NO_ENTRIES.links, map[]);
  }

  // ------------------------------------------------- pieces of Step, for the loops

  ghost function AddOne(t: Table, n: Node, ch: Str, cid: Str, net: Str): Table {
    t.(chans := t.chans[Key(n, ch, cid) := net], links := t.links + {Key(n, cid, ch)})
  }

  ghost function DropOne(t: Table, n: Node, ch: Str, cid: Str): Table {
    t.(chans := t.chans - {Key(n, ch, cid)}, links := t.links - {Key(n, cid, ch)})
  }

  /** GetOrSet of the given nodes in the two channel indexes. */
  ghost function SpreadOver(t: Table, nodes: set<Node>): Table {
    t.(chanNodes := t.chanNodes + nodes, linkNodes := t.linkNodes + nodes)
  }

  /** The clients of one user on the given nodes. */
  ghost function ClientsOn(users: map<Key, Str>, uid: Str, nodes: set<Node>): map<Key, Str> {
    map k | k in users && k.outer == uid && k.node in nodes :: users[k]
  }

  lemma SubscribeNone(t: Table, clients: map<Key, Str>, uid: Str, chs: set<Str>)
    requires clients == map[] || chs == {}
    ensures Subscribe(t, clients, uid, chs) == t == Unsubscribe(t, clients, uid, chs)
  {
    assert SubKeys(clients.Keys, uid, chs) == {};
    assert LinkKeys(clients.Keys, uid, chs) == {};
    assert t.chans + map[] == t.chans;
  }

  lemma KeysOfChannel(k: Key, done: set<Str>, ch: Str)
    ensures SubKeys({k}, k.outer, done + {ch}) == SubKeys({k}, k.outer, done) + {Key(k.node, ch, k.inner)}
    ensures LinkKeys({k}, k.outer, done + {ch}) == LinkKeys({k}, k.outer, done) + {Key(k.node, k.inner, ch)}
  {}

  lemma SameMap(a: map<Key, Str>, b: map<Key, Str>)
    requires forall k :: k in a <==> k in b
    requires forall k :: k in a ==> a[k] == b[k]
    ensures a == b
  {}

  lemma PlacedChannel(k: Key, net: Str, done: set<Str>, ch: Str)
    ensures Placed(map[k := net], k.outer, done + {ch})
         == Placed(map[k := net], k.outer, done)[Key(k.node, ch, k.inner) := net]
  {
    hide Placed;
    var c := map[k := net];
    var l, r := Placed(c, k.outer, done + {ch}), Placed(c, k.outer, done)[Key(k.node, ch, k.inner) := net];
    forall s ensures s in l <==> s in r {
      PlacedAt(c, k.outer, done + {ch}, s);
      PlacedAt(c, k.outer, done, s);
    }
    forall s | s in l ensures l[s] == r[s] {
      PlacedAt(c, k.outer, done + {ch}, s);
      PlacedAt(c, k.outer, done, s);
    }
    SameMap(l, r);
  }

  lemma PlacedClients(a: map<Key, Str>, b: map<Key, Str>, uid: Str, chs: set<Str>)
    ensures Placed(a + b, uid, chs) == Placed(a, uid, chs) + Placed(b, uid, chs)
  {
    hide Placed;
    var l, r := Placed(a + b, uid, chs), Placed(a, uid, chs) + Placed(b, uid, chs);
    forall s ensures s in l <==> s in r {
      PlacedAt(a + b, uid, chs, s);
      PlacedAt(a, uid, chs, s);
      PlacedAt(b, uid, chs, s);
    }
    forall s | s in l ensures l[s] == r[s] {
      PlacedAt(a + b, uid, chs, s);
      PlacedAt(a, uid, chs, s);
      PlacedAt(b, uid, chs, s);
    }
    SameMap(l, r);
  }

  lemma MergeUpdate(m: map<Key, Str>, d: map<Key, Str>, k: Key, net: Str)
    ensures m + d[k := net] == (m + d)[k := net]
  {}

  lemma MergeAssoc(m: map<Key, Str>, a: map<Key, Str>, b: map<Key, Str>)
    ensures m + a + b == m + (a + b)
  {}

  lemma SubscribeChannel(t: Table, k: Key, net: Str, done: set<Str>, ch: Str)
    ensures Subscribe(t, map[k := net], k.outer, done + {ch})
         == AddOne(Subscribe(t, map[k := net], k.outer, done), k.node, ch, k.inner, net)
  {
    hide Placed, AreSubKeys, SubKeys, AreLinkKeys, LinkKeys;
    KeysOfChannel(k, done, ch);
    assert map[k := net].Keys == {k};
    PlacedChannel(k, net, done, ch);
    MergeUpdate(t.chans, Placed(map[k := net], k.outer, done), Key(k.node, ch, k.inner), net);
    assert t.links + (LinkKeys({k}, k.outer, done) + {Key(k.node, k.inner, ch)})
        == t.links + LinkKeys({k}, k.outer, done) + {Key(k.node, k.inner, ch)};
  }

  lemma UnsubscribeChannel(t: Table, k: Key, net: Str, done: set<Str>, ch: Str)
    ensures Unsubscribe(t, map[k := net], k.outer, done + {ch})
         == DropOne(Unsubscribe(t, map[k := net], k.outer, done), k.node, ch, k.inner)
  {
    hide AreSubKeys, SubKeys, AreLinkKeys, LinkKeys;
    KeysOfChannel(k, done, ch);
    assert map[k := net].Keys == {k};
    assert t.chans - (SubKeys({k}, k.outer, done) + {Key(k.node, ch, k.inner)})
        == t.chans - SubKeys({k}, k.outer, done) - {Key(k.node, ch, k.inner)};
    assert t.links - (LinkKeys({k}, k.outer, done) + {Key(k.node, k.inner, ch)})
        == t.links - LinkKeys({k}, k.outer, done) - {Key(k.node, k.inner, ch)};
  }

  lemma KeysOfClients(a: set<Key>, b: set<Key>, uid: Str, chs: set<Str>)
    ensures SubKeys(a + b, uid, chs) == SubKeys(a, uid, chs) + SubKeys(b, uid, chs)
    ensures LinkKeys(a + b, uid, chs) == LinkKeys(a, uid, chs) + LinkKeys(b, uid, chs)
  {}

  lemma SubscribeClients(t: Table, a: map<Key, Str>, b: map<Key, Str>, uid: Str, chs: set<Str>)
    ensures Subscribe(Subscribe(t, a, uid, chs), b, uid, chs) == Subscribe(t, a + b, uid, chs)
  {
    KeysOfClients(a.Keys, b.Keys, uid, chs);
    assert (a + b).Keys == a.Keys + b.Keys;
    PlacedClients(a, b, uid, chs);
    hide Placed, AreSubKeys, SubKeys, AreLinkKeys, LinkKeys;
    MergeAssoc(t.chans, Placed(a, uid, chs), Placed(b, uid, chs));
    assert t.links + (LinkKeys(a.Keys, uid, chs) + LinkKeys(b.Keys, uid, chs))
        == t.links + LinkKeys(a.Keys, uid, chs) + LinkKeys(b.Keys, uid, chs);
  }

  lemma UnsubscribeClients(t: Table, a: map<Key, Str>, b: map<Key, Str>, uid: Str, chs: set<Str>)
    ensures Unsubscribe(Unsubscribe(t, a, uid, chs), b, uid, chs) == Unsubscribe(t, a + b, uid, chs)
  {
    KeysOfClients(a.Keys, b.Keys, uid, chs);
    assert (a + b).Keys == a.Keys + b.Keys;
    hide AreSubKeys, SubKeys, AreLinkKeys, LinkKeys;
    assert t.chans - (SubKeys(a.Keys, uid, chs) + SubKeys(b.Keys, uid, chs))
        == t.chans - SubKeys(a.Keys, uid, chs) - SubKeys(b.Keys, uid, chs);
    assert t.links - (LinkKeys(a.Keys, uid, chs) + LinkKeys(b.Keys, uid, chs))
        == t.links - LinkKeys(a.Keys, uid, chs) - LinkKeys(b.Keys, uid, chs);
  }

  lemma SpreadSteps(t: Table, done: set<Node>, n: Node)
    ensures SpreadOver(SpreadOver(t, done), {n}) == SpreadOver(t, done + {n})
  {}

  lemma ClientsStep(users: map<Key, Str>, uid: Str, done: set<Node>, n: Node)
    ensures ClientsOn(users, uid, done + {n}) == ClientsOn(users, uid, done) + ClientsOn(users, uid, {n})
  {}

  /** The table when a join has visited the given nodes. */
  ghost function JoinOver(t: Table, uid: Str, chs: set<Str>, done: set<Node>): Table {
    Subscribe(SpreadOver(t, done), ClientsOn(t.users, uid, done), uid, chs)
  }

  lemma JoinStart(t: Table, uid: Str, chs: set<Str>)
    ensures JoinOver(t, uid, chs, {}) == t
  {
    assert SpreadOver(t, {}) == t && ClientsOn(t.users, uid, {}) == map[];
    SubscribeNone(t, map[], uid, chs);
  }

  /** Visiting one more node: first its two KeyMaps, then its clients. */
  lemma JoinNext(t: Table, uid: Str, chs: set<Str>, done: set<Node>, n: Node)
    ensures JoinOver(t, uid, chs, done + {n})
         == Subscribe(SpreadOver(JoinOver(t, uid, chs, done), {n}), ClientsOn(t.users, uid, {n}), uid, chs)
  {
    var a, b := ClientsOn(t.users, uid, done), ClientsOn(t.users, uid, {n});
    SpreadSteps(t, done, n);
    ClientsStep(t.users, uid, done, n);
    SubscribeClients(SpreadOver(t, done + {n}), a, b, uid, chs);
    assert SpreadOver(Subscribe(SpreadOver(t, done), a, uid, chs), {n})
        == Subscribe(SpreadOver(SpreadOver(t, done), {n}), a, uid, chs);
  }

  lemma JoinEnd(t: Table, uid: Str, channels: map<Str, Str>)
    requires forall k :: k in t.users ==> k.node in t.userNodes
    ensures JoinOver(t, uid, channels.Keys, t.userNodes) == Step(t, JoinChannel(uid, channels))
  {
    assert SpreadOver(t, t.userNodes) == Spread(t);
    assert ClientsOn(t.users, uid, t.userNodes) == ClientsOf(t.users, uid);
  }

  /** The table when a leave has visited the given nodes. */
  ghost function LeaveOver(t: Table, uid: Str, chs: set<Str>, done: set<Node>): Table {
    Unsubscribe(SpreadOver(t, done), ClientsOn(t.users, uid, done), uid, chs)
  }

  lemma LeaveStart(t: Table, uid: Str, chs: set<Str>)
    ensures LeaveOver(t, uid, chs, {}) == t
  {
    assert SpreadOver(t, {}) == t && ClientsOn(t.users, uid, {}) == map[];
    SubscribeNone(t, map[], uid, chs);
  }

  /** Visiting one more node: first its two KeyMaps, then its clients. */
  lemma LeaveNext(t: Table, uid: Str, chs: set<Str>, done: set<Node>, n: Node)
    ensures LeaveOver(t, uid, chs, done + {n})
         == Unsubscribe(SpreadOver(LeaveOver(t, uid, chs, done), {n}), ClientsOn(t.users, uid, {n}), uid, chs)
  {
    var a, b := ClientsOn(t.users, uid, done), ClientsOn(t.users, uid, {n});
    SpreadSteps(t, done, n);
    ClientsStep(t.users, uid, done, n);
    UnsubscribeClients(SpreadOver(t, done + {n}), a, b, uid, chs);
    assert SpreadOver(Unsubscribe(SpreadOver(t, done), a, uid, chs), {n})
        == Unsubscribe(SpreadOver(SpreadOver(t, done), {n}), a, uid, chs);
  }

  lemma LeaveEnd(t: Table, uid: Str, channels: map<Str, Str>)
    requires forall k :: k in t.users ==> k.node in t.userNodes
    ensures LeaveOver(t, uid, channels.Keys, t.userNodes) == Step(t, LeaveChannel(uid, channels))
  {
    assert SpreadOver(t, t.userNodes) == Spread(t);
    assert ClientsOn(t.users, uid, t.userNodes) == ClientsOf(t.users, uid);
  }

  /** The clients of one user on one node, less those still to be visited. */
  ghost function Handled(clients: map<Str, Str>, n: Node, uid: Str, todo: set<Str>): map<Key, Str> {
    map cid | cid in clients && cid !in todo :: Key(n, uid, cid) := clients[cid]
  }

  lemma HandledStart(clients: map<Str, Str>, n: Node, uid: Str)
    ensures Handled(clients, n, uid, clients.Keys) == map[]
  {}

  lemma HandledNext(clients: map<Str, Str>, n: Node, uid: Str, todo: set<Str>, cid: Str)
    requires cid in clients && cid in todo
    ensures Handled(clients, n, uid, todo - {cid})
         == Handled(clients, n, uid, todo) + map[Key(n, uid, cid) := clients[cid]]
  {}

  lemma HandledEnd(ix: Index<Str>, n: Node, uid: Str)
    requires n in ix
    ensures Handled(FieldsOf(ix, n, uid), n, uid, {}) == ClientsOn(Leaves(ix), uid, {n})
  {
    var r, c := Handled(FieldsOf(ix, n, uid), n, uid, {}), ClientsOn(Leaves(ix), uid, {n});
    forall k: Key ensures k in r <==> k in c {
      assert k in c <==> Has(ix, k) && k.outer == uid && k.node == n;
      if k in c { assert k == Key(n, uid, k.inner) && k.inner in FieldsOf(ix, n, uid); }
    }
    forall k | k in r ensures r[k] == c[k] {
      assert k == Key(n, uid, k.inner);
    }
  }

  lemma NoLeaf<T>(ix: Index<T>, k: Key)
    ensures k.node !in ix ==> Leaves(ix) - {k} == Leaves(ix) && Leaves(ix).Keys - {k} == Leaves(ix).Keys
  {}

  lemma NoListeners(ix: Index<()>, n: Node, cid: Str)
    requires n !in ix
    ensures Listeners(Leaves(ix).Keys, n, cid) == {}
  {}

  lemma NoChannelLeaves(ix: Index<Str>, links: set<Key>, n: Node, cid: Str)
    requires n !in ix
    ensures Leaves(ix) - Listeners(links, n, cid) == Leaves(ix)
  {}

  /** The channel→clients keys of one client under the given channels. */
  ghost function ChannelKeys(n: Node, cid: Str, chs: set<Str>): set<Key> { set ch | ch in chs :: Key(n, ch, cid) }

  lemma ListenersStart(m: map<Key, Str>, n: Node, cid: Str)
    ensures m - ChannelKeys(n, cid, {}) == m
  {}

  lemma ListenersNext(m: map<Key, Str>, n: Node, cid: Str, done: set<Str>, ch: Str)
    ensures m - ChannelKeys(n, cid, done + {ch}) == m - ChannelKeys(n, cid, done) - {Key(n, ch, cid)}
  {
    assert ChannelKeys(n, cid, done + {ch}) == ChannelKeys(n, cid, done) + {Key(n, ch, cid)};
  }

  lemma ListenersEnd(ix: Index<()>, n: Node, cid: Str)
    requires n in ix
    ensures ChannelKeys(n, cid, FieldsOf(ix, n, cid).Keys) == Listeners(Leaves(ix).Keys, n, cid)
  {
    forall s: Key
      ensures s in ChannelKeys(n, cid, FieldsOf(ix, n, cid).Keys) <==> s in Listeners(Leaves(ix).Keys, n, cid)
    {
      assert Key(n, cid, s.outer) in Leaves(ix) <==> Has(ix, Key(n, cid, s.outer));
      assert s == Key(s.node, s.outer, s.inner);
    }
  }

  lemma RemoveTable(x: Indexes, n: Node)
    requires TidyAll(x)
    ensures var x' := Indexes(x.users - {n}, x.chans - {n}, x.links - {n});
            TidyAll(x') && TableOf(x') == Remove(TableOf(x), n)
  {
    hide Tidy, Leaves, AreLeaves;
    RemoveLeaves(x.users, n);
    RemoveLeaves(x.chans, n);
    RemoveLeaves(x.links, n);
    assert Leaves(x.links - {n}).Keys == set k | k in Leaves(x.links).Keys && k.node != n;
  }

  class Broker {
    var userClients: Index<Str>
    var channelClients: Index<Str>
    var clientChannels: Index<()>

    ghost function View(): Indexes
      reads this
    {
      Indexes(userClients, channelClients, clientChannels)
    }

    /** No key of any index maps to an empty inner map. */
    ghost predicate Valid()
      reads this
    {
      TidyAll(View())
    }

    ghost function Entries(): Table
      reads this
    {
      TableOf(View())
    }

    constructor ()
      ensures Valid() && View() == NO_ENTRIES && Entries() == EMPTY
    {
      userClients, channelClients, clientChannels := map[], map[], map[];
      EmptyTable();
    }

    lemma Shape()
      ensures Entries().userNodes == userClients.Keys && Entries().users == Leaves(userClients)
      ensures forall k :: k in Entries().users ==> k.node in Entries().userNodes
    {}

    /** The two GetOrSet calls on the channel indexes. */
    method EnsureNode(n: Node)
      requires Valid()
      modifies this
      ensures Valid() && Entries() == SpreadOver(old(Entries()), {n})
      ensures n in channelClients && n in clientChannels && userClients == old(userClients)
    {
      EnsureLeaves(channelClients, n);
      EnsureLeaves(clientChannels, n);
      channelClients := Ensure(channelClients, n);
      clientChannels := Ensure(clientChannels, n);
    }

    /** The two SetKey calls for one client and one channel. */
    method AddSubscription(n: Node, ch: Str, cid: Str, net: Str)
      requires Valid() && n in channelClients && n in clientChannels
      modifies this
      ensures Valid() && Entries() == AddOne(old(Entries()), n, ch, cid, net)
      ensures n in channelClients && n in clientChannels && userClients == old(userClients)
    {
      SetKeyLeaves(channelClients, Key(n, ch, cid), net);
      SetKeyLeaves(clientChannels, Key(n, cid, ch), ());
      channelClients := channelClients[n := SetKey(channelClients[n], ch, cid, net)];
      clientChannels := clientChannels[n := SetKey(clientChannels[n], cid, ch, ())];
      assert Leaves(clientChannels).Keys == old(Leaves(clientChannels).Keys) + {Key(n, cid, ch)};
    }

    /** The two DeleteKey calls for one client and one channel. */
    method DropSubscription(n: Node, ch: Str, cid: Str)
      requires Valid() && n in channelClients && n in clientChannels
      modifies this
      ensures Valid() && Entries() == DropOne(old(Entries()), n, ch, cid)
      ensures n in channelClients && n in clientChannels && userClients == old(userClients)
    {
      DeleteKeyLeaves(channelClients, Key(n, ch, cid));
      DeleteKeyLeaves(clientChannels, Key(n, cid, ch));
      channelClients := channelClients[n := DeleteKey(channelClients[n], ch, cid)];
      clientChannels := clientChannels[n := DeleteKey(clientChannels[n], cid, ch)];
      assert Leaves(clientChannels).Keys == old(Leaves(clientChannels).Keys) - {Key(n, cid, ch)};
    }

    /** The innermost loop of an open or a join: all channels for one client. */
    method SubscribeClient(n: Node, ghost uid: Str, cid: Str, net: Str, channels: map<Str, Str>)
      requires Valid() && n in channelClients && n in clientChannels
      modifies this
      ensures Valid() && n in channelClients && n in clientChannels && userClients == old(userClients)
      ensures Entries() == Subscribe(old(Entries()), map[Key(n, uid, cid) := net], uid, channels.Keys)
    {
      hide *;
      ghost var t := Entries();
      ghost var k := Key(n, uid, cid);
      ghost var done: set<Str> := {};
      var todo := channels.Keys;
      SubscribeNone(t, map[k := net], uid, done);
      while todo != {}
        invariant Valid() && n in channelClients && n in clientChannels && userClients == old(userClients)
        invariant done + todo == channels.Keys
        invariant Entries() == Subscribe(t, map[k := net], uid, done)
      {
        var ch :| ch in todo;
        AddSubscription(n, ch, cid, net);
        SubscribeChannel(t, k, net, done, ch);
        done := done + {ch};
        todo := todo - {ch};
      }
      assert done == channels.Keys;
    }

    method UnsubscribeClient(n: Node, ghost uid: Str, cid: Str, ghost net: Str, channels: map<Str, Str>)
      requires Valid() && n in channelClients && n in clientChannels
      modifies this
      ensures Valid() && n in channelClients && n in clientChannels && userClients == old(userClients)
      ensures Entries() == Unsubscribe(old(Entries()), map[Key(n, uid, cid) := net], uid, channels.Keys)
    {
      hide *;
      ghost var t := Entries();
      ghost var k := Key(n, uid, cid);
      ghost var done: set<Str> := {};
      var todo := channels.Keys;
      SubscribeNone(t, map[k := net], uid, done);
      while todo != {}
        invariant Valid() && n in channelClients && n in clientChannels && userClients == old(userClients)
        invariant done + todo == channels.Keys
        invariant Entries() == Unsubscribe(t, map[k := net], uid, done)
      {
        var ch :| ch in todo;
        DropSubscription(n, ch, cid);
        UnsubscribeChannel(t, k, net, done, ch);
        done := done + {ch};
        todo := todo - {ch};
      }
      assert done == channels.Keys;
    }

    method UserOpenedOp(n: Node, uid: Str, cid: Str, net: Str, channels: map<Str, Str>)
      requires Valid()
      modifies this
      ensures Valid() && Entries() == Step(old(Entries()), UserOpened(n, uid, cid, net, channels))
    {
      EnsureLeaves(userClients, n);
      userClients := Ensure(userClients, n);
      EnsureNode(n);
      SetKeyLeaves(userClients, Key(n, uid, cid), net);
      userClients := userClients[n := SetKey(userClients[n], uid, cid, net)];
      assert Entries() == Open(old(Entries()), n, uid, cid, net);
      hide Subscribe, Open, TableOf;
      SubscribeClient(n, uid, cid, net, channels);
    }

    /** The loop of a close: the client leaves every channel its own entry lists. */
    method DropListeners(n: Node, cid: Str)
      requires Tidy(channelClients) && n in channelClients && n in clientChannels
      modifies this`channelClients
      ensures Tidy(channelClients) && channelClients.Keys == old(channelClients.Keys)
      ensures Leaves(channelClients)
           == old(Leaves(channelClients)) - Listeners(Leaves(clientChannels).Keys, n, cid)
    {
      hide *;
      var channels := FieldsOf(clientChannels, n, cid).Keys;
      var todo := channels;
      ghost var done: set<Str> := {};
      ghost var before := Leaves(channelClients);
      ListenersStart(before, n, cid);
      ListenersEnd(clientChannels, n, cid);
      while todo != {}
        invariant Tidy(channelClients) && channelClients.Keys == old(channelClients.Keys)
        invariant done + todo == channels
        invariant Leaves(channelClients) == before - ChannelKeys(n, cid, done)
      {
        var ch :| ch in todo;
        DeleteKeyLeaves(channelClients, Key(n, ch, cid));
        ListenersNext(before, n, cid, done, ch);
        channelClients := channelClients[n := DeleteKey(channelClients[n], ch, cid)];
        done := done + {ch};
        todo := todo - {ch};
      }
      assert done == channels;
    }

    /** The first step of a close. */
    method DropUser(n: Node, uid: Str, cid: Str)
      requires Tidy(userClients)
      modifies this`userClients
      ensures Tidy(userClients) && userClients.Keys == old(userClients.Keys)
      ensures Leaves(userClients) == old(Leaves(userClients)) - {Key(n, uid, cid)}
    {
      hide Tidy, DeleteKey;
      if n in userClients {
        DeleteKeyLeaves(userClients, Key(n, uid, cid));
        userClients := userClients[n := DeleteKey(userClients[n], uid, cid)];
      } else {
        NoLeaf(userClients, Key(n, uid, cid));
      }
    }

    /** The deferred last step of a close: the field deleted is named by the user id. */
    method DropLink(n: Node, uid: Str, cid: Str)
      requires Tidy(clientChannels) && n in clientChannels
      modifies this`clientChannels
      ensures Tidy(clientChannels) && clientChannels.Keys == old(clientChannels.Keys)
      ensures Leaves(clientChannels) == old(Leaves(clientChannels)) - {Key(n, cid, uid)}
    {
      hide Tidy, DeleteKey, Leaves, AreLeaves;
      DeleteKeyLeaves(clientChannels, Key(n, cid, uid));
      clientChannels := clientChannels[n := DeleteKey(clientChannels[n], cid, uid)];
    }

    method UserClosedOp(n: Node, uid: Str, cid: Str)
      requires Valid()
      modifies this
      ensures Valid() && Entries() == Step(old(Entries()), UserClosed(n, uid, cid))
    {
      hide Tidy, Leaves, AreLeaves, Listeners, AreListeners;
      ghost var t := Entries();
      ghost var gone := Listeners(t.links, n, cid);
      DropUser(n, uid, cid);
      if n !in clientChannels {
        NoLeaf(clientChannels, Key(n, cid, uid));
        NoListeners(clientChannels, n, cid);
        assert t.chans - {} == t.chans;
        return;
      }
      if n !in channelClients {
        NoChannelLeaves(channelClients, t.links, n, cid);
        DropLink(n, uid, cid);
        return;
      }
      DropListeners(n, cid);
      DropLink(n, uid, cid);
    }

    /** One node of a join: its KeyMaps, then every client the user has there. */
    method JoinNode(n: Node, uid: Str, channels: map<Str, Str>)
      requires Valid() && n in userClients
      modifies this
      ensures Valid() && userClients == old(userClients)
      ensures Entries() == Subscribe(SpreadOver(old(Entries()), {n}),
                                     ClientsOn(Leaves(userClients), uid, {n}), uid, channels.Keys)
    {
      hide *;
      EnsureNode(n);
      ghost var t := Entries();
      var clients := FieldsOf(userClients, n, uid);
      var todo := clients.Keys;
      HandledStart(clients, n, uid);
      SubscribeNone(t, map[], uid, channels.Keys);
      HandledEnd(userClients, n, uid);
      while todo != {}
        invariant Valid() && n in channelClients && n in clientChannels && userClients == old(userClients)
        invariant todo <= clients.Keys
        invariant Entries() == Subscribe(t, Handled(clients, n, uid, todo), uid, channels.Keys)
      {
        var cid :| cid in todo;
        SubscribeClient(n, uid, cid, clients[cid], channels);
        SubscribeClients(
          t, Handled(clients, n, uid, todo), map[Key(n, uid, cid) := clients[cid]], uid, channels.Keys);
        HandledNext(clients, n, uid, todo, cid);
        todo := todo - {cid};
      }
    }

    method JoinChannelOp(uid: Str, channels: map<Str, Str>)
      requires Valid()
      modifies this
      ensures Valid() && Entries() == Step(old(Entries()), JoinChannel(uid, channels))
    {
      hide *;
      Shape();
      ghost var t := Entries();
      ghost var done: set<Node> := {};
      var todo := userClients.Keys;
      JoinStart(t, uid, channels.Keys);
      JoinEnd(t, uid, channels);
      while todo != {}
        invariant Valid() && userClients == old(userClients)
        invariant done + todo == userClients.Keys
        invariant Entries() == JoinOver(t, uid, channels.Keys, done)
      {
        var n :| n in todo;
        JoinNode(n, uid, channels);
        JoinNext(t, uid, channels.Keys, done, n);
        done := done + {n};
        todo := todo - {n};
      }
      assert done == t.userNodes;
    }

    /** One node of a leave: its KeyMaps, then every client the user has there. */
    method LeaveNode(n: Node, uid: Str, channels: map<Str, Str>)
      requires Valid() && n in userClients
      modifies this
      ensures Valid() && userClients == old(userClients)
      ensures Entries() == Unsubscribe(SpreadOver(old(Entries()), {n}),
                                     ClientsOn(Leaves(userClients), uid, {n}), uid, channels.Keys)
    {
      hide *;
      EnsureNode(n);
      ghost var t := Entries();
      var clients := FieldsOf(userClients, n, uid);
      var todo := clients.Keys;
      HandledStart(clients, n, uid);
      SubscribeNone(t, map[], uid, channels.Keys);
      HandledEnd(userClients, n, uid);
      while todo != {}
        invariant Valid() && n in channelClients && n in clientChannels && userClients == old(userClients)
        invariant todo <= clients.Keys
        invariant Entries() == Unsubscribe(t, Handled(clients, n, uid, todo), uid, channels.Keys)
      {
        var cid :| cid in todo;
        UnsubscribeClient(n, uid, cid, clients[cid], channels);
        UnsubscribeClients(
          t, Handled(clients, n, uid, todo), map[Key(n, uid, cid) := clients[cid]], uid, channels.Keys);
        HandledNext(clients, n, uid, todo, cid);
        todo := todo - {cid};
      }
    }

    method LeaveChannelOp(uid: Str, channels: map<Str, Str>)
      requires Valid()
      modifies this
      ensures Valid() && Entries() == Step(old(Entries()), LeaveChannel(uid, channels))
    {
      hide *;
      Shape();
      ghost var t := Entries();
      ghost var done: set<Node> := {};
      var todo := userClients.Keys;
      LeaveStart(t, uid, channels.Keys);
      LeaveEnd(t, uid, channels);
      while todo != {}
        invariant Valid() && userClients == old(userClients)
        invariant done + todo == userClients.Keys
        invariant Entries() == LeaveOver(t, uid, channels.Keys, done)
      {
        var n :| n in todo;
        LeaveNode(n, uid, channels);
        LeaveNext(t, uid, channels.Keys, done, n);
        done := done + {n};
        todo := todo - {n};
      }
      assert done == t.userNodes;
    }

    /** The registry part of applyRemoveNode. */
    method ApplyRemoveNode(n: Node)
      requires Valid()
      modifies this
      ensures Valid() && Entries() == Step(old(Entries()), RemoveNode(n))
    {
      RemoveTable(View(), n);
      hide TidyAll, TableOf, Remove;
      userClients := userClients - {n};
      clientChannels := clientChannels - {n};
      channelClients := channelClients - {n};
    }

    method Apply(e: Event)
      requires Valid()
      modifies this
      ensures Valid() && Entries() == Step(old(Entries()), e)
    {
      hide Step;
      match e
      case UserOpened(n, uid, cid, net, channels) => UserOpenedOp(n, uid, cid, net, channels);
      case UserClosed(n, uid, cid) => UserClosedOp(n, uid, cid);
      case JoinChannel(uid, channels) => JoinChannelOp(uid, channels);
      case LeaveChannel(uid, channels) => LeaveChannelOp(uid, channels);
      case RemoveNode(n) => ApplyRemoveNode(n);
    }

    /** makeSnapshot: a dump of the three indexes. */
    method MakeSnapshot() returns (s: Indexes)
      requires Valid()
      ensures s == View() && TidyAll(s) && TableOf(s) == Entries()
    {
      var users := CopyIndex(userClients);
      var chans := CopyIndex(channelClients);
      var links := CopyIndex(clientChannels);
      s := Indexes(users, chans, links);
    }

    /** recoverFromSnapshot: the indexes are emptied and rebuilt from the dump. */
    method RecoverFromSnapshot(s: Indexes)
      requires TidyAll(s)
      modifies this
      ensures Valid() && View() == s && Entries() == TableOf(s)
    {
      userClients := CopyIndex(s.users);
      channelClients := CopyIndex(s.chans);
      clientChannels := CopyIndex(s.links);
    }
  }

  /** The doubly nested loop of both makeSnapshot and recoverFromSnapshot, in any order. */
  method CopyIndex<T>(ix: Index<T>) returns (r: Index<T>)
    ensures r == ix
  {
    r := map[];
    var nodes := ix.Keys;
    while nodes != {}
      invariant nodes <= ix.Keys && r.Keys == ix.Keys - nodes
      invariant forall n :: n in r ==> r[n] == ix[n]
    {
      var n :| n in nodes;
      r := Ensure(r, n);
      var keys := ix[n].Keys;
      while keys != {}
        invariant keys <= ix[n].Keys
        invariant n in r && r.Keys == ix.Keys - (nodes - {n}) && r[n].Keys == ix[n].Keys - keys
        invariant forall key :: key in r[n] ==> r[n][key] == ix[n][key]
        invariant forall x :: x in r && x != n ==> r[x] == ix[x]
      {
        var key :| key in keys;
        r := r[n := r[n][key := ix[n][key]]];
        keys := keys - {key};
      }
      nodes := nodes - {n};
    }
  }
}
