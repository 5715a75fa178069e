/**
 The routing registry of cluster/broker.go as a table of entries: user→clients,
 channel→clients and client→channels, each per node. `Step` is the effect of one
 committed log event on the table; module Broker proves that the nested maps and
 loops of the source have exactly this effect.
 */
module Registry {
  import opened Bytes

  type Node = nat

  /** One leaf of a node → outer → inner index. */
  datatype Key = Key(node: Node, outer: Str, inner: Str)

  /** The four proposed operations, and the removal of a node by a configuration change. */
  datatype Event =
    | UserOpened(node: Node, uid: Str, cid: Str, net: Str, channels: map<Str, Str>)
    | UserClosed(node: Node, uid: Str, cid: Str)
    | JoinChannel(uid: Str, channels: map<Str, Str>)
    | LeaveChannel(uid: Str, channels: map<Str, Str>)
    | RemoveNode(node: Node)

  /**
   `users` has (node, uid, cid) → network, `chans` has (node, channel, cid) → network,
   `links` has (node, cid, channel); each index also has its set of node ids.
   */
  datatype Table = Table(
    userNodes: set<Node>, chanNodes: set<Node>, linkNodes: set<Node>,
    users: map<Key, Str>, chans: map<Key, Str>, links: set<Key>)

  const EMPTY := Table({}, {}, {}, map[], map[], {})

  /** The entries of `users` that belong to one user, over all nodes. */
  ghost function ClientsOf(users: map<Key, Str>, uid: Str): (r: map<Key, Str>)
    ensures forall k :: k in r <==> k in users && k.outer == uid
    ensures forall k :: k in r ==> r[k] == users[k]
  {
    map k | k in users && k.outer == uid :: users[k]
  }

  ghost predicate AreSubKeys(r: set<Key>, clients: set<Key>, uid: Str, chs: set<Str>) {
    forall s: Key :: s in r <==> s.outer in chs && Key(s.node, uid, s.inner) in clients
  }

  /** The channel→clients keys of the given clients of one user. */
  ghost function SubKeys(clients: set<Key>, uid: Str, chs: set<Str>): (r: set<Key>)
    ensures AreSubKeys(r, clients, uid, chs)
  {
    set k, ch | k in clients && k.outer == uid && ch in chs :: Key(k.node, ch, k.inner)
  }

  ghost predicate AreLinkKeys(r: set<Key>, clients: set<Key>, uid: Str, chs: set<Str>) {
    forall s: Key :: s in r <==> s.inner in chs && Key(s.node, uid, s.outer) in clients
  }

  /** The client→channels keys of the given clients of one user. */
  ghost function LinkKeys(clients: set<Key>, uid: Str, chs: set<Str>): (r: set<Key>)
    ensures AreLinkKeys(r, clients, uid, chs)
  {
    set k, ch | k in clients && k.outer == uid && ch in chs :: Key(k.node, k.inner, ch)
  }

  /** The channel→clients entries of the given clients of one user, each with its network. */
  ghost function Placed(clients: map<Key, Str>, uid: Str, chs: set<Str>): map<Key, Str>
  {
    map s | s in SubKeys(clients.Keys, uid, chs) :: clients[Key(s.node, uid, s.inner)]
  }

  /** Both channel indexes after the clients have been put on the channels. */
  ghost function Subscribe(t: Table, clients: map<Key, Str>, uid: Str, chs: set<Str>): Table
  {
    t.(chans := t.chans + Placed(clients, uid, chs),
       links := t.links + LinkKeys(clients.Keys, uid, chs))
  }

  ghost function Unsubscribe(t: Table, clients: map<Key, Str>, uid: Str, chs: set<Str>): Table
  {
    t.(chans := t.chans - SubKeys(clients.Keys, uid, chs),
       links := t.links - LinkKeys(clients.Keys, uid, chs))
  }

  lemma PlacedAt(clients: map<Key, Str>, uid: Str, chs: set<Str>, k: Key)
    ensures k in Placed(clients, uid, chs) <==> k.outer in chs && Key(k.node, uid, k.inner) in clients
    ensures k in Placed(clients, uid, chs) ==>
              Placed(clients, uid, chs)[k] == clients[Key(k.node, uid, k.inner)]
  {}

  /** What subscribing does to one entry of each channel index. */
  lemma SubscribeAt(t: Table, clients: map<Key, Str>, uid: Str, chs: set<Str>, k: Key)
    ensures var t' := Subscribe(t, clients, uid, chs);
            var c := Key(k.node, uid, k.inner);
            && (k in t'.chans <==> k in t.chans || (k.outer in chs && c in clients))
            && (k in t'.chans ==> t'.chans[k] == if k.outer in chs && c in clients then clients[c] else t.chans[k])
            && (k in t'.links <==> k in t.links || (k.inner in chs && Key(k.node, uid, k.outer) in clients))
  {
    PlacedAt(clients, uid, chs, k);
    hide Placed;
  }

  /** What unsubscribing does to one entry of each channel index. */
  lemma UnsubscribeAt(t: Table, clients: map<Key, Str>, uid: Str, chs: set<Str>, k: Key)
    ensures var t' := Unsubscribe(t, clients, uid, chs);
            && (k in t'.chans <==> k in t.chans && !(k.outer in chs && Key(k.node, uid, k.inner) in clients))
            && (k in t'.chans ==> t'.chans[k] == t.chans[k])
            && (k in t'.links <==> k in t.links && !(k.inner in chs && Key(k.node, uid, k.outer) in clients))
  {}

  /** GetOrSet of a node in the two channel indexes for every node that has users. */
  ghost function Spread(t: Table): Table {
    t.(chanNodes := t.chanNodes + t.userNodes, linkNodes := t.linkNodes + t.userNodes)
  }

  ghost function Open(t: Table, n: Node, uid: Str, cid: Str, net: Str): Table {
    t.(userNodes := t.userNodes + {n}, chanNodes := t.chanNodes + {n}, linkNodes := t.linkNodes + {n},
       users := t.users[Key(n, uid, cid) := net])
  }

  ghost predicate AreListeners(r: set<Key>, links: set<Key>, n: Node, cid: Str) {
    forall s: Key :: s in r <==> s.node == n && s.inner == cid && Key(n, cid, s.outer) in links
  }

  /** The channel→clients keys that client→channels leads to from one client. */
  ghost function Listeners(links: set<Key>, n: Node, cid: Str): (r: set<Key>)
    ensures AreListeners(r, links, n, cid)
  {
    set k | k in links && k.node == n && k.outer == cid :: Key(n, k.inner, cid)
  }

  /**
   Closing removes the client from every channel that client→channels lists for it.
   What it then deletes from client→channels is the field named by the *user* id, so
   the client's other entries stay behind.
   */
  ghost function Close(t: Table, n: Node, uid: Str, cid: Str): Table {
    t.(users := t.users - {Key(n, uid, cid)},
       chans := t.chans - Listeners(t.links, n, cid),
       links := t.links - {Key(n, cid, uid)})
  }

  ghost function Remove(t: Table, n: Node): Table {
    Table(t.userNodes - {n}, t.chanNodes - {n}, t.linkNodes - {n},
          map k | k in t.users && k.node != n :: t.users[k],
          map k | k in t.chans && k.node != n :: t.chans[k],
          set k | k in t.links && k.node != n)
  }

  ghost function Step(t: Table, e: Event): Table {
    match e
    case UserOpened(n, uid, cid, net, channels) =>
      Subscribe(Open(t, n, uid, cid, net), map[Key(n, uid, cid) := net], uid, channels.Keys)
    case UserClosed(n, uid, cid) => Close(t, n, uid, cid)
    case JoinChannel(uid, channels) => Subscribe(Spread(t), ClientsOf(t.users, uid), uid, channels.Keys)
    case LeaveChannel(uid, channels) => Unsubscribe(Spread(t), ClientsOf(t.users, uid), uid, channels.Keys)
    case RemoveNode(n) => Remove(t, n)
  }

  /** What an open does to one entry of each channel index. */
  lemma OpenAt(t: Table, n: Node, uid: Str, cid: Str, net: Str, channels: map<Str, Str>, k: Key)
    ensures var t' := Step(t, UserOpened(n, uid, cid, net, channels));
            var hit := k.node == n && k.inner == cid && k.outer in channels;
            && (k in t'.chans <==> k in t.chans || hit)
            && (k in t'.chans ==> t'.chans[k] == if hit then net else t.chans[k])
            && (k in t'.links <==> k in t.links || (k.node == n && k.outer == cid && k.inner in channels))
  {
    hide Subscribe;
    SubscribeAt(Open(t, n, uid, cid, net), map[Key(n, uid, cid) := net], uid, channels.Keys, k);
  }

  ghost function StepAll(t: Table, log: seq<Event>): Table {
    if log == [] then t else Step(StepAll(t, log[..|log| - 1]), log[|log| - 1])
  }

  /** The registry after a log, from the empty one. */
  ghost function Replay(log: seq<Event>): Table { StepAll(EMPTY, log) }

  lemma ReplaySnoc(past: seq<Event>, e: Event)
    ensures Replay(past + [e]) == Step(Replay(past), e)
  {
    assert (past + [e])[..|past|] == past;
  }

  // ------------------------------------------------------- reachable states

  /** The channel→clients key and the client→channels key of the same subscription. */
  function Flip(k: Key): Key { Key(k.node, k.inner, k.outer) }

  ghost predicate Owned(users: map<Key, Str>, n: Node, cid: Str) {
    exists uid :: Key(n, uid, cid) in users
  }

  /** What every reachable registry satisfies. */
  ghost predicate Inv(t: Table) {
    && t.userNodes == t.chanNodes == t.linkNodes
    && (forall k :: k in t.users ==> k.node in t.userNodes)
    && (forall k :: k in t.chans ==> k.node in t.chanNodes)
    && (forall k :: k in t.links ==> k.node in t.linkNodes)
    && (forall k :: k in t.chans ==> Flip(k) in t.links)
    && (forall k :: k in t.chans ==> Owned(t.users, k.node, k.inner))
  }

  lemma OwnedStays(users: map<Key, Str>, users': map<Key, Str>, n: Node, cid: Str)
    requires Owned(users, n, cid)
    requires forall uid :: Key(n, uid, cid) in users ==> Key(n, uid, cid) in users'
    ensures Owned(users', n, cid)
  {
    var uid :| Key(n, uid, cid) in users;
    assert Key(n, uid, cid) in users';
  }

  lemma SubscribeInv(t: Table, clients: map<Key, Str>, uid: Str, chs: set<Str>)
    requires Inv(t) && forall k :: k in clients ==> k in t.users
    ensures Inv(Subscribe(t, clients, uid, chs))
  {
    var t' := Subscribe(t, clients, uid, chs);
    forall k ensures k in t'.chans ==>
        k.node in t'.chanNodes && Flip(k) in t'.links && Owned(t'.users, k.node, k.inner) {
      SubscribeAt(t, clients, uid, chs, k);
      SubscribeAt(t, clients, uid, chs, Flip(k));
      hide Subscribe;
      assert Key(k.node, uid, k.inner) in t.users ==> Owned(t.users, k.node, k.inner);
    }
    forall k ensures k in t'.links ==> k.node in t'.linkNodes {
      SubscribeAt(t, clients, uid, chs, k);
    }
  }

  lemma UnsubscribeInv(t: Table, clients: map<Key, Str>, uid: Str, chs: set<Str>)
    requires Inv(t)
    ensures Inv(Unsubscribe(t, clients, uid, chs))
  {
    var t' := Unsubscribe(t, clients, uid, chs);
    forall k ensures k in t'.chans ==> k in t.chans && Flip(k) in t'.links {
      UnsubscribeAt(t, clients, uid, chs, k);
      UnsubscribeAt(t, clients, uid, chs, Flip(k));
    }
    forall k ensures k in t'.links ==> k in t.links {
      UnsubscribeAt(t, clients, uid, chs, k);
    }
    hide Owned;
  }

  lemma OpenInv(t: Table, n: Node, uid: Str, cid: Str, net: Str)
    requires Inv(t)
    ensures Inv(Open(t, n, uid, cid, net))
  {
    forall k | k in t.chans ensures Owned(Open(t, n, uid, cid, net).users, k.node, k.inner) {
      OwnedStays(t.users, Open(t, n, uid, cid, net).users, k.node, k.inner);
    }
    hide Owned;
  }

  lemma CloseInv(t: Table, n: Node, uid: Str, cid: Str)
    requires Inv(t)
    ensures Inv(Close(t, n, uid, cid))
  {
    var t' := Close(t, n, uid, cid);
    forall k | k in t'.chans ensures Flip(k) in t'.links && Owned(t'.users, k.node, k.inner) {
      assert k in t.chans && Flip(k) in t.links;
      assert !(k.node == n && k.inner == cid);
      OwnedStays(t.users, t'.users, k.node, k.inner);
    }
    hide Owned;
  }

  lemma RemoveInv(t: Table, n: Node)
    requires Inv(t)
    ensures Inv(Remove(t, n))
  {
    var t' := Remove(t, n);
    forall k | k in t'.chans ensures Owned(t'.users, k.node, k.inner) {
      OwnedStays(t.users, t'.users, k.node, k.inner);
    }
    hide Owned;
  }

  /** Every event keeps the invariant. */
  lemma StepInv(t: Table, e: Event)
    requires Inv(t)
    ensures Inv(Step(t, e))
  {
    match e
    case UserOpened(n, uid, cid, net, channels) =>
      OpenInv(t, n, uid, cid, net);
      var t1 := Open(t, n, uid, cid, net);
      hide Inv, Subscribe;
      SubscribeInv(t1, map[Key(n, uid, cid) := net], uid, channels.Keys);
    case UserClosed(n, uid, cid) => hide Inv, Close; CloseInv(t, n, uid, cid);
    case JoinChannel(uid, channels) =>
      assert Spread(t) == t;
      hide Inv, Subscribe;
      SubscribeInv(t, ClientsOf(t.users, uid), uid, channels.Keys);
    case LeaveChannel(uid, channels) =>
      assert Spread(t) == t;
      hide Inv, Unsubscribe;
      UnsubscribeInv(t, ClientsOf(t.users, uid), uid, channels.Keys);
    case RemoveNode(n) => hide Inv, Remove; RemoveInv(t, n);
  }

  /** Every reachable registry satisfies the invariant. */
  lemma {:induction false} ReplayInv(log: seq<Event>)
    ensures Inv(Replay(log))
  {
    if log == [] {
    } else {
      ReplayInv(log[..|log| - 1]);
      StepInv(Replay(log[..|log| - 1]), log[|log| - 1]);
    }
  }

  /** After a close no channel of that node targets the client, whatever led up to it. */
  lemma CloseSilences(log: seq<Event>, n: Node, uid: Str, cid: Str, ch: Str)
    ensures Key(n, ch, cid) !in Replay(log + [UserClosed(n, uid, cid)]).chans
  {
    ReplayInv(log);
    ReplaySnoc(log, UserClosed(n, uid, cid));
    assert Key(n, ch, cid) in Replay(log).chans ==> Flip(Key(n, ch, cid)) in Replay(log).links;
  }

  // ------------------------------------------ the client→channels residue

  /** client→channels as it would be if it were exactly the inverse of channel→clients. */
  ghost function Mirror(chans: map<Key, Str>): (r: set<Key>)
    ensures forall k: Key :: k in r <==> Flip(k) in chans
  {
    set k | k in chans :: Flip(k)
  }

  ghost predicate Exact(t: Table) { t.links == Mirror(t.chans) }

  /** A registry that deletes the whole client entry when a client closes. */
  ghost function IdealStep(t: Table, e: Event): Table {
    match e
    case UserClosed(n, uid, cid) =>
      t.(users := t.users - {Key(n, uid, cid)},
         chans := t.chans - Listeners(t.links, n, cid),
         links := set k | k in t.links && !(k.node == n && k.outer == cid))
    case _ => Step(t, e)
  }

  ghost function IdealReplay(log: seq<Event>): Table {
    if log == [] then EMPTY else IdealStep(IdealReplay(log[..|log| - 1]), log[|log| - 1])
  }

  /** The real registry `t` answers every routing question as the ideal one `i` does. */
  ghost predicate Covers(t: Table, i: Table) {
    && t.(links := i.links) == i
    && i.links <= t.links
    && Exact(i)
  }

  lemma MirrorOf(links: set<Key>, chans: map<Key, Str>)
    requires forall k: Key :: k in links <==> Flip(k) in chans
    ensures links == Mirror(chans)
  {}

  lemma SubscribeExact(t: Table, clients: map<Key, Str>, uid: Str, chs: set<Str>)
    requires Exact(t)
    ensures Exact(Subscribe(t, clients, uid, chs)) && Exact(Unsubscribe(t, clients, uid, chs))
  {
    var sub, unsub := Subscribe(t, clients, uid, chs), Unsubscribe(t, clients, uid, chs);
    forall k: Key ensures k in sub.links <==> Flip(k) in sub.chans
      ensures k in unsub.links <==> Flip(k) in unsub.chans {
      SubscribeAt(t, clients, uid, chs, k);
      SubscribeAt(t, clients, uid, chs, Flip(k));
      UnsubscribeAt(t, clients, uid, chs, k);
      UnsubscribeAt(t, clients, uid, chs, Flip(k));
      hide Subscribe, Unsubscribe;
    }
    hide Subscribe, Unsubscribe, Mirror;
    MirrorOf(sub.links, sub.chans);
    MirrorOf(unsub.links, unsub.chans);
  }

  lemma SubscribeCovers(t: Table, i: Table, clients: map<Key, Str>, uid: Str, chs: set<Str>)
    requires Covers(t, i)
    ensures Covers(Subscribe(t, clients, uid, chs), Subscribe(i, clients, uid, chs))
    ensures Covers(Unsubscribe(t, clients, uid, chs), Unsubscribe(i, clients, uid, chs))
  {
    SubscribeExact(i, clients, uid, chs);
    hide Exact, Placed, SubKeys, AreSubKeys, LinkKeys, AreLinkKeys;
  }

  /** On the channels a reachable registry lists, following the real or the exact links is the same. */
  lemma CloseSameChans(t: Table, i: Table, n: Node, cid: Str)
    requires Inv(t) && Covers(t, i)
    ensures t.chans - Listeners(t.links, n, cid) == t.chans - Listeners(i.links, n, cid)
  {
    forall k | k in t.chans ensures k in Listeners(t.links, n, cid) <==> k in Listeners(i.links, n, cid) {
      assert Flip(k) in t.links && Flip(k) in i.links;
    }
    hide Inv, Covers, Listeners, AreListeners;
  }

  lemma CloseIdealExact(i: Table, n: Node, uid: Str, cid: Str)
    requires Exact(i)
    ensures Exact(IdealStep(i, UserClosed(n, uid, cid)))
  {
    var i' := IdealStep(i, UserClosed(n, uid, cid));
    forall k: Key ensures k in i'.links <==> Flip(k) in i'.chans {
      assert Flip(k) in i.chans <==> k in i.links;
    }
    hide Listeners, AreListeners;
    MirrorOf(i'.links, i'.chans);
  }

  lemma CloseCovers(t: Table, i: Table, n: Node, uid: Str, cid: Str)
    requires Inv(t) && Covers(t, i)
    ensures Covers(Close(t, n, uid, cid), IdealStep(i, UserClosed(n, uid, cid)))
  {
    CloseSameChans(t, i, n, cid);
    CloseIdealExact(i, n, uid, cid);
    hide Inv, Exact, Listeners, AreListeners;
  }

  lemma RemoveCovers(t: Table, i: Table, n: Node)
    requires Covers(t, i)
    ensures Covers(Remove(t, n), Remove(i, n))
  {
    MirrorOf(Remove(i, n).links, Remove(i, n).chans);
  }

  /** The ideal registry stays covered by the real one, whatever the event. */
  lemma IdealStepCovers(t: Table, i: Table, e: Event)
    requires Inv(t) && Covers(t, i)
    ensures Covers(Step(t, e), IdealStep(i, e))
  {
    match e
    case UserOpened(n, uid, cid, net, channels) =>
      assert Covers(Open(t, n, uid, cid, net), Open(i, n, uid, cid, net));
      hide Covers, Subscribe, Open;
      SubscribeCovers(Open(t, n, uid, cid, net), Open(i, n, uid, cid, net), map[Key(n, uid, cid) := net], uid,
                      channels.Keys);
    case UserClosed(n, uid, cid) => hide Covers, Close; CloseCovers(t, i, n, uid, cid);
    case JoinChannel(uid, channels) =>
      assert Covers(Spread(t), Spread(i)) && t.users == i.users;
      hide Covers, Subscribe, Spread;
      SubscribeCovers(Spread(t), Spread(i), ClientsOf(t.users, uid), uid, channels.Keys);
    case LeaveChannel(uid, channels) =>
      assert Covers(Spread(t), Spread(i)) && t.users == i.users;
      hide Covers, Unsubscribe, Spread;
      SubscribeCovers(Spread(t), Spread(i), ClientsOf(t.users, uid), uid, channels.Keys);
    case RemoveNode(n) => hide Covers, Remove; RemoveCovers(t, i, n);
  }

  /**
   The entries a close leaves behind in client→channels never show: after every log,
   user→clients, channel→clients and the node sets are those of the registry that
   keeps client→channels exact, and the real client→channels only ever has more.
   */
  lemma {:induction false} ResidueUnobservable(log: seq<Event>)
    ensures Covers(Replay(log), IdealReplay(log))
  {
    if log == [] {
    } else {
      var past := log[..|log| - 1];
      ResidueUnobservable(past);
      ReplayInv(past);
      IdealStepCovers(Replay(past), IdealReplay(past), log[|log| - 1]);
    }
  }

  lemma CloseExact(t: Table, n: Node, uid: Str, cid: Str)
    requires Inv(t) && Exact(t)
    ensures Exact(Close(t, n, uid, cid)) <==> forall ch :: Key(n, ch, cid) in t.chans ==> ch == uid
  {
    var t' := Close(t, n, uid, cid);
    if ch :| Key(n, ch, cid) in t.chans && ch != uid {
      var k := Key(n, cid, ch);
      assert Flip(k) in t.chans && k in t'.links && Flip(k) !in t'.chans;
    } else {
      MirrorOf(t'.links, t'.chans);
    }
  }

  /**
   Exactly when an event keeps client→channels exact: always, except that a close
   does so only if the client is on no channel other than one named like its user.
   */
  lemma StepExact(t: Table, e: Event)
    requires Inv(t) && Exact(t)
    ensures Exact(Step(t, e))
       <==> (e.UserClosed? ==> forall ch :: Key(e.node, ch, e.cid) in t.chans ==> ch == e.uid)
  {
    match e
    case UserOpened(n, uid, cid, net, channels) =>
      assert Exact(Open(t, n, uid, cid, net));
      hide Exact, Subscribe, Open;
      SubscribeExact(Open(t, n, uid, cid, net), map[Key(n, uid, cid) := net], uid, channels.Keys);
    case UserClosed(n, uid, cid) =>
      hide Exact, Close, Inv;
      CloseExact(t, n, uid, cid);
    case JoinChannel(uid, channels) =>
      assert Exact(Spread(t));
      hide Exact, Subscribe, Spread;
      SubscribeExact(Spread(t), ClientsOf(t.users, uid), uid, channels.Keys);
    case LeaveChannel(uid, channels) =>
      assert Exact(Spread(t));
      hide Exact, Unsubscribe, Spread;
      SubscribeExact(Spread(t), ClientsOf(t.users, uid), uid, channels.Keys);
    case RemoveNode(n) => MirrorOf(Remove(t, n).links, Remove(t, n).chans);
  }

  /**
   client→channels is not the inverse of channel→clients: after any log, a client that
   opens on a channel and closes is off the channel but keeps it in client→channels.
   */
  lemma ResidueStays(past: seq<Event>, n: Node, uid: Str, cid: Str, net: Str, ch: Str)
    requires ch != uid
    ensures var log := past + [UserOpened(n, uid, cid, net, map[ch := []])] + [UserClosed(n, uid, cid)];
            Key(n, cid, ch) in Replay(log).links && Key(n, ch, cid) !in Replay(log).chans
  {
    var open := UserOpened(n, uid, cid, net, map[ch := []]);
    var withClient := past + [open];
    ReplaySnoc(past, open);
    ReplaySnoc(withClient, UserClosed(n, uid, cid));
    CloseSilences(withClient, n, uid, cid, ch);
    var t := Open(Replay(past), n, uid, cid, net);
    SubscribeAt(t, map[Key(n, uid, cid) := net], uid, {ch}, Key(n, cid, ch));
    hide Replay, Subscribe, Open, Listeners, AreListeners;
    assert open.channels.Keys == {ch};
  }
}
