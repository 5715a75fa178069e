/**
 What the registry means in terms of the log alone: an entry is present exactly when
 the latest event that touches it is one that puts it there. The definitions below
 look only at the events of a log, never at a table.
 */
module History {
  import opened Bytes
  import opened Registry

  /** What one event does to one entry. */
  datatype Effect = Put(net: Str) | Drop | Untouched

  /** The latest effect that touches the entry puts it there with network `net`. */
  ghost predicate LatestPuts(effects: seq<Effect>, net: Str) {
    exists i :: PutsLast(effects, i, net)
  }

  ghost predicate PutsLast(effects: seq<Effect>, i: int, net: Str) {
    && 0 <= i < |effects|
    && effects[i] == Put(net)
    && forall j :: i < j < |effects| ==> effects[j] == Untouched
  }

  lemma LatestSnoc(effects: seq<Effect>, last: Effect, net: Str)
    ensures LatestPuts(effects + [last], net)
       <==> last == Put(net) || (last == Untouched && LatestPuts(effects, net))
  {
    var all := effects + [last];
    if last == Put(net) {
      assert PutsLast(all, |effects|, net);
    }
    if last == Untouched && LatestPuts(effects, net) {
      var i :| PutsLast(effects, i, net);
      assert PutsLast(all, i, net);
    }
    if LatestPuts(all, net) && last != Put(net) {
      var i :| PutsLast(all, i, net);
      assert i < |effects| && all[|effects|] == Untouched;
      assert forall j :: 0 <= j < |effects| ==> all[j] == effects[j];
      assert PutsLast(effects, i, net);
    }
  }

  /** The effect of an event on the ownership (node, uid, cid). */
  function UserEffect(e: Event, k: Key): Effect {
    match e
    case UserOpened(n, uid, cid, net, _) => if Key(n, uid, cid) == k then Put(net) else Untouched
    case UserClosed(n, uid, cid) => if Key(n, uid, cid) == k then Drop else Untouched
    case RemoveNode(n) => if n == k.node then Drop else Untouched
    case _ => Untouched
  }

  ghost function UserEffects(log: seq<Event>, k: Key): (r: seq<Effect>)
    ensures |r| == |log|
    ensures forall i :: 0 <= i < |log| ==> r[i] == UserEffect(log[i], k)
  {
    seq(|log|, i requires 0 <= i < |log| => UserEffect(log[i], k))
  }

  /** After `log`, user uid owns client cid on node n over network `net`: k is (n, uid, cid). */
  ghost predicate Owns(log: seq<Event>, k: Key, net: Str) { LatestPuts(UserEffects(log, k), net) }

  /** The effect of an event, after the events `past`, on the subscription (node, channel, cid). */
  ghost function ChanEffect(past: seq<Event>, e: Event, k: Key): Effect {
    match e
    case UserOpened(n, _, cid, net, channels) =>
      if n == k.node && cid == k.inner && k.outer in channels then Put(net) else Untouched
    case UserClosed(n, _, cid) => if n == k.node && cid == k.inner then Drop else Untouched
    case JoinChannel(uid, channels) =>
      if k.outer in channels && exists net :: Owns(past, Key(k.node, uid, k.inner), net)
      then var net :| Owns(past, Key(k.node, uid, k.inner), net); Put(net)
      else Untouched
    case LeaveChannel(uid, channels) =>
      if k.outer in channels && exists net :: Owns(past, Key(k.node, uid, k.inner), net) then Drop else Untouched
    case RemoveNode(n) => if n == k.node then Drop else Untouched
  }

  ghost function ChanEffects(log: seq<Event>, k: Key): (r: seq<Effect>)
    ensures |r| == |log|
    ensures forall i :: 0 <= i < |log| ==> r[i] == ChanEffect(log[..i], log[i], k)
  {
    seq(|log|, i requires 0 <= i < |log| => ChanEffect(log[..i], log[i], k))
  }

  lemma UserEffectsSnoc(past: seq<Event>, e: Event, k: Key)
    ensures UserEffects(past + [e], k) == UserEffects(past, k) + [UserEffect(e, k)]
  {}

  lemma ChanEffectsSnoc(past: seq<Event>, e: Event, k: Key)
    ensures ChanEffects(past + [e], k) == ChanEffects(past, k) + [ChanEffect(past, e, k)]
  {
    assert (past + [e])[..|past|] == past;
    assert forall i :: 0 <= i < |past| ==> (past + [e])[..i] == past[..i];
  }

  lemma OwnsSnoc(past: seq<Event>, e: Event, k: Key, net: Str)
    ensures Owns(past + [e], k, net)
       <==> UserEffect(e, k) == Put(net) || (UserEffect(e, k) == Untouched && Owns(past, k, net))
  {
    hide UserEffect, LatestPuts;
    UserEffectsSnoc(past, e, k);
    LatestSnoc(UserEffects(past, k), UserEffect(e, k), net);
  }

  /** The entry is in the index, with that network. */
  ghost predicate Lists(m: map<Key, Str>, k: Key, net: Str) { k in m && m[k] == net }

  lemma StepUsers(t: Table, e: Event, k: Key, net: Str)
    ensures Lists(Step(t, e).users, k, net)
       <==> UserEffect(e, k) == Put(net) || (UserEffect(e, k) == Untouched && Lists(t.users, k, net))
  {}

  /** user→clients equals the log: an entry is there iff its latest event is an open, with that network. */
  lemma {:induction false} UsersAreHistory(log: seq<Event>, k: Key, net: Str)
    ensures Lists(Replay(log).users, k, net) <==> Owns(log, k, net)
  {
    if log == [] {
      assert UserEffects(log, k) == [];
    } else {
      hide *;
      var past, e := log[..|log| - 1], log[|log| - 1];
      UsersAreHistory(past, k, net);
      assert past + [e] == log;
      ReplaySnoc(past, e);
      StepUsers(Replay(past), e, k, net);
      OwnsSnoc(past, e, k, net);
    }
  }

  lemma OwnerIsHistory(past: seq<Event>, k: Key)
    ensures k in Replay(past).users <==> exists net :: Owns(past, k, net)
    ensures forall net :: Owns(past, k, net) ==> k in Replay(past).users && Replay(past).users[k] == net
  {
    forall net ensures Lists(Replay(past).users, k, net) <==> Owns(past, k, net) {
      UsersAreHistory(past, k, net);
    }
    if k in Replay(past).users {
      assert Lists(Replay(past).users, k, Replay(past).users[k]);
    }
  }

  /** ChanEffect with ownership looked up in a table. */
  ghost function TableEffect(users: map<Key, Str>, e: Event, k: Key): Effect {
    match e
    case UserOpened(n, _, cid, net, channels) =>
      if n == k.node && cid == k.inner && k.outer in channels then Put(net) else Untouched
    case UserClosed(n, _, cid) => if n == k.node && cid == k.inner then Drop else Untouched
    case RemoveNode(n) => if n == k.node then Drop else Untouched
    case JoinChannel(uid, channels) =>
      var owner := Key(k.node, uid, k.inner);
      if k.outer in channels && owner in users then Put(users[owner]) else Untouched
    case LeaveChannel(uid, channels) =>
      if k.outer in channels && Key(k.node, uid, k.inner) in users then Drop else Untouched
  }

  lemma EffectsAgree(past: seq<Event>, e: Event, k: Key)
    ensures ChanEffect(past, e, k) == TableEffect(Replay(past).users, e, k)
  {
    hide Replay, Owns;
    if e.JoinChannel? || e.LeaveChannel? {
      OwnerIsHistory(past, Key(k.node, e.uid, k.inner));
    }
  }

  /** One event's effect on one entry of an index. */
  ghost predicate Follows(f: Effect, before: map<Key, Str>, after: map<Key, Str>, k: Key, net: Str) {
    Lists(after, k, net) <==> f == Put(net) || (f == Untouched && Lists(before, k, net))
  }

  lemma OpenChans(t: Table, e: Event, k: Key, net: Str)
    requires e.UserOpened?
    ensures Follows(TableEffect(t.users, e, k), t.chans, Step(t, e).chans, k, net)
  {
    hide Step;
    OpenAt(t, e.node, e.uid, e.cid, e.net, e.channels, k);
  }

  lemma CloseChans(t: Table, e: Event, k: Key, net: Str)
    requires Inv(t) && e.UserClosed?
    ensures Follows(TableEffect(t.users, e, k), t.chans, Step(t, e).chans, k, net)
  {
    assert k in t.chans ==> Flip(k) in t.links;
    hide Inv;
  }

  lemma JoinChans(t: Table, e: Event, k: Key, net: Str)
    requires e.JoinChannel?
    ensures Follows(TableEffect(t.users, e, k), t.chans, Step(t, e).chans, k, net)
  {
    hide Subscribe;
    SubscribeAt(Spread(t), ClientsOf(t.users, e.uid), e.uid, e.channels.Keys, k);
  }

  lemma LeaveChans(t: Table, e: Event, k: Key, net: Str)
    requires e.LeaveChannel?
    ensures Follows(TableEffect(t.users, e, k), t.chans, Step(t, e).chans, k, net)
  {
    hide Unsubscribe;
    UnsubscribeAt(Spread(t), ClientsOf(t.users, e.uid), e.uid, e.channels.Keys, k);
  }

  lemma RemoveChans(t: Table, e: Event, k: Key, net: Str)
    requires e.RemoveNode?
    ensures Follows(TableEffect(t.users, e, k), t.chans, Step(t, e).chans, k, net)
  {}

  lemma StepChans(t: Table, e: Event, k: Key, net: Str)
    requires Inv(t)
    ensures Follows(TableEffect(t.users, e, k), t.chans, Step(t, e).chans, k, net)
  {
    hide *;
    match e
    case UserOpened(_, _, _, _, _) => OpenChans(t, e, k, net);
    case UserClosed(_, _, _) => CloseChans(t, e, k, net);
    case JoinChannel(_, _) => JoinChans(t, e, k, net);
    case LeaveChannel(_, _) => LeaveChans(t, e, k, net);
    case RemoveNode(_) => RemoveChans(t, e, k, net);
  }

  /**
   channel→clients equals the log: client cid on node n is listed under channel ch
   exactly when the latest event touching the three is an open naming ch or a join by
   a user then owning cid on n, and the stored network is that event's.
   */
  lemma {:induction false} ChannelsAreHistory(log: seq<Event>, k: Key, net: Str)
    ensures Lists(Replay(log).chans, k, net) <==> LatestPuts(ChanEffects(log, k), net)
  {
    if log == [] {
      assert ChanEffects(log, k) == [];
    } else {
      hide Replay, Step, Inv, Lists, TableEffect, ChanEffect, ChanEffects, LatestPuts;
      var past, e := log[..|log| - 1], log[|log| - 1];
      ChannelsAreHistory(past, k, net);
      assert past + [e] == log;
      ReplaySnoc(past, e);
      ReplayInv(past);
      EffectsAgree(past, e, k);
      StepChans(Replay(past), e, k, net);
      ChanEffectsSnoc(past, e, k);
      LatestSnoc(ChanEffects(past, k), ChanEffect(past, e, k), net);
    }
  }

  // ------------------------------------------------ client→channels and nodes

  /** The effect of an event, after the events `past`, on the client→channels entry (node, cid, channel). */
  ghost function LinkEffect(past: seq<Event>, e: Event, k: Key): Effect {
    match e
    case UserOpened(n, _, cid, _, channels) =>
      if n == k.node && cid == k.outer && k.inner in channels then Put([]) else Untouched
    case UserClosed(n, uid, cid) => if Key(n, cid, uid) == k then Drop else Untouched
    case JoinChannel(uid, channels) =>
      if k.inner in channels && exists net :: Owns(past, Key(k.node, uid, k.outer), net) then Put([]) else Untouched
    case LeaveChannel(uid, channels) =>
      if k.inner in channels && exists net :: Owns(past, Key(k.node, uid, k.outer), net) then Drop else Untouched
    case RemoveNode(n) => if n == k.node then Drop else Untouched
  }

  ghost function LinkEffects(log: seq<Event>, k: Key): (r: seq<Effect>)
    ensures |r| == |log|
    ensures forall i :: 0 <= i < |log| ==> r[i] == LinkEffect(log[..i], log[i], k)
  {
    seq(|log|, i requires 0 <= i < |log| => LinkEffect(log[..i], log[i], k))
  }

  lemma LinkEffectsSnoc(past: seq<Event>, e: Event, k: Key)
    ensures LinkEffects(past + [e], k) == LinkEffects(past, k) + [LinkEffect(past, e, k)]
  {
    assert (past + [e])[..|past|] == past;
    assert forall i :: 0 <= i < |past| ==> (past + [e])[..i] == past[..i];
  }

  lemma StepLinks(past: seq<Event>, e: Event, k: Key)
    ensures var f := LinkEffect(past, e, k);
            k in Step(Replay(past), e).links <==> f == Put([]) || (f == Untouched && k in Replay(past).links)
  {
    hide Replay, Owns, Subscribe, Unsubscribe;
    var t := Replay(past);
    match e
    case UserOpened(n, uid, cid, net, channels) =>
      hide Step;
      OpenAt(t, n, uid, cid, net, channels, k);
    case JoinChannel(uid, channels) =>
      OwnerIsHistory(past, Key(k.node, uid, k.outer));
      SubscribeAt(Spread(t), ClientsOf(t.users, uid), uid, channels.Keys, k);
    case LeaveChannel(uid, channels) =>
      OwnerIsHistory(past, Key(k.node, uid, k.outer));
      UnsubscribeAt(Spread(t), ClientsOf(t.users, uid), uid, channels.Keys, k);
    case _ =>
  }

  /** client→channels equals the log, but a close only takes out the channel named like the user. */
  lemma {:induction false} LinksAreHistory(log: seq<Event>, k: Key)
    ensures k in Replay(log).links <==> LatestPuts(LinkEffects(log, k), [])
  {
    if log == [] {
      assert LinkEffects(log, k) == [];
    } else {
      hide *;
      var past, e := log[..|log| - 1], log[|log| - 1];
      LinksAreHistory(past, k);
      assert past + [e] == log;
      ReplaySnoc(past, e);
      StepLinks(past, e, k);
      LinkEffectsSnoc(past, e, k);
      LatestSnoc(LinkEffects(past, k), LinkEffect(past, e, k), []);
    }
  }

  function NodeEffect(e: Event, n: Node): Effect {
    if e.UserOpened? && e.node == n then Put([])
    else if e.RemoveNode? && e.node == n then Drop
    else Untouched
  }

  ghost function NodeEffects(log: seq<Event>, n: Node): (r: seq<Effect>)
    ensures |r| == |log|
    ensures forall i :: 0 <= i < |log| ==> r[i] == NodeEffect(log[i], n)
  {
    seq(|log|, i requires 0 <= i < |log| => NodeEffect(log[i], n))
  }

  lemma NodeEffectsSnoc(past: seq<Event>, e: Event, n: Node)
    ensures NodeEffects(past + [e], n) == NodeEffects(past, n) + [NodeEffect(e, n)]
  {}

  lemma StepNodes(t: Table, e: Event, n: Node)
    ensures n in Step(t, e).userNodes
       <==> NodeEffect(e, n) == Put([]) || (NodeEffect(e, n) == Untouched && n in t.userNodes)
  {}

  /** All three indexes know a node exactly when a client opened on it after its latest removal. */
  lemma {:induction false} NodesAreHistory(log: seq<Event>, n: Node)
    ensures n in Replay(log).userNodes <==> LatestPuts(NodeEffects(log, n), [])
    ensures n in Replay(log).chanNodes <==> n in Replay(log).userNodes
    ensures n in Replay(log).linkNodes <==> n in Replay(log).userNodes
  {
    ReplayInv(log);
    if log == [] {
      assert NodeEffects(log, n) == [];
    } else {
      hide Replay, Step, LatestPuts, NodeEffect, NodeEffects;
      var past, e := log[..|log| - 1], log[|log| - 1];
      NodesAreHistory(past, n);
      assert past + [e] == log;
      ReplaySnoc(past, e);
      StepNodes(Replay(past), e, n);
      NodeEffectsSnoc(past, e, n);
      LatestSnoc(NodeEffects(past, n), NodeEffect(e, n), []);
    }
  }
}
