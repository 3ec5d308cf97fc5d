/** The handlers that join, leave and read, on one node's tables and connections: they
    take the steps of `ClusterReplicas`. */
module ReplicaHandlers {
  import opened Protocol
  import opened Tables
  import opened Connection
  import opened Namespaces
  import opened RedisStore
  import opened ClusterReplicas
  import P = ClusterPresence
  import Replicas
  import Subscriptions

  /** `members` are the clients the world has on node `n`, and each of them has made its
      copy of its mail, or is flagged. */
  ghost predicate Mirrors(n: NodeId, c: Channel, conns: ConnTable, members: set<SocketId>, copies: map<P.Seat, Copy>) {
    && (forall s :: s in members <==> (n, s) in copies)
    && (forall s :: s in members ==> s in conns && Replicas.InSync(conns[s], c, copies[(n, s)]))
  }

  ghost function OnNode(n: NodeId, s: Option<SocketId>): Option<P.Seat> { if s.Some? then Some((n, s.value)) else None }

  /** Sending the message to the channel tells its clients. */
  lemma FanOutTells(n: NodeId, c: Channel, conns: ConnTable, members: set<SocketId>, copies: map<P.Seat, Copy>,
                    note: Note, except: Option<SocketId>)
    requires Mirrors(n, c, conns, members, copies)
    ensures Mirrors(n, c, Subscriptions.FanOut(conns, members, Mail(c, note), except), members,
                    Tell(copies, n, Some(note), OnNode(n, except)))
  {
    var told := Tell(copies, n, Some(note), OnNode(n, except));
    hide Enqueue, Replicas.Replica, Replicas.Apply, Say;
    forall s | s in members
      ensures Replicas.InSync(Subscriptions.FanOut(conns, members, Mail(c, note), except)[s], c, told[(n, s)])
    {
      Replicas.EnqueueApplies(conns[s], Mail(c, note), c);
      NoteIsMessage(copies[(n, s)], c, note);
    }
  }

  /** A handler's mail: the newcomer's snapshot, and its news to the others. */
  lemma JoinedMirrors(n: NodeId, c: Channel, conns: ConnTable, members: set<SocketId>, w: World, s: SocketId, u: UserId,
                      info: Info, max: nat)
    requires Mirrors(n, c, conns, members, w.copies) && s in conns && P.Possible(w.cluster, P.Join((n, s), u, info))
    requires !Refuses(w.cluster.hashes, u, max) && s !in members
    ensures var news, list := News(w.cluster, P.Join((n, s), u, info), max), Added(w.cluster.hashes, u, info).presence;
            var greeted := conns[s := Enqueue(WithPresence(conns[s], c, u, info), PresenceSnapshot(c, list))];
            var told := if news.None? then greeted
              else Subscriptions.FanOut(greeted, members + {s}, Mail(c, news.value), Some(s));
            Mirrors(n, c, told, members + {s}, CopiesAfter(w, P.Join((n, s), u, info), max))
  {
    var news, list := News(w.cluster, P.Join((n, s), u, info), max), Added(w.cluster.hashes, u, info).presence;
    var greeted := conns[s := Enqueue(WithPresence(conns[s], c, u, info), PresenceSnapshot(c, list))];
    var copies := w.copies[(n, s) := list];
    GreetedMirrors(n, c, conns, members, w.copies, s, u, info, list);
    hide Mirrors, Added, Count, Refuses, Subscriptions.FanOut, Enqueue, WithPresence, Replicas.InSync;
    if news.Some? {
      FanOutTells(n, c, greeted, members + {s}, copies, news.value, Some(s));
    }
    NewcomersCopies(w, n, s, u, info, max);
  }

  lemma GreetedMirrors(n: NodeId, c: Channel, conns: ConnTable, members: set<SocketId>, copies: map<P.Seat, Copy>,
                       s: SocketId, u: UserId, info: Info, list: Copy)
    requires Mirrors(n, c, conns, members, copies) && s in conns && s !in members
    ensures var greeted := conns[s := Enqueue(WithPresence(conns[s], c, u, info), PresenceSnapshot(c, list))];
            Mirrors(n, c, greeted, members + {s}, copies[(n, s) := list])
  {
    hide Enqueue, WithPresence, Replicas.InSync;
    Replicas.SnapshotSyncs(WithPresence(conns[s], c, u, info), c, list);
  }

  lemma NewcomersCopies(w: World, n: NodeId, s: SocketId, u: UserId, info: Info, max: nat)
    requires P.Possible(w.cluster, P.Join((n, s), u, info)) && !Refuses(w.cluster.hashes, u, max)
    ensures var news, list := News(w.cluster, P.Join((n, s), u, info), max), Added(w.cluster.hashes, u, info).presence;
            Tell(w.copies[(n, s) := list], n, news, Some((n, s))) == CopiesAfter(w, P.Join((n, s), u, info), max)
    ensures News(w.cluster, P.Join((n, s), u, info), max) == None ==>
              CopiesAfter(w, P.Join((n, s), u, info), max)
                == w.copies[(n, s) := Added(w.cluster.hashes, u, info).presence]
  {
    hide Added, Count, Refuses;
    var copies := w.copies[(n, s) := Added(w.cluster.hashes, u, info).presence];
    if News(w.cluster, P.Join((n, s), u, info), max) == None {
      assert Tell(copies, n, None, Some((n, s))) == copies && Tell(w.copies, n, None, Some((n, s))) == w.copies;
    }
  }

  lemma LeftMirrors(n: NodeId, c: Channel, conns: ConnTable, members: set<SocketId>, w: World, s: SocketId, max: nat)
    requires Mirrors(n, c, conns, members, w.copies) && s in conns && P.Possible(w.cluster, P.Leave((n, s)))
    ensures var news := News(w.cluster, P.Leave((n, s)), max);
            var forgot := conns[s := conns[s].(presence := conns[s].presence - {c})];
            var told := if news.None? then forgot
              else Subscriptions.FanOut(forgot, members, Mail(c, news.value), Some(s));
            && s in told
            && Mirrors(n, c, told[s := told[s].(channels := told[s].channels - {c})], members - {s},
                       CopiesAfter(w, P.Leave((n, s)), max))
  {
    var news := News(w.cluster, P.Leave((n, s)), max);
    var forgot := conns[s := conns[s].(presence := conns[s].presence - {c})];
    assert Mirrors(n, c, forgot, members, w.copies);
    if news.Some? {
      FanOutTells(n, c, forgot, members, w.copies, news.value, Some(s));
    } else {
      assert Tell(w.copies, n, news, Some((n, s))) == w.copies;
    }
  }

  lemma ReadMirrors(n: NodeId, c: Channel, conns: ConnTable, members: set<SocketId>, w: World, except: Option<SocketId>,
                    max: nat)
    requires Mirrors(n, c, conns, members, w.copies) && Possible(w, Read(n))
    requires except.Some? ==> except.value !in members
    ensures var p := w.posted[w.cursors[n]];
            var told := if p.sender == n then conns
              else Subscriptions.FanOut(conns, members, Mail(c, p.note), except);
            Mirrors(n, c, told, members, Next(w, Read(n), max).copies)
  {
    var p := w.posted[w.cursors[n]];
    if p.sender != n {
      FanOutTells(n, c, conns, members, w.copies, p.note, except);
      assert Tell(w.copies, n, Some(p.note), OnNode(n, except)) == Tell(w.copies, n, Some(p.note), None);
    }
  }

  // -- the handlers --------------------------------------------------------------------------------------

  ghost predicate Stands(a: RedisAdapter, c: Channel, w: World)
    reads a.local, a.local.sockets.Values, a.redis`presence, a.redis`psock
  {
    && a.local.Valid() && a.redis.Hashed(c) == w.cluster.hashes && P.OwnSeats(a, c, w.cluster.seats)
    && Mirrors(a.nodeId, c, a.local.Conns(), At(a.local.channels, c), w.copies)
  }

  /** The envelope of a handler's news goes out, or none if it has none. */
  ghost predicate Sent(n: NodeId, c: Channel, e: Option<Envelope>, note: Option<Note>, s: SocketId) {
    e == if note.Some? then Some(Envelope(n, c, Mail(c, note.value), Some(s))) else None
  }

  lemma ValidIsKeyed(local: Namespace)
    requires local.Valid()
    ensures local.Keyed()
  {
  }

  lemma ChannelAfter(t: Tables, s: SocketId, c: Channel)
    ensures At(After(t, Call.AddToChannel(s, c)).channels, c) == At(t.channels, c) + {s}
    ensures At(After(t, Call.RemoveFromChannel(s, c)).channels, c) == At(t.channels, c) - {s}
  {
  }

  lemma RefusedCopies(w: World, step: P.Step, max: nat)
    requires P.Possible(w.cluster, step) && step.Join? && Refuses(w.cluster.hashes, step.user, max)
    ensures CopiesAfter(w, step, max) == w.copies
  {
  }

  /** The newcomer is put on the channel and sent the list; the others are told if it is
      a new user. */
  method Greet(a: RedisAdapter, c: Channel, conn: WsConnection, u: UserId, info: Info, list: Copy, isNew: bool)
    returns (e: Option<Envelope>)
    requires a.local.Valid() && a.local.Registered(conn)
    modifies a.local`channels, a.local`socketChannels
    modifies a.local.sockets.Values`queue, a.local.sockets.Values`forceClose, a.local.sockets.Values`log
    modifies conn`subscribedChannels, conn`presence
    ensures a.local.Valid() && At(a.local.channels, c) == At(old(a.local.channels), c) + {conn.socketId}
    ensures e == if isNew then Some(Envelope(a.nodeId, c, MemberAdded(c, u, info), Some(conn.socketId))) else None
    ensures conn.socketId in old(a.local.Conns())
    ensures var s, was := conn.socketId, old(a.local.Conns());
            var greeted := was[s := Enqueue(WithPresence(was[s], c, u, info), PresenceSnapshot(c, list))];
            a.local.Conns() == if !isNew then greeted
              else Subscriptions.FanOut(greeted, At(a.local.channels, c), MemberAdded(c, u, info), Some(s))
  {
    hide Namespace.Valid, Namespace.Conns, After, WsConnection.View, Subscriptions.FanOut;
    ghost var s, was := conn.socketId, a.local.Conns();
    ValidIsKeyed(a.local);
    a.local.Listed(conn);
    ChannelAfter(a.local.View(), s, c);
    var _ := a.local.AddToChannel(conn.socketId, c);
    a.local.NotePresence(conn, c, u, info);
    a.local.Listed(conn);
    a.local.SendTo(conn, PresenceSnapshot(c, list));
    assert a.local.Conns() == was[s := Enqueue(WithPresence(was[s], c, u, info), PresenceSnapshot(c, list))];
    e := None;
    if isNew {
      var sent := a.SendToChannel(c, MemberAdded(c, u, info), Some(conn.socketId));
      e := Some(sent);
    }
  }

  /** What a subscription to a presence channel does once it is authorised. */
  method JoinOn(a: RedisAdapter, c: Channel, conn: WsConnection, u: UserId, info: Info, max: nat, ghost w: World)
    returns (ok: bool, e: Option<Envelope>)
    requires Stands(a, c, w) && a.local.Registered(conn)
    requires Possible(w, Act(P.Join((a.nodeId, conn.socketId), u, info)))
    requires conn.socketId !in At(a.local.channels, c)
    modifies a.local`presence, a.local`channels, a.local`socketChannels, a.redis`presence, a.redis`psock
    modifies a.local.sockets.Values`queue, a.local.sockets.Values`forceClose, a.local.sockets.Values`log
    modifies conn`subscribedChannels, conn`presence
    ensures ok <==> u in w.cluster.hashes.presence || |w.cluster.hashes.presence| < max
    ensures conn.socketId in old(a.local.Conns())
    ensures var s, was, members := conn.socketId, old(a.local.Conns()), At(old(a.local.channels), c) + {conn.socketId};
            var list := a.redis.Hashed(c).presence;
            var greeted := was[s := Enqueue(WithPresence(was[s], c, u, info), PresenceSnapshot(c, list))];
            a.local.Conns() ==
              if !ok then was
              else if e == None then greeted
              else Subscriptions.FanOut(greeted, members, MemberAdded(c, u, info), Some(s))
    ensures Stands(a, c, Next(w, Act(P.Join((a.nodeId, conn.socketId), u, info)), max))
    ensures Sent(a.nodeId, c, e, News(w.cluster, P.Join((a.nodeId, conn.socketId), u, info), max), conn.socketId)
  {
    hide Namespace.Valid, Namespace.Conns, Redis.Hashed, P.OwnSeats, Mirrors, CopiesAfter, WsConnection.View;
    hide Subscriptions.FanOut;
    ghost var conns, members := a.local.Conns(), At(a.local.channels, c);
    a.local.Listed(conn);
    var r := P.JoinOn(a, c, conn.socketId, u, info, max, w.cluster);
    ok := r.Some?;
    if ok {
      JoinedMirrors(a.nodeId, c, conns, members, w, conn.socketId, u, info, max);
      e := Greet(a, c, conn, u, info, r.value.1, r.value.0);
    } else {
      RefusedCopies(w, P.Join((a.nodeId, conn.socketId), u, info), max);
      e := None;
    }
  }

  /** The others are told if the user is gone, and the leaver is taken off the channel. */
  method Part(a: RedisAdapter, c: Channel, conn: WsConnection, u: UserId, gone: bool) returns (e: Option<Envelope>)
    requires a.local.Valid() && a.local.Registered(conn)
    modifies a.local`channels, a.local`socketChannels, conn`subscribedChannels
    modifies a.local.sockets.Values`queue, a.local.sockets.Values`forceClose, a.local.sockets.Values`log
    ensures a.local.Valid() && At(a.local.channels, c) == At(old(a.local.channels), c) - {conn.socketId}
    ensures e == if gone then Some(Envelope(a.nodeId, c, MemberRemoved(c, u), Some(conn.socketId))) else None
    ensures conn.socketId in old(a.local.Conns())
    ensures var s, was, members := conn.socketId, old(a.local.Conns()), At(old(a.local.channels), c);
            var told := if !gone then was else Subscriptions.FanOut(was, members, MemberRemoved(c, u), Some(s));
            a.local.Conns() == told[s := was[s].(channels := was[s].channels - {c})]
  {
    hide Namespace.Valid, Namespace.Conns, After, WsConnection.View;
    ghost var s, was := conn.socketId, a.local.Conns();
    ValidIsKeyed(a.local);
    a.local.Listed(conn);
    ChannelAfter(a.local.View(), s, c);
    e := None;
    if gone {
      var sent := a.SendToChannel(c, MemberRemoved(c, u), Some(conn.socketId));
      e := Some(sent);
    }
    assert a.local.Conns()[s] == was[s];
    a.local.Listed(conn);
    a.local.ForgetChannel(conn, c);
    var _ := a.local.RemoveFromChannel(conn.socketId, c);
  }

  /** The leaver is spared, so its own record may be changed before or after. */
  lemma SparedByFanOut(conns: ConnTable, s: SocketId, record: Conn, members: set<SocketId>, m: Message, last: Conn)
    requires s in conns
    ensures Subscriptions.FanOut(conns[s := record], members, m, Some(s))[s := last]
         == Subscriptions.FanOut(conns, members, m, Some(s))[s := last]
    ensures Subscriptions.FanOut(conns[s := record], members, m, Some(s))[s] == record
    ensures conns[s := record][s := last] == conns[s := last]
  {
  }

  /** What an unsubscription does; the sender's envelope says who left. */
  method LeaveOn(a: RedisAdapter, c: Channel, conn: WsConnection, u: UserId, max: nat, ghost w: World)
    returns (e: Option<Envelope>)
    requires Stands(a, c, w) && a.local.Registered(conn)
    requires c in conn.presence && conn.presence[c].user == u
    requires Possible(w, Act(P.Leave((a.nodeId, conn.socketId)))) && w.cluster.seats[(a.nodeId, conn.socketId)] == u
    modifies a.local`presence, a.local`channels, a.local`socketChannels, a.redis`presence, a.redis`psock
    modifies a.local.sockets.Values`queue, a.local.sockets.Values`forceClose, a.local.sockets.Values`log
    modifies conn`subscribedChannels, conn`presence
    ensures conn.socketId in old(a.local.Conns())
    ensures var s, was, members := conn.socketId, old(a.local.Conns()), At(old(a.local.channels), c);
            var told := if e == None then was else Subscriptions.FanOut(was, members, MemberRemoved(c, u), Some(s));
            a.local.Conns() == told[s := Without(was[s], c)]
    ensures Stands(a, c, Next(w, Act(P.Leave((a.nodeId, conn.socketId))), max))
    ensures Sent(a.nodeId, c, e, News(w.cluster, P.Leave((a.nodeId, conn.socketId)), max), conn.socketId)
  {
    hide Namespace.Valid, Namespace.Conns, After, Redis.Hashed, P.OwnSeats, Mirrors, CopiesAfter, WsConnection.View;
    hide Subscriptions.FanOut;
    ghost var s, conns, members := conn.socketId, a.local.Conns(), At(a.local.channels, c);
    a.local.Listed(conn);
    ValidIsKeyed(a.local);
    ghost var record := conns[s].(presence := conns[s].presence - {c});
    LeftMirrors(a.nodeId, c, conns, members, w, s, max);
    SparedByFanOut(conns, s, record, members, MemberRemoved(c, u), Without(conns[s], c));
    var _ := a.local.ForgetPresence(conn, c);
    var gone := P.LeaveOn(a, c, conn.socketId, u, max, w.cluster);
    e := Part(a, c, conn, u, gone);
  }

  /** What a node does with an envelope it reads: a posted change, its own skipped. */
  method ReadOn(a: RedisAdapter, c: Channel, e: Envelope, max: nat, ghost w: World)
    requires Stands(a, c, w) && Possible(w, Read(a.nodeId))
    requires var p := w.posted[w.cursors[a.nodeId]];
             e.sender == p.sender && e.channel == c && e.message == Mail(c, p.note)
    requires e.except.Some? ==> e.except.value !in At(a.local.channels, c)
    modifies a.local.sockets.Values`queue, a.local.sockets.Values`forceClose, a.local.sockets.Values`log
    ensures Stands(a, c, Next(w, Read(a.nodeId), max))
  {
    hide Namespace.Valid, Namespace.Conns, Redis.Hashed, P.OwnSeats, Mirrors;
    ValidIsKeyed(a.local);
    ReadMirrors(a.nodeId, c, a.local.Conns(), At(a.local.channels, c), w, e.except, max);
    a.HandleBroadcast(e);
  }
}
