/** The event handlers of a connection, on one node: each is one step of the simple
    machine, and leaves every table a projection of the connections. */
module Server {
  import opened Protocol
  import opened Tables
  import opened Connection
  import opened Namespaces
  import opened Agreement
  import S = Subscriptions
  import Replicas

  class AppServer {
    const ns: Namespace
    const maxMembers: nat
    /** Webhook events handed to the sender, in order. */
    var hooks: seq<Webhook>
    /** Socket ids that were once in use. */
    ghost var retired: set<SocketId>

    ghost function World(): S.World
      reads this, ns, ns.sockets.Values
    {
      S.World(ns.Conns(), Roster(ns.presence), retired, hooks)
    }

    /** The tables are the projections of the connections, and hold nothing empty. */
    ghost predicate Valid()
      reads this`retired, ns, ns.sockets.Values
    {
      && ns.Valid()
      && AllAgree(ns.Conns(), ns.View(), ns.users, retired)
      && (maxMembers >= 1 ==> NoEmptyRoom(ns.presence))
    }

    lemma ValidIsWellFormed()
      requires Valid()
      ensures S.WellFormed(World())
    {
      AgreementIsWellFormed(World(), ns.presence);
    }

    constructor (maxMembers: nat)
      ensures Valid() && World() == S.EMPTY && this.maxMembers == maxMembers
      ensures fresh(ns) && ns.sockets == map[]
    {
      this.ns := new Namespace();
      this.maxMembers := maxMembers;
      this.hooks, this.retired := [], {};
      new;
      assert ns.Conns() == map[];
    }

    // -- connecting ------------------------------------------------------------------

    /** Socket ids are drawn at random and never drawn twice. */
    method Connect(s: SocketId, limit: int) returns (conn: Option<WsConnection>)
      requires Valid() && s !in ns.sockets && s !in retired
      modifies ns`sockets, ns`connectionCount
      ensures Valid() && World() == S.Connect(old(World()), s, limit)
      ensures conn.Some? <==> !(0 <= limit <= |old(ns.sockets)|)
      ensures conn.Some? ==> fresh(conn.value) && conn.value.socketId == s
      ensures ns.sockets == if conn.Some? then old(ns.sockets)[s := conn.value] else old(ns.sockets)
    {
      hide AllAgree, Roster, Namespace.Valid, S.Subscribers;
      ghost var conns := ns.Conns();
      SameSize(conns, ns.sockets);
      var c := new WsConnection(s);
      assert ns.Conns() == conns;
      var ok := ns.TryAddSocket(c, limit);
      if !ok {
        return None;
      }
      FreshAgrees(conns, s, ns.View(), ns.users, retired);
      return Some(c);
    }

    // -- telling one connection something ----------------------------------------------

    method Tell(conn: WsConnection, m: Message)
      requires Valid() && ns.Registered(conn)
      modifies conn`queue, conn`forceClose, conn`log
      ensures Valid() && World() == S.Tell(old(World()), conn.socketId, m)
    {
      EnqueueAgrees(ns.Conns(), conn.socketId, m, ns.View(), ns.users, retired);
      ns.SendTo(conn, m);
    }

    // -- subscribing -----------------------------------------------------------------

    method Subscribe(conn: WsConnection, request: S.SubscribeRequest)
      requires Valid() && ns.Registered(conn)
      modifies this`hooks, ns`channels, ns`socketChannels, ns`presence, ns.sockets.Values
      ensures Valid() && World() == S.Subscribe(old(World()), conn.socketId, request, maxMembers)
    {
      match request
      case Malformed => Tell(conn, Error(InvalidRequest));
      case Join(channel, auth, claim, cached) =>
        if channel in conn.subscribedChannels {
          return;
        }
        var refusal := S.Refusal(channel, auth, claim);
        if refusal.Some? {
          Tell(conn, Error(refusal.value));
        } else if !IsPresence(channel) {
          SubscribePlain(conn, channel);
          ReplayCache(conn, channel, cached);
        } else {
          var ok := SubscribePresence(conn, channel, claim.user, claim.info);
          if ok {
            ReplayCache(conn, channel, cached);
          } else {
            Tell(conn, Error(OverMemberLimit));
          }
        }
    }

    method SubscribePlain(conn: WsConnection, channel: Channel)
      requires Valid() && ns.Registered(conn) && !IsPresence(channel)
      modifies this`hooks, ns`channels, ns`socketChannels, conn
      ensures Valid() && World() == S.JoinPlain(old(World()), conn.socketId, channel)
    {
      hide Valid, Roster, S.Subscribers, S.RosterAt, Namespace.Conns, WsConnection.View, IsPresence;
      var occupied := EnterPlain(conn, channel);
      Tell(conn, Subscribed(channel));
      if occupied {
        hooks := hooks + [ChannelOccupied(channel)];
      }
    }

    method EnterPlain(conn: WsConnection, channel: Channel) returns (occupied: bool)
      requires Valid() && ns.Registered(conn) && !IsPresence(channel)
      modifies ns`channels, ns`socketChannels, conn`subscribedChannels
      ensures Valid() && World() == S.Hold(old(World()), conn.socketId, channel)
      ensures occupied == (S.Subscribers(old(World()).conns, channel) == {})
    {
      hide AllAgree, Roster, S.Subscribers, Namespace.Conns, WsConnection.View, WithChannel, NoEmptyRoom, IsPresence;
      EnteringIsSafe(conn, channel);
      occupied := ns.AddToChannel(conn.socketId, channel);
      ns.NoteChannel(conn, channel);
    }

    lemma EnteringIsSafe(conn: WsConnection, channel: Channel)
      requires Valid() && ns.Registered(conn) && !IsPresence(channel)
      ensures conn.socketId in ns.Conns() && ns.Conns()[conn.socketId] == conn.View()
      ensures AllAgree(ns.Conns()[conn.socketId := WithChannel(conn.View(), channel)],
                       After(ns.View(), AddToChannel(conn.socketId, channel)), ns.users, retired)
      ensures At(ns.channels, channel) == S.Subscribers(ns.Conns(), channel)
    {
      ns.Listed(conn);
      TableListsSubscribers(ns.Conns(), ns.View(), ns.users, retired, channel);
      PlainMemberAgrees(ns.Conns(), conn.socketId, channel, ns.View(), ns.users, retired);
    }

    method ReplayCache(conn: WsConnection, channel: Channel, cached: S.Cached)
      requires Valid() && ns.Registered(conn)
      modifies this`hooks, conn`queue, conn`forceClose, conn`log
      ensures Valid() && World() == S.ReplayCache(old(World()), conn.socketId, channel, cached)
    {
      hide Valid, Roster;
      if IsCache(channel) {
        match cached
        case Disabled =>
        case Last(name, data) => Tell(conn, Event(channel, name, data));
        case Nothing =>
          Tell(conn, CacheMiss(channel));
          hooks := hooks + [CacheMissed(channel)];
      }
    }

    method SubscribePresence(conn: WsConnection, channel: Channel, u: UserId, info: Info) returns (ok: bool)
      requires Valid() && ns.Registered(conn) && IsPresence(channel) && channel !in conn.subscribedChannels
      modifies this`hooks, ns`channels, ns`socketChannels, ns`presence, ns.sockets.Values
      ensures Valid()
      ensures ok <==> u in S.RosterAt(old(World()), channel) || |S.RosterAt(old(World()), channel)| < maxMembers
      ensures World() == if ok then S.JoinPresence(old(World()), conn.socketId, channel, u, info) else old(World())
    {
      hide Valid, Roster, S.Subscribers, S.FanOut, S.Tell, S.Announce, S.HoldAs, S.RosterAt;
      hide Namespace.Conns, WsConnection.View;
      var entered := EnterPresence(conn, channel, u, info);
      if entered == None {
        return false;
      }
      var isNew, members, occupied := entered.value.0, entered.value.1, entered.value.2;
      Greet(conn, channel, u, info, members, isNew);
      ghost var all := World();
      hooks := hooks + (if occupied then [ChannelOccupied(channel)] else [])
                     + (if isNew then [UserJoined(channel, u)] else []);
      assert World() == all.(hooks := hooks);
      return true;
    }

    /** The newcomer gets the member list; the others hear of a new user. */
    method Greet(conn: WsConnection, channel: Channel, u: UserId, info: Info, members: map<UserId, Info>, isNew: bool)
      requires Valid() && ns.Registered(conn)
      modifies ns.sockets.Values`queue, ns.sockets.Values`forceClose, ns.sockets.Values`log
      ensures Valid()
      ensures var told := S.Tell(old(World()), conn.socketId, PresenceSnapshot(channel, members));
              var all := S.Announce(told, channel, MemberAdded(channel, u, info), Some(conn.socketId));
              World() == if isNew then all else told
    {
      hide Valid, World, S.Tell, S.Announce;
      Tell(conn, PresenceSnapshot(channel, members));
      if isNew {
        Announce(channel, MemberAdded(channel, u, info), Some(conn.socketId));
      }
    }

    /** Admits the user, if the limit allows, and records the subscription on both
        sides. Refused, it changes nothing anyone can see. */
    method EnterPresence(conn: WsConnection, channel: Channel, u: UserId, info: Info)
      returns (r: Option<(bool, map<UserId, Info>, bool)>)
      requires Valid() && ns.Registered(conn) && IsPresence(channel) && channel !in conn.subscribedChannels
      modifies ns`channels, ns`socketChannels, ns`presence, conn`subscribedChannels, conn`presence
      ensures Valid()
      ensures r.Some? <==> u in S.RosterAt(old(World()), channel) || |S.RosterAt(old(World()), channel)| < maxMembers
      ensures r == None ==> World() == old(World())
      ensures r.Some? ==> World() == S.HoldAs(old(World()), conn.socketId, channel, u, info)
      ensures r.Some? ==> r.value.0 == (u !in S.RosterAt(old(World()), channel))
      ensures r.Some? ==> channel in World().roster && r.value.1 == World().roster[channel]
      ensures r.Some? ==> r.value.2 == (S.Subscribers(old(World()).conns, channel) == {})
    {
      hide AllAgree, Roster, Namespace.Valid, S.Subscribers, S.RosterAt;
      ghost var t := ns.View();
      var added := AdmitMember(conn.socketId, channel, u, info);
      if added == None {
        return None;
      }
      var occupied := RecordMember(conn, channel, u, info, t);
      return Some((added.value.0, added.value.1, occupied));
    }

    /** The room's side of a presence subscription. */
    method AdmitMember(s: SocketId, channel: Channel, u: UserId, info: Info)
      returns (r: Option<(bool, map<UserId, Info>)>)
      requires Valid() && s in ns.sockets
      modifies ns`presence
      ensures ns.Valid() && (maxMembers >= 1 ==> NoEmptyRoom(ns.presence))
      ensures r.Some? <==> u in S.RosterAt(old(World()), channel) || |S.RosterAt(old(World()), channel)| < maxMembers
      ensures r == None ==> Valid() && World() == old(World())
      ensures r.Some? ==> ns.View() == After(old(ns.View()), AddMember(channel, s, u, info))
      ensures r.Some? ==> Roster(ns.presence) == S.HoldAs(old(World()), s, channel, u, info).roster
      ensures r.Some? ==> r.value.0 == (u !in S.RosterAt(old(World()), channel))
      ensures r.Some? ==> channel in World().roster && r.value.1 == World().roster[channel]
    {
      hide AllAgree, Roster, RoomAt, After, Admits;
      hide Infos, NoEmptyRoom, S.RosterAt, S.HoldAs, Namespace.Valid, Namespace.Conns;
      AdmissionIsSafe(s, channel, u, info);
      r := ns.TryAddPresenceMember(channel, s, u, info, maxMembers);
    }

    /** What the room will hold after an attempt, and what that means for the rest. */
    lemma AdmissionIsSafe(s: SocketId, channel: Channel, u: UserId, info: Info)
      requires Valid() && s in ns.sockets
      ensures ns.Valid() && s in World().conns
      ensures u in RoomAt(ns.presence, channel) <==> u in S.RosterAt(World(), channel)
      ensures Admits(RoomAt(ns.presence, channel), u, maxMembers) <==>
                u in S.RosterAt(World(), channel) || |S.RosterAt(World(), channel)| < maxMembers
      ensures var rooms := After(ns.View(), TryAddMember(channel, s, u, info, maxMembers)).rooms;
              && (maxMembers >= 1 ==> NoEmptyRoom(rooms))
              && channel in rooms
              && if Admits(RoomAt(ns.presence, channel), u, maxMembers)
                 then Roster(rooms) == S.HoldAs(World(), s, channel, u, info).roster
                      && channel in Roster(rooms) && Infos(rooms[channel]) == Roster(rooms)[channel]
                      && ns.View().(rooms := rooms) == After(ns.View(), AddMember(channel, s, u, info))
                 else Roster(rooms) == Roster(ns.presence)
                      && AllAgree(ns.Conns(), ns.View().(rooms := rooms), ns.users, retired)
      ensures After(ns.View(), TryAddMember(channel, s, u, info, maxMembers))
           == ns.View().(rooms := After(ns.View(), TryAddMember(channel, s, u, info, maxMembers)).rooms)
    {
      hide AllAgree, Roster, Infos;
      var w, t := World(), ns.View();
      RosterIsRooms(t.rooms, w, channel);
      EnterInfos(t.rooms, s, channel, u, info, w);
      EnterRoster(t.rooms, s, channel, u, info);
      RefusedIsInvisible(w.conns, t, ns.users, retired, channel);
      if maxMembers >= 1 { EmptyRoomIffZeroLimit(t.rooms, channel, s, u, info, maxMembers); }
    }

    /** The channel's and the connection's side of it; `t` is how the tables stood
        before the room admitted the user. */
    method RecordMember(conn: WsConnection, channel: Channel, u: UserId, info: Info, ghost t: Tables)
      returns (occupied: bool)
      requires ns.Valid() && ns.Registered(conn) && IsPresence(channel) && channel !in conn.subscribedChannels
      requires AllAgree(ns.Conns(), t, ns.users, retired)
      requires ns.View() == After(t, AddMember(channel, conn.socketId, u, info))
      modifies ns`channels, ns`socketChannels, conn`subscribedChannels, conn`presence
      ensures ns.Valid() && AllAgree(ns.Conns(), ns.View(), ns.users, retired)
      ensures ns.Conns() == old(ns.Conns())[conn.socketId := WithPresence(old(conn.View()), channel, u, info)]
      ensures occupied == (S.Subscribers(old(ns.Conns()), channel) == {})
    {
      hide AllAgree, S.Subscribers, Namespace.Conns, WsConnection.View, After, WithPresence, IsPresence;
      RecordingIsSafe(conn, channel, u, info, t);
      occupied := ns.AddToChannel(conn.socketId, channel);
      ns.NotePresence(conn, channel, u, info);
    }

    lemma RecordingIsSafe(conn: WsConnection, channel: Channel, u: UserId, info: Info, t: Tables)
      requires ns.Valid() && ns.Registered(conn) && IsPresence(channel) && channel !in conn.subscribedChannels
      requires AllAgree(ns.Conns(), t, ns.users, retired)
      requires ns.View() == After(t, AddMember(channel, conn.socketId, u, info))
      ensures AllAgree(ns.Conns()[conn.socketId := WithPresence(conn.View(), channel, u, info)],
                       After(ns.View(), AddToChannel(conn.socketId, channel)), ns.users, retired)
      ensures At(ns.channels, channel) == S.Subscribers(ns.Conns(), channel)
    {
      ns.Listed(conn);
      TableListsSubscribers(ns.Conns(), t, ns.users, retired, channel);
      PresenceMemberAgrees(ns.Conns(), conn.socketId, channel, u, info, t, ns.users, retired);
    }

    /** Every subscriber but the excepted one is sent the message. */
    method Announce(channel: Channel, m: Message, except: Option<SocketId>)
      requires Valid()
      modifies ns.sockets.Values`queue, ns.sockets.Values`forceClose, ns.sockets.Values`log
      ensures Valid() && World() == S.Announce(old(World()), channel, m, except)
    {
      hide AllAgree, Roster, Namespace.Valid, Namespace.Conns, NoEmptyRoom, S.Subscribers, S.FanOut;
      AnnouncingIsSafe(channel, m, except);
      ns.SendToChannel(channel, m, except);
    }

    lemma AnnouncingIsSafe(channel: Channel, m: Message, except: Option<SocketId>)
      requires Valid()
      ensures ns.Keyed() && At(ns.channels, channel) == S.Subscribers(ns.Conns(), channel)
      ensures AllAgree(S.FanOut(ns.Conns(), At(ns.channels, channel), m, except), ns.View(), ns.users, retired)
    {
      TableListsSubscribers(ns.Conns(), ns.View(), ns.users, retired, channel);
      FanOutAgrees(ns.Conns(), At(ns.channels, channel), m, except, ns.View(), ns.users, retired);
    }

    // -- leaving ----------------------------------------------------------------------

    /** Takes the socket out of the presence room; if its user is gone, the rest hear of it. */
    method LeaveRoom(s: SocketId, channel: Channel, u: UserId)
      requires ns.Valid()
      modifies this`hooks, ns`presence, ns.sockets.Values`queue, ns.sockets.Values`forceClose, ns.sockets.Values`log
      ensures ns.Valid() && ns.View() == After(old(ns.View()), RemoveMember(channel, s, u))
      ensures ns.Conns() == if Gone(old(ns.presence), channel, s, u)
                            then S.FanOut(old(ns.Conns()), At(ns.channels, channel), MemberRemoved(channel, u), Some(s))
                            else old(ns.Conns())
      ensures hooks == old(hooks) + if Gone(old(ns.presence), channel, s, u) then [UserLeft(channel, u)] else []
    {
      hide After, Gone, S.FanOut, SeatsTaken, NoEmptySet, Dual, Namespace.Conns;
      var gone := ns.RemovePresenceMember(channel, s, u);
      if gone {
        ns.SendToChannel(channel, MemberRemoved(channel, u), Some(s));
        hooks := hooks + [UserLeft(channel, u)];
      }
    }

    method LeaveTable(s: SocketId, channel: Channel)
      requires ns.Valid()
      modifies this`hooks, ns`channels, ns`socketChannels
      ensures ns.Valid() && ns.View() == After(old(ns.View()), RemoveFromChannel(s, channel))
      ensures ns.Conns() == old(ns.Conns())
      ensures hooks == old(hooks) + if Vacates(old(ns.channels), channel, s) then [ChannelVacated(channel)] else []
    {
      var vacated := ns.RemoveFromChannel(s, channel);
      if vacated {
        hooks := hooks + [ChannelVacated(channel)];
      }
    }

    /** Both sides of leaving, table by table, as the handler does it. */
    method LeaveBoth(conn: WsConnection, channel: Channel, ghost w: S.World, ghost t: Tables)
      requires ns.Valid() && ns.Registered(conn) && channel in conn.subscribedChannels
      requires IsPresence(channel) <==> channel in conn.presence
      requires w == World() && t == ns.View()
      modifies this`hooks, ns`channels, ns`socketChannels, ns`presence, ns.sockets.Values
      ensures ns.Valid() && ns.View() == Departed(t, w.conns[conn.socketId], conn.socketId, channel)
      ensures World() == Left(w, t, conn.socketId, channel)
    {
      hide Heard, TakesUser, Vacates, Roster, Namespace.Conns;
      ns.Listed(conn);
      LeavePresenceSide(conn, channel, w, t);
      ns.ForgetChannel(conn, channel);
      LeaveTable(conn.socketId, channel);
      SetTwice(Heard(w.conns, t, conn.socketId, channel), conn.socketId,
        w.conns[conn.socketId].(presence := w.conns[conn.socketId].presence - {channel}),
        Without(w.conns[conn.socketId], channel));
    }

    method LeavePresenceSide(conn: WsConnection, channel: Channel, ghost w: S.World, ghost t: Tables)
      requires ns.Valid() && ns.Registered(conn)
      requires IsPresence(channel) <==> channel in conn.presence
      requires w == World() && t == ns.View()
      modifies this`hooks, ns`presence, conn`presence
      modifies ns.sockets.Values`queue, ns.sockets.Values`forceClose, ns.sockets.Values`log
      ensures var s, c := conn.socketId, w.conns[conn.socketId];
              && ns.Valid()
              && ns.View() ==
                   (if channel in c.presence then After(t, RemoveMember(channel, s, c.presence[channel].user)) else t)
              && ns.Conns() == Heard(w.conns, t, s, channel)[s := c.(presence := c.presence - {channel})]
              && hooks == w.hooks
                        + (if TakesUser(t, c, s, channel) then [UserLeft(channel, c.presence[channel].user)] else [])
              && conn.View() == c.(presence := c.presence - {channel})
    {
      hide Vacates, Roster, After, RoomAt;
      ns.Listed(conn);
      if IsPresence(channel) {
        var identity := ns.ForgetPresence(conn, channel);
        FanOutSpares(w.conns, conn.socketId, ns.Conns()[conn.socketId], At(t.channels, channel),
                     MemberRemoved(channel, identity.value.user));
        LeaveRoom(conn.socketId, channel, identity.value.user);
        ns.Listed(conn);
      } else {
        assert w.conns[conn.socketId].presence - {channel} == w.conns[conn.socketId].presence;
      }
    }

    method Unsubscribe(conn: WsConnection, channel: Channel)
      requires Valid() && ns.Registered(conn)
      modifies this`hooks, ns`channels, ns`socketChannels, ns`presence, ns.sockets.Values
      ensures Valid() && World() == S.Unsubscribe(old(World()), conn.socketId, channel)
    {
      if channel !in conn.subscribedChannels {
        return;
      }
      ghost var w, t, s := World(), ns.View(), conn.socketId;
      ns.Listed(conn);
      assert S.PresenceMatchesKind(w.conns[s]);
      LeftIsUnsubscribed(w, t, ns.users, s, channel);
      LeftAgrees(w, t, ns.users, s, channel);
      DepartingEmptiesNoRoom(t, w.conns[s], s, channel);
      hide AllAgree, Namespace.Valid, Left, Departed, NoEmptyRoom, S.Unsubscribe, IsPresence, Roster;
      LeaveBoth(conn, channel, w, t);
    }

    // -- signing in, terminating, publishing -----------------------------------------------

    /** `who` is the verified user, or nothing if the request was refused. */
    method SignIn(conn: WsConnection, who: Option<UserId>)
      requires Valid() && ns.Registered(conn)
      modifies ns`users, conn`user, conn`identities, conn`queue, conn`forceClose, conn`log
      ensures Valid() && World() == S.SignIn(old(World()), conn.socketId, who)
    {
      match who
      case None => Tell(conn, Error(SigninRefused));
      case Some(u) =>
        ns.Listed(conn);
        IdentifiedAgrees(ns.Conns(), conn.socketId, u, ns.View(), ns.users, retired);
        assert ns.Keyed();
        hide AllAgree, Roster, Identified, Put;
        ns.NoteUser(conn, u);
        ns.AddUser(u, conn.socketId);
        Tell(conn, SigninSuccess(u));
    }

    method Publish(channel: Channel, name: string, data: string, except: Option<SocketId>)
      requires Valid()
      modifies ns.sockets.Values`queue, ns.sockets.Values`forceClose, ns.sockets.Values`log
      ensures Valid() && World() == S.Announce(old(World()), channel, Event(channel, name, data), except)
    {
      Announce(channel, Event(channel, name, data), except);
    }

    method Deliver(conn: WsConnection) returns (m: Option<Message>)
      requires Valid() && ns.Registered(conn)
      modifies conn`queue, conn`read
      ensures Valid() && World() == S.Deliver(old(World()), conn.socketId)
      ensures m == if old(conn.queue) == [] then None else Some(old(conn.queue)[0])
    {
      hide AllAgree, Roster, NoEmptyRoom, Namespace.Valid, Namespace.Conns, WsConnection.View, Delivered;
      DeliveringIsSafe(conn);
      m := ns.DeliverTo(conn);
    }

    lemma DeliveringIsSafe(conn: WsConnection)
      requires Valid() && ns.Registered(conn)
      ensures ns.Keyed() && conn.socketId in ns.Conns() && ns.Conns()[conn.socketId] == conn.View()
      ensures AllAgree(ns.Conns()[conn.socketId := Delivered(conn.View())], ns.View(), ns.users, retired)
    {
      ns.Listed(conn);
      MailAgrees(ns.Conns(), ns.Conns()[conn.socketId := Delivered(conn.View())], ns.View(), ns.users, retired);
    }

    /** Flags the open sockets that ever signed in as `u`, and no other. */
    method TerminateUserConnections(u: UserId)
      requires Valid()
      modifies ns.sockets.Values`queue, ns.sockets.Values`forceClose, ns.sockets.Values`log
      ensures Valid() && World() == S.Terminate(old(World()), u)
    {
      assert At(ns.users, u) * ns.sockets.Keys == S.SignedIn(ns.Conns(), u);
      TerminatedAgrees(ns.Conns(), At(ns.users, u) * ns.sockets.Keys, ns.View(), ns.users, retired);
      TerminateIndexed(u);
    }

    /** The open sockets that ever signed in as `u`: re-signed-in ones included, closed ones not. */
    method GetSocketsForUser(u: UserId) returns (found: set<WsConnection>)
      requires Valid()
      ensures found == set s | s in ns.sockets && u in ns.sockets[s].identities :: ns.sockets[s]
    {
      assert At(ns.users, u) * ns.sockets.Keys == S.SignedIn(ns.Conns(), u);
      assert forall s :: s in ns.sockets ==> (s in S.SignedIn(ns.Conns(), u) <==> u in ns.sockets[s].identities);
      found := ns.GetSocketsForUser(u);
    }

    method TerminateIndexed(u: UserId)
      requires ns.Keyed()
      modifies ns.sockets.Values`queue, ns.sockets.Values`forceClose, ns.sockets.Values`log
      ensures ns.Conns() == S.TerminateAll(old(ns.Conns()), At(ns.users, u) * ns.sockets.Keys)
    {
      var found := ns.GetSocketsForUser(u);
      ghost var named := At(ns.users, u) * ns.sockets.Keys;
      assert found == set s | s in named :: ns.sockets[s];
      TerminateEach(found, named);
    }

    method TerminateEach(found: set<WsConnection>, ghost named: set<SocketId>)
      requires ns.Keyed() && named <= ns.sockets.Keys && found == set s | s in named :: ns.sockets[s]
      modifies found`queue, found`forceClose, found`log
      ensures ns.Conns() == S.TerminateAll(old(ns.Conns()), named)
    {
      ghost var conns := ns.Conns();
      var todo := found;
      ghost var done: set<SocketId> := {};
      while todo != {}
        invariant done <= named && todo <= found
        invariant forall s :: s in named ==> (s in done <==> ns.sockets[s] !in todo)
        invariant ns.Conns() == S.TerminateAll(conns, done)
        decreases todo
      {
        var conn :| conn in todo;
        todo := todo - {conn};
        OneMoreTerminated(conns, done, conn.socketId);
        done := done + {conn.socketId};
        ns.TerminateOne(conn);
      }
      assert done == named;
    }

    // -- closing ----------------------------------------------------------------------------

    /** While a connection is torn down its own record still lists every channel; the
        world `v` is the one in which it lists only those still `todo`. */
    ghost predicate Shadows(v: S.World, conn: WsConnection, todo: set<Channel>)
      reads this, ns, ns.sockets.Values, conn
    {
      var s := conn.socketId;
      && AllAgree(v.conns, ns.View(), ns.users, retired)
      && v.roster == Roster(ns.presence) && v.retired == retired && v.hooks == hooks
      && s in v.conns && v.conns - {s} == ns.Conns() - {s}
      && v.conns[s].channels == todo
      && (forall c :: c in todo ==> (c in v.conns[s].presence <==> c in conn.presence))
      && (forall c :: c in todo && c in conn.presence ==> v.conns[s].presence[c] == conn.presence[c])
    }

    method CloseChannel(conn: WsConnection, channel: Channel, ghost todo: set<Channel>, ghost v: S.World)
      requires ns.Valid() && ns.Registered(conn) && channel in todo && Shadows(v, conn, todo)
      requires maxMembers >= 1 ==> NoEmptyRoom(ns.presence)
      modifies this`hooks, ns`channels, ns`socketChannels, ns`presence
      modifies ns.sockets.Values`queue, ns.sockets.Values`forceClose, ns.sockets.Values`log
      ensures ns.Valid() && Shadows(S.Unsubscribe(v, conn.socketId, channel), conn, todo - {channel})
      ensures maxMembers >= 1 ==> NoEmptyRoom(ns.presence)
      ensures conn.View() == old(conn.View())
    {
      hide Namespace.Valid, Departed, S.Unsubscribe, Left, AllAgree, Roster, NoEmptyRoom, Namespace.Conns;
      hide WsConnection.View;
      ghost var t, s := ns.View(), conn.socketId;
      SeatsOf();
      ChannelLeft(v, t, ns.users, s, channel);
      CloseTables(conn, channel, v, t);
    }

    lemma SeatsOf()
      requires ns.Valid()
      ensures SeatsTaken(ns.View().rooms) && ns.View().rooms == ns.presence
    {
    }

    /** All there is to know of one channel left. */
    lemma ChannelLeft(v: S.World, t: Tables, users: UserIndex, s: SocketId, c: Channel)
      requires AllAgree(v.conns, t, users, v.retired) && v.roster == Roster(t.rooms) && SeatsTaken(t.rooms)
      requires s in v.conns && c in v.conns[s].channels
      ensures c in v.conns[s].presence <==> IsPresence(c)
      ensures var v', left, after := S.Unsubscribe(v, s, c), Left(v, t, s, c), Departed(t, v.conns[s], s, c);
              && v' == left && v'.retired == v.retired && v'.roster == Roster(after.rooms)
              && v'.conns[s] == Without(v.conns[s], c)
              && AllAgree(v'.conns, after, users, v'.retired)
              && (NoEmptyRoom(t.rooms) ==> NoEmptyRoom(after.rooms))
    {
      assert S.PresenceMatchesKind(v.conns[s]);
      LeftIsUnsubscribed(v, t, users, s, c);
      LeftAgrees(v, t, users, s, c);
      DepartingEmptiesNoRoom(t, v.conns[s], s, c);
    }

    method CloseTables(conn: WsConnection, channel: Channel, ghost v: S.World, ghost t: Tables)
      requires ns.Valid() && ns.Registered(conn) && t == ns.View()
      requires conn.socketId in v.conns && v.conns - {conn.socketId} == ns.Conns() - {conn.socketId} && v.hooks == hooks
      requires channel in v.conns[conn.socketId].presence <==> channel in conn.presence && IsPresence(channel)
      requires channel in v.conns[conn.socketId].presence ==>
                 v.conns[conn.socketId].presence[channel] == conn.presence[channel]
      modifies this`hooks, ns`channels, ns`socketChannels, ns`presence
      modifies ns.sockets.Values`queue, ns.sockets.Values`forceClose, ns.sockets.Values`log
      ensures ns.Valid() && ns.View() == Departed(t, v.conns[conn.socketId], conn.socketId, channel)
      ensures Left(v, t, conn.socketId, channel).conns - {conn.socketId} == ns.Conns() - {conn.socketId}
      ensures hooks == Left(v, t, conn.socketId, channel).hooks
      ensures conn.View() == old(conn.View())
    {
      hide Gone, Vacates, S.FanOut, At, IsPresence, Roster, Exit, Take, Erase, Namespace.Conns, Namespace.Valid, Dual;
      if IsPresence(channel) && channel in conn.presence {
        CloseRoom(conn, channel, conn.presence[channel].user, v, t);
      }
      LeaveTable(conn.socketId, channel);
    }

    method CloseRoom(conn: WsConnection, channel: Channel, u: UserId, ghost v: S.World, ghost t: Tables)
      requires ns.Valid() && ns.Registered(conn) && t == ns.View()
      requires conn.socketId in v.conns && v.conns - {conn.socketId} == ns.Conns() - {conn.socketId} && v.hooks == hooks
      modifies this`hooks, ns`presence
      modifies ns.sockets.Values`queue, ns.sockets.Values`forceClose, ns.sockets.Values`log
      ensures ns.Valid() && ns.View() == After(t, RemoveMember(channel, conn.socketId, u))
      ensures var gone := Gone(t.rooms, channel, conn.socketId, u);
              && hooks == v.hooks + (if gone then [UserLeft(channel, u)] else [])
              && ns.Conns() - {conn.socketId} ==
                 (if gone
                  then S.FanOut(v.conns, At(t.channels, channel), MemberRemoved(channel, u), Some(conn.socketId))
                  else v.conns) - {conn.socketId}
      ensures conn.View() == old(conn.View())
    {
      hide Gone, S.FanOut, At, Namespace.Valid;
      ns.Listed(conn);
      OthersHearTheSame(v.conns, ns.Conns(), conn.socketId, At(t.channels, channel), MemberRemoved(channel, u));
      FanOutSpares(ns.Conns(), conn.socketId, conn.View(), At(t.channels, channel), MemberRemoved(channel, u));
      LeaveRoom(conn.socketId, channel, u);
      ns.Listed(conn);
    }

    /** The socket is gone from every table but the user index, where it stays under
        the users it signed in as before the last; closing is unsubscribing from every
        channel, in the order the connection's set yields them. */
    method OnClose(conn: WsConnection) returns (ghost order: seq<Channel>)
      requires Valid() && ns.Registered(conn)
      modifies this`hooks, this`retired, ns, ns.sockets.Values
      ensures Valid()
      ensures S.Possible(old(World()), S.Closing(conn.socketId, order))
      ensures World() == S.Close(old(World()), conn.socketId, order)
      ensures ns.sockets == old(ns.sockets) - {conn.socketId}
      ensures forall u :: conn.socketId in At(ns.users, u) <==> u in old(conn.identities) && old(conn.user) != Some(u)
    {
      IndexedUsers(conn);
      WithoutUserDrops(ns.users, conn.socketId, conn.user);
      hide *;
      order := CloseEach(conn);
      Forget(conn, S.UnsubscribeAll(old(World()), conn.socketId, order));
      CloseIsPossible(old(World()), conn.socketId, order);
    }

    lemma StartClosing(conn: WsConnection)
      requires Valid() && ns.Registered(conn)
      ensures ns.Valid() && (maxMembers >= 1 ==> NoEmptyRoom(ns.presence))
      ensures conn.socketId in World().conns && World().conns[conn.socketId] == conn.View()
      ensures Shadows(S.UnsubscribeAll(World(), conn.socketId, []), conn, conn.subscribedChannels)
    {
      ns.Listed(conn);
    }

    method CloseEach(conn: WsConnection) returns (ghost order: seq<Channel>)
      requires Valid() && ns.Registered(conn)
      modifies this`hooks, ns`channels, ns`socketChannels, ns`presence
      modifies ns.sockets.Values`queue, ns.sockets.Values`forceClose, ns.sockets.Values`log
      ensures ns.Valid() && (maxMembers >= 1 ==> NoEmptyRoom(ns.presence))
      ensures S.Distinct(order) && forall c :: c in order <==> c in old(conn.subscribedChannels)
      ensures old(conn.socketId in World().conns && World().conns[conn.socketId] == conn.View())
      ensures Shadows(S.UnsubscribeAll(old(World()), conn.socketId, order), conn, {})
      ensures conn.View() == old(conn.View())
    {
      hide Valid, AllAgree, Shadows, S.UnsubscribeAll;
      hide S.Unsubscribe, NoEmptyRoom, Roster, Namespace.Valid, Namespace.Conns;
      StartClosing(conn);
      ghost var w, s := World(), conn.socketId;
      order := [];
      var channels := conn.subscribedChannels;
      var todo := channels;
      while todo != {}
        invariant ns.Valid() && (maxMembers >= 1 ==> NoEmptyRoom(ns.presence))
        invariant todo <= channels && S.Distinct(order) && forall c :: c in order <==> c in channels - todo
        invariant Shadows(S.UnsubscribeAll(w, s, order), conn, todo)
        invariant conn.View() == old(conn.View())
        decreases todo
      {
        var channel :| channel in todo;
        CloseChannel(conn, channel, todo, S.UnsubscribeAll(w, s, order));
        OneMoreUnsubscribed(w, s, order, channel);
        OneMoreListed(order, channel);
        order := order + [channel];
        todo := todo - {channel};
      }
    }

    /** The user index entry, then the socket itself. */
    method Forget(conn: WsConnection, ghost v: S.World)
      requires ns.Valid() && ns.Registered(conn) && Shadows(v, conn, {})
      requires maxMembers >= 1 ==> NoEmptyRoom(ns.presence)
      modifies ns`sockets, ns`connectionCount, ns`channels, ns`socketChannels, ns`users, this`retired
      ensures Valid()
      ensures World() == v.(conns := v.conns - {conn.socketId}, retired := v.retired + {conn.socketId})
      ensures ns.sockets == old(ns.sockets) - {conn.socketId}
      ensures ns.users == WithoutUser(old(ns.users), conn.socketId, conn.user)
    {
      hide AllAgree, Roster, NoEmptyRoom, Namespace.Valid, Scan, Shadows, Namespace.Conns, WithoutUser;
      ForgettingIsSafe(conn, v);
      ForgetUser(conn);
      var _ := ForgetSocket(conn.socketId);
      retired := retired + {conn.socketId};
    }

    lemma ForgettingIsSafe(conn: WsConnection, v: S.World)
      requires ns.Valid() && ns.Registered(conn) && Shadows(v, conn, {})
      ensures v == S.World(v.conns, Roster(ns.presence), retired, hooks)
      ensures v.conns - {conn.socketId} == ns.Conns() - {conn.socketId}
      ensures forall c :: c in ns.channels ==> ns.channels[c] != {conn.socketId}
      ensures AllAgree(ns.Conns() - {conn.socketId}, After(ns.View(), RemoveSocket(conn.socketId)),
                       WithoutUser(ns.users, conn.socketId, conn.user), retired + {conn.socketId})
    {
      ForgottenAgrees(v.conns, ns.View(), ns.users, retired, conn.socketId, conn.user);
      ForgettingEmptiesNothing(v.conns, ns.View(), conn.socketId);
    }

    method ForgetUser(conn: WsConnection)
      requires ns.Valid()
      modifies ns`users
      ensures ns.Valid() && ns.users == WithoutUser(old(ns.users), conn.socketId, conn.user)
      ensures ns.Conns() == old(ns.Conns())
    {
      if conn.user.Some? {
        ns.RemoveUser(conn.user.value, conn.socketId);
      }
    }

    /** A socket that holds no channel any more vacates none when it is forgotten, so
        ignoring what `remove_socket` returns loses nothing. */
    method ForgetSocket(s: SocketId) returns (vacated: seq<Channel>)
      requires ns.Valid() && forall c :: c in ns.channels ==> ns.channels[c] != {s}
      modifies ns`sockets, ns`connectionCount, ns`channels, ns`socketChannels
      ensures ns.Valid() && ns.View() == After(old(ns.View()), RemoveSocket(s))
      ensures ns.sockets == old(ns.sockets) - {s} && ns.Conns() == old(ns.Conns()) - {s}
      ensures vacated == []
    {
      hide *;
      vacated := ns.RemoveSocket(s);
      NoMemberMeansEmpty(vacated);
    }

    lemma IndexedUsers(conn: WsConnection)
      requires Valid() && ns.Registered(conn)
      ensures forall u :: conn.socketId in At(ns.users, u) <==> u in conn.identities
    {
      ns.Listed(conn);
      forall u ensures conn.socketId in At(ns.users, u) <==> u in conn.identities {
        assert At(ns.users, u) * ns.Conns().Keys == S.SignedIn(ns.Conns(), u);
        assert conn.socketId in S.SignedIn(ns.Conns(), u) <==> u in ns.Conns()[conn.socketId].identities;
      }
    }

    // -- any number of events, in any order -----------------------------------------------------

    /** The event is addressed to nobody in particular or to an open socket. */
    predicate Addressed(step: S.Step)
      reads ns
    {
      step.Connecting? || step.Publishing? || step.Terminating? || step.s in ns.sockets
    }

    lemma SocketsAreConns()
      requires Valid()
      ensures ns.Keyed() && World().conns.Keys == ns.sockets.Keys
    {
    }

    /** One event; `done` is the step it amounts to, which for a close fixes the order
        in which the channels were left. */
    method Handle(step: S.Step) returns (ghost done: S.Step)
      requires Valid() && Addressed(step)
      requires step.Connecting? ==> step.s !in ns.sockets && step.s !in retired
      modifies this`hooks, this`retired, ns, ns.sockets.Values
      ensures Valid() && SameEvent(step, done)
      ensures S.Possible(old(World()), done) && World() == S.Next(old(World()), done, maxMembers)
      ensures forall s :: s in ns.sockets ==>
                if s in old(ns.sockets) then ns.sockets[s] == old(ns.sockets)[s] else fresh(ns.sockets[s])
    {
      done := step;
      hide Valid, S.Connect, S.Subscribe, S.Unsubscribe, S.SignIn, S.Announce, S.Terminate, S.Deliver, S.Close, Roster;
      SocketsAreConns();
      match step
      case Connecting(s, limit) => var _ := Connect(s, limit);
      case Subscribing(s, request) => Subscribe(ns.sockets[s], request);
      case Unsubscribing(s, channel) => Unsubscribe(ns.sockets[s], channel);
      case SigningIn(s, who) => SignIn(ns.sockets[s], who);
      case Publishing(channel, name, data, except) => Publish(channel, name, data, except);
      case Terminating(u) => TerminateUserConnections(u);
      case Delivering(s) => var _ := Deliver(ns.sockets[s]);
      case Closing(s, _) =>
        ghost var order := OnClose(ns.sockets[s]);
        done := S.Closing(s, order);
    }

    /** Serving any script of events from the start is a run of the simple machine, so
        at the end every unflagged client's copy of a presence channel it holds is
        exactly what a member query would return. */
    method Serve(script: seq<S.Step>) returns (ghost trace: seq<S.Step>)
      requires Valid() && World() == S.EMPTY
      requires FreshIds(script)
      modifies this`hooks, this`retired, ns
      ensures Valid() && Follows(script, trace, maxMembers)
      ensures S.Run(trace, maxMembers) == Some(World())
      ensures forall s, c :: s in ns.sockets && !ns.sockets[s].forceClose && c in ns.sockets[s].presence ==>
                Replicas.Replica(ns.sockets[s].log, c) == Some(Infos(RoomAt(ns.presence, c)))
    {
      trace := [];
      NothingServed();
      var i := 0;
      while i < |script|
        invariant 0 <= i <= |script| && Valid()
        invariant Follows(script[..i], trace, maxMembers)
        invariant S.Run(trace, maxMembers) == Some(World())
        invariant World().conns.Keys + retired <= Ids(script[..i])
        invariant forall s :: s in ns.sockets ==> fresh(ns.sockets[s])
      {
        trace := ServeOne(script, i, trace);
        i := i + 1;
      }
      assert script[..i] == script;
      CopiesMatchTables(trace);
    }

    method ServeOne(script: seq<S.Step>, i: nat, ghost trace: seq<S.Step>) returns (ghost trace': seq<S.Step>)
      requires Valid() && FreshIds(script) && i < |script| && Follows(script[..i], trace, maxMembers)
      requires S.Run(trace, maxMembers) == Some(World()) && World().conns.Keys + retired <= Ids(script[..i])
      modifies this`hooks, this`retired, ns, ns.sockets.Values
      ensures Valid() && Follows(script[..i + 1], trace', maxMembers)
      ensures S.Run(trace', maxMembers) == Some(World()) && World().conns.Keys + retired <= Ids(script[..i + 1])
      ensures forall s :: s in ns.sockets ==>
                if s in old(ns.sockets) then ns.sockets[s] == old(ns.sockets)[s] else fresh(ns.sockets[s])
    {
      hide Valid, Follows, S.Run, S.Next, S.Possible, Ids, Namespace.Conns, FreshIds, Roster;
      SocketsAreConns();
      IdsSoFar(script, i);
      ghost var before := World();
      if Addressed(script[i]) {
        ghost var done := Handle(script[i]);
        S.NextUsesNoOtherId(before, done, maxMembers);
        OneMoreServed(script, i, trace, done, maxMembers);
        trace' := trace + [done];
      } else {
        OneMoreSkipped(script, i, trace, maxMembers);
        trace' := trace;
      }
    }

    lemma CopiesMatchTables(trace: seq<S.Step>)
      requires Valid() && S.Run(trace, maxMembers) == Some(World())
      ensures forall s, c :: s in ns.sockets && !ns.sockets[s].forceClose && c in ns.sockets[s].presence ==>
                Replicas.Replica(ns.sockets[s].log, c) == Some(Infos(RoomAt(ns.presence, c)))
    {
      Replicas.ReplicasConverge(trace, maxMembers);
      forall s, c | s in ns.sockets && !ns.sockets[s].forceClose && c in ns.sockets[s].presence
        ensures Replicas.Replica(ns.sockets[s].log, c) == Some(Infos(RoomAt(ns.presence, c)))
      {
        RosterIsRooms(ns.presence, World(), c);
        assert World().conns[s] == ns.sockets[s].View();
      }
    }

    lemma NothingServed()
      requires World() == S.EMPTY
      ensures Follows([], [], maxMembers) && S.Run([], maxMembers) == Some(World()) && ns.sockets == map[]
    {
      assert ns.Conns().Keys == ns.sockets.Keys;
    }
  }

  ghost predicate SameEvent(step: S.Step, done: S.Step) {
    done == step || (step.Closing? && done.Closing? && done.s == step.s)
  }

  ghost predicate AddressedIn(w: S.World, step: S.Step) {
    step.Connecting? || step.Publishing? || step.Terminating? || step.s in w.conns
  }

  /** `trace` is what `script` amounts to: events for sockets that are not open do not
      occur, every other event is a step. */
  ghost predicate Follows(script: seq<S.Step>, trace: seq<S.Step>, max: nat)
    decreases |script|
  {
    if script == [] then trace == []
    else
      var rest, last := script[..|script| - 1], script[|script| - 1];
      || (trace != [] && SameEvent(last, trace[|trace| - 1]) && Follows(rest, trace[..|trace| - 1], max))
      || (S.Run(trace, max).Some? && !AddressedIn(S.Run(trace, max).value, last) && Follows(rest, trace, max))
  }

  ghost function Ids(script: seq<S.Step>): set<SocketId> {
    set i | 0 <= i < |script| && script[i].Connecting? :: script[i].s
  }

  ghost predicate FreshIds(script: seq<S.Step>) {
    forall i, j :: 0 <= i < j < |script| && script[i].Connecting? && script[j].Connecting? ==>
      script[i].s != script[j].s
  }

  lemma IdsSoFar(script: seq<S.Step>, i: nat)
    requires i < |script| && FreshIds(script)
    ensures Ids(script[..i + 1]) == Ids(script[..i]) + if script[i].Connecting? then {script[i].s} else {}
    ensures script[i].Connecting? ==> script[i].s !in Ids(script[..i])
  {
  }

  lemma OneMoreServed(script: seq<S.Step>, i: nat, trace: seq<S.Step>, done: S.Step, max: nat)
    requires i < |script| && Follows(script[..i], trace, max) && SameEvent(script[i], done)
    requires S.Run(trace, max).Some? && S.Possible(S.Run(trace, max).value, done)
    ensures Follows(script[..i + 1], trace + [done], max)
    ensures S.Run(trace + [done], max) == Some(S.Next(S.Run(trace, max).value, done, max))
  {
    assert script[..i + 1][..i] == script[..i];
    assert (trace + [done])[..|trace + [done]| - 1] == trace;
  }

  lemma OneMoreSkipped(script: seq<S.Step>, i: nat, trace: seq<S.Step>, max: nat)
    requires i < |script| && Follows(script[..i], trace, max)
    requires S.Run(trace, max).Some? && !AddressedIn(S.Run(trace, max).value, script[i])
    ensures Follows(script[..i + 1], trace, max)
  {
    assert script[..i + 1][..i] == script[..i];
  }

  lemma SameSize<K, V, W>(a: map<K, V>, b: map<K, W>)
    requires a.Keys == b.Keys
    ensures |a| == |b|
  {
    assert |a| == |a.Keys| && |b| == |b.Keys|;
  }

  lemma OneMoreUnsubscribed(w: S.World, s: SocketId, order: seq<Channel>, c: Channel)
    requires s in w.conns
    ensures S.UnsubscribeAll(w, s, order + [c]) == S.Unsubscribe(S.UnsubscribeAll(w, s, order), s, c)
  {
    assert (order + [c])[..|order + [c]| - 1] == order;
  }

  lemma NoMemberMeansEmpty<T>(xs: seq<T>)
    ensures (exists x :: x in xs) || xs == []
  {
    if |xs| > 0 { assert xs[0] in xs; }
  }

  lemma OneMoreListed<T>(order: seq<T>, c: T)
    requires S.Distinct(order) && c !in order
    ensures S.Distinct(order + [c]) && forall d :: d in order + [c] <==> d in order || d == c
  {
  }

  lemma CloseIsPossible(w: S.World, s: SocketId, order: seq<Channel>)
    requires s in w.conns && S.Distinct(order) && forall c :: c in order <==> c in w.conns[s].channels
    ensures S.Possible(w, S.Closing(s, order))
    ensures var left := S.UnsubscribeAll(w, s, order);
            S.Close(w, s, order) == left.(conns := left.conns - {s}, retired := left.retired + {s})
  {
  }

  lemma OneMoreTerminated(conns: ConnTable, done: set<SocketId>, s: SocketId)
    requires s in conns && s !in done
    ensures var some := S.TerminateAll(conns, done);
            S.TerminateAll(conns, done + {s}) == some[s := S.Terminated(some[s])]
  {
  }
}
