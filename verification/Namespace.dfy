/** The per-app tables and the methods that update them. */
module Namespaces {
  import opened Protocol
  import opened Tables
  import opened Connection
  import Subscriptions

  class Namespace {
    var sockets: map<SocketId, WsConnection>
    var connectionCount: nat
    var channels: ChannelIndex
    var socketChannels: SocketIndex
    var presence: map<Channel, Room>
    var users: UserIndex

    ghost predicate Keyed()
      reads this`sockets
    {
      forall s :: s in sockets ==> sockets[s].socketId == s
    }

    ghost predicate Registered(conn: WsConnection)
      reads this`sockets
    {
      conn.socketId in sockets && sockets[conn.socketId] == conn
    }

    /** What every method keeps, whatever the order of calls. */
    ghost predicate Valid()
      reads this
    {
      && Keyed()
      && connectionCount == |sockets|
      && Dual(channels, socketChannels) && NoEmptySet(channels)
      && SeatsTaken(presence)
      && NoEmptySet(users)
    }

    ghost function Conns(): ConnTable
      reads this`sockets, sockets.Values
    {
      map s | s in sockets :: sockets[s].View()
    }

    lemma Listed(conn: WsConnection)
      requires Registered(conn)
      ensures conn.socketId in Conns() && Conns()[conn.socketId] == conn.View()
      ensures conn.View().channels == conn.subscribedChannels && conn.View().presence == conn.presence
    {
    }

    lemma ConnsAreSockets()
      ensures Conns().Keys == sockets.Keys
    {
    }

    ghost function View(): Tables
      reads this`channels, this`socketChannels, this`presence
    {
      Tables(channels, socketChannels, presence)
    }

    constructor ()
      ensures Valid() && sockets == map[] && presence == map[]
      ensures channels == map[] && socketChannels == map[] && users == map[]
    {
      sockets, connectionCount := map[], 0;
      channels, socketChannels, presence, users := map[], map[], map[], map[];
    }

    /** Counting and inserting are separate here, so the count is the number of
        sockets afterwards exactly when the id was fresh. */
    method AddSocket(conn: WsConnection)
      requires Valid()
      modifies this`sockets, this`connectionCount
      ensures sockets == old(sockets)[conn.socketId := conn]
      ensures connectionCount == old(connectionCount) + 1
      ensures Valid() <==> conn.socketId !in old(sockets)
    {
      sockets := sockets[conn.socketId := conn];
      connectionCount := connectionCount + 1;
      if conn.socketId in old(sockets) {
        assert sockets.Keys == old(sockets).Keys;
        assert |sockets.Keys| == |old(sockets).Keys|;
      } else {
        assert sockets.Keys == old(sockets).Keys + {conn.socketId};
      }
    }

    /** Refuses exactly when a non-negative limit is reached. */
    method TryAddSocket(conn: WsConnection, limit: int) returns (ok: bool)
      requires Valid() && conn.socketId !in sockets
      modifies this`sockets, this`connectionCount
      ensures Valid()
      ensures ok <==> limit < 0 || |old(sockets)| < limit
      ensures sockets == if ok then old(sockets)[conn.socketId := conn] else old(sockets)
      ensures Conns() == if ok then old(Conns())[conn.socketId := conn.View()] else old(Conns())
    {
      if limit < 0 {
        AddSocket(conn);
        return true;
      }
      // compare_exchange_weak may fail for no reason, any finite number of times
      var spurious: nat := *;
      while true
        invariant connectionCount == old(connectionCount) && sockets == old(sockets)
        decreases spurious
      {
        var current := connectionCount;
        if current >= limit {
          return false;
        }
        if spurious == 0 {
          connectionCount := current + 1;
          Insert(conn);
          return true;
        }
        spurious := spurious - 1;
      }
    }

    method Insert(conn: WsConnection)
      requires Keyed() && conn.socketId !in sockets
      modifies this`sockets
      ensures Keyed() && sockets == old(sockets)[conn.socketId := conn] && |sockets| == |old(sockets)| + 1
      ensures Conns() == old(Conns())[conn.socketId := conn.View()]
    {
      sockets := sockets[conn.socketId := conn];
      Grown(old(sockets), conn);
      assert Conns() == old(Conns())[conn.socketId := conn.View()] by { hide WsConnection.View; }
    }

    /** Follows the reverse index, and does what visiting every channel would do. */
    method RemoveSocket(s: SocketId) returns (vacated: seq<Channel>)
      requires Valid()
      modifies this`sockets, this`connectionCount, this`channels, this`socketChannels
      ensures Valid()
      ensures sockets == old(sockets) - {s} && Conns() == old(Conns()) - {s}
      ensures View() == After(old(View()), Call.RemoveSocket(s))
      ensures Subscriptions.Distinct(vacated)
      ensures forall c :: c in vacated <==> c in old(channels) && old(channels)[c] == {s}
    {
      DropSocket(s);
      vacated := DropIndex(s);
    }

    method DropIndex(s: SocketId) returns (vacated: seq<Channel>)
      requires Valid()
      modifies this`channels, this`socketChannels
      ensures Valid() && View() == After(old(View()), Call.RemoveSocket(s))
      ensures Subscriptions.Distinct(vacated)
      ensures forall c :: c in vacated <==> c in old(channels) && old(channels)[c] == {s}
    {
      ListedSuffices(channels, socketChannels, s);
      ScanKeepsDual(channels, socketChannels, s);
      hide Dual;
      vacated := [];
      if s in socketChannels {
        var chans := socketChannels[s];
        socketChannels := socketChannels - {s};
        vacated := LeaveAll(s, chans);
      } else {
        assert socketChannels - {s} == socketChannels;
      }
    }

    method DropSocket(s: SocketId)
      requires connectionCount == |sockets|
      modifies this`sockets, this`connectionCount
      ensures connectionCount == |sockets|
      ensures sockets == old(sockets) - {s} && Conns() == old(Conns()) - {s}
    {
      if s in sockets {
        assert sockets.Keys == (sockets - {s}).Keys + {s};
        sockets := sockets - {s};
        connectionCount := connectionCount - 1;
      } else {
        assert sockets - {s} == sockets;
      }
    }

    /** Takes `s` out of the given channels, dropping and listing those it empties. */
    method LeaveAll(s: SocketId, chans: set<Channel>) returns (vacated: seq<Channel>)
      modifies this`channels
      ensures channels == PartlyScanned(old(channels), s, chans)
      ensures Subscriptions.Distinct(vacated)
      ensures forall c :: c in vacated <==> c in chans && c in old(channels) && old(channels)[c] - {s} == {}
    {
      vacated := [];
      var todo := chans;
      assert channels == PartlyScanned(channels, s, {});
      while todo != {}
        invariant todo <= chans
        invariant channels == PartlyScanned(old(channels), s, chans - todo)
        invariant Subscriptions.Distinct(vacated)
        invariant forall c :: c in vacated <==> c in chans - todo && c in old(channels) && old(channels)[c] - {s} == {}
        decreases todo
      {
        var c :| c in todo;
        var isEmpty := false;
        if c in channels {
          channels := channels[c := channels[c] - {s}];
          isEmpty := channels[c] == {};
        }
        if isEmpty {
          channels := channels - {c};
          vacated := vacated + [c];
        }
        todo := todo - {c};
        assert channels == PartlyScanned(old(channels), s, chans - todo);
      }
      assert chans - todo == chans;
    }

    method AddToChannel(s: SocketId, channel: Channel) returns (occupied: bool)
      requires Valid()
      modifies this`channels, this`socketChannels
      ensures Valid()
      ensures View() == After(old(View()), Call.AddToChannel(s, channel))
      ensures Conns() == old(Conns())
      ensures occupied == (At(old(channels), channel) == {})
    {
      var entry := if channel in channels then channels[channel] else {};
      occupied := entry == {};
      channels := channels[channel := entry + {s}];
      socketChannels := socketChannels[s := (if s in socketChannels then socketChannels[s] else {}) + {channel}];
      PutKeepsDual(old(channels), old(socketChannels), s, channel);
    }

    method RemoveFromChannel(s: SocketId, channel: Channel) returns (vacated: bool)
      requires Valid()
      modifies this`channels, this`socketChannels
      ensures Valid()
      ensures View() == After(old(View()), Call.RemoveFromChannel(s, channel))
      ensures Conns() == old(Conns())
      ensures vacated == Vacates(old(channels), channel, s)
    {
      hide Dual;
      vacated := false;
      if channel in channels {
        channels := channels[channel := channels[channel] - {s}];
        vacated := channels[channel] == {};
      }
      if vacated {
        channels := channels - {channel};
      }
      if s in socketChannels {
        socketChannels := socketChannels[s := socketChannels[s] - {channel}];
      }
      assert channels == Take(old(channels), channel, s);
      TakeKeepsDual(old(channels), old(socketChannels), s, channel);
    }

    /** Every member of the channel but the excepted one gets the message or is
        flagged; every other connection is untouched. */
    method SendToChannel(channel: Channel, m: Message, except: Option<SocketId>)
      requires Keyed()
      modifies sockets.Values`queue, sockets.Values`forceClose, sockets.Values`log
      ensures Conns() == Subscriptions.FanOut(old(Conns()), At(channels, channel), m, except)
    {
      hide Conns, Subscriptions.FanOut, Enqueue;
      ConnsAreSockets();
      if channel in channels {
        ghost var before := Conns();
        var todo := channels[channel];
        Subscriptions.FanOutToNobody(before, m, except);
        assert channels[channel] - todo == {};
        while todo != {}
          invariant todo <= channels[channel]
          invariant Conns() == Subscriptions.FanOut(before, channels[channel] - todo, m, except)
          decreases todo
        {
          var s :| s in todo;
          Subscriptions.FanOutToOneMore(before, channels[channel] - todo, s, m, except);
          assert channels[channel] - (todo - {s}) == channels[channel] - todo + {s};
          todo := todo - {s};
          if Some(s) != except && s in sockets {
            Listed(sockets[s]);
            SendTo(sockets[s], m);
          }
        }
        assert channels[channel] - todo == channels[channel];
      } else {
        Subscriptions.FanOutToNobody(Conns(), m, except);
      }
    }

    method SendTo(conn: WsConnection, m: Message)
      requires Keyed() && Registered(conn)
      modifies conn`queue, conn`forceClose, conn`log
      ensures Conns() == old(Conns())[conn.socketId := Enqueue(old(conn.View()), m)]
    {
      var _ := conn.SendRaw(m);
    }

    /** The connection's own side of joining a channel, seen from the table of sockets. */
    method NoteChannel(conn: WsConnection, channel: Channel)
      requires Keyed() && Registered(conn)
      modifies conn`subscribedChannels
      ensures Conns() == old(Conns())[conn.socketId := WithChannel(old(conn.View()), channel)]
    {
      conn.AddChannel(channel);
    }

    method NotePresence(conn: WsConnection, channel: Channel, u: UserId, info: Info)
      requires Keyed() && Registered(conn)
      modifies conn`subscribedChannels, conn`presence
      ensures Conns() == old(Conns())[conn.socketId := WithPresence(old(conn.View()), channel, u, info)]
    {
      ghost var c := conn.View();
      conn.AddChannel(channel);
      conn.SetPresence(channel, u, info);
      assert conn.View() == WithPresence(c, channel, u, info);
    }

    /** The connection's own side of leaving. */
    method ForgetPresence(conn: WsConnection, channel: Channel) returns (r: Option<Identity>)
      requires Keyed() && Registered(conn)
      modifies conn`presence
      ensures r == if channel in old(conn.presence) then Some(old(conn.presence)[channel]) else None
      ensures Conns() == old(Conns())[conn.socketId := old(conn.View()).(presence := old(conn.presence) - {channel})]
    {
      r := conn.RemovePresence(channel);
    }

    method ForgetChannel(conn: WsConnection, channel: Channel)
      requires Keyed() && Registered(conn)
      modifies conn`subscribedChannels
      ensures var left := old(conn.View()).(channels := old(conn.subscribedChannels) - {channel});
              Conns() == old(Conns())[conn.socketId := left]
    {
      conn.RemoveChannel(channel);
    }

    method NoteUser(conn: WsConnection, u: UserId)
      requires Keyed() && Registered(conn)
      modifies conn`user, conn`identities
      ensures Conns() == old(Conns())[conn.socketId := Identified(old(conn.View()), u)]
    {
      conn.SetUser(u);
    }

    /** The client reads the oldest message it has not read. */
    method DeliverTo(conn: WsConnection) returns (m: Option<Message>)
      requires Keyed() && Registered(conn)
      modifies conn`queue, conn`read
      ensures m == if old(conn.queue) == [] then None else Some(old(conn.queue)[0])
      ensures Conns() == old(Conns())[conn.socketId := Delivered(old(conn.View()))]
    {
      m := conn.Deliver();
    }

    /** A last message, if there is room for it, and the flag in any case. */
    method TerminateOne(conn: WsConnection)
      requires Keyed() && Registered(conn)
      modifies conn`queue, conn`forceClose, conn`log
      ensures Conns() == old(Conns())[conn.socketId := Subscriptions.Terminated(old(conn.View()))]
    {
      var _ := conn.SendRaw(Error(Reason.Terminated));
      conn.ForceClose();
    }

    method GetPresenceMembers(channel: Channel) returns (members: map<UserId, Info>)
      ensures members == Infos(RoomAt(presence, channel))
    {
      members := if channel in presence then map u | u in presence[channel] :: presence[channel][u].info else map[];
    }

    method AddPresenceMember(channel: Channel, s: SocketId, u: UserId, info: Info) returns (isNew: bool)
      requires Valid()
      modifies this`presence
      ensures Valid()
      ensures View() == After(old(View()), AddMember(channel, s, u, info))
      ensures Conns() == old(Conns())
      ensures isNew == (u !in RoomAt(old(presence), channel))
    {
      var room: Room := if channel in presence then presence[channel] else map[];
      isNew := u !in room;
      room := room[u := if u in room then Member(room[u].info, room[u].sockets + {s}) else Member(info, {s})];
      presence := presence[channel := room];
      EnterKeepsSeats(old(presence), channel, s, u, info);
    }

    /** `Some((isNew, members))` when admitted, `None` when over the limit. */
    method TryAddPresenceMember(channel: Channel, s: SocketId, u: UserId, info: Info, max: nat)
      returns (r: Option<(bool, map<UserId, Info>)>)
      requires Valid()
      modifies this`presence
      ensures Valid()
      ensures r.Some? <==> Admits(RoomAt(old(presence), channel), u, max)
      ensures View() == After(old(View()), TryAddMember(channel, s, u, info, max))
      ensures Conns() == old(Conns())
      ensures r.Some? ==> r.value == (u !in RoomAt(old(presence), channel), Infos(presence[channel]))
    {
      hide Dual, NoEmptySet, SeatsTaken, TryEnter, Conns, Keyed;
      var room: Room := if channel in presence then presence[channel] else map[];
      presence := presence[channel := room];
      var already := u in room;
      TryEnterIs(old(presence), channel, s, u, info, max);
      TryEnterKeepsSeats(old(presence), channel, s, u, info, max);
      if !already && |room| >= max {
        return None;
      }
      room := room[u := if already then Member(room[u].info, room[u].sockets + {s}) else Member(info, {s})];
      presence := presence[channel := room];
      return Some((!already, map v | v in room :: room[v].info));
    }

    method RemovePresenceMember(channel: Channel, s: SocketId, u: UserId) returns (gone: bool)
      requires Valid()
      modifies this`presence
      ensures Valid()
      ensures View() == After(old(View()), RemoveMember(channel, s, u))
      ensures Conns() == old(Conns())
      ensures gone == Gone(old(presence), channel, s, u)
    {
      gone := false;
      if channel in presence {
        var room := presence[channel];
        if u in room {
          var left := room[u].sockets - {s};
          room := room[u := Member(room[u].info, left)];
          if left == {} {
            room := room - {u};
            gone := true;
          }
        }
        assert room == Unseat(old(presence)[channel], s, u);
        if room == map[] {
          presence := presence - {channel};
        } else {
          presence := presence[channel := room];
        }
      }
      ExitKeepsSeats(old(presence), channel, s, u);
    }

    method AddUser(u: UserId, s: SocketId)
      requires Valid()
      modifies this`users
      ensures Valid() && users == Put(old(users), u, s) && Conns() == old(Conns())
    {
      users := users[u := (if u in users then users[u] else {}) + {s}];
    }

    method RemoveUser(u: UserId, s: SocketId)
      requires Valid()
      modifies this`users
      ensures Valid() && users == Take(old(users), u, s) && Conns() == old(Conns())
    {
      if u in users {
        var left := users[u] - {s};
        users := users[u := left];
        if left == {} {
          users := users - {u};
        }
      }
      assert users == Take(old(users), u, s);
    }

    /** The registered sockets of a user that are still open. */
    method GetSocketsForUser(u: UserId) returns (found: set<WsConnection>)
      ensures found == set s | s in At(users, u) && s in sockets :: sockets[s]
    {
      found := if u in users then set s | s in users[u] && s in sockets :: sockets[s] else {};
    }
  }

  lemma Grown(sockets: map<SocketId, WsConnection>, conn: WsConnection)
    requires conn.socketId !in sockets
    ensures |sockets[conn.socketId := conn]| == |sockets| + 1
  {
    assert sockets[conn.socketId := conn].Keys == sockets.Keys + {conn.socketId};
  }

  /** First the room is looked up, and made if there is none; then the member is added. */
  lemma TryEnterIs(rooms: map<Channel, Room>, c: Channel, s: SocketId, u: UserId, info: Info, max: nat)
    ensures var room := RoomAt(rooms, c);
            TryEnter(rooms, c, s, u, info, max)
              == if Admits(room, u, max) then rooms[c := room][c := Seat(room, s, u, info)] else rooms[c := room]
  {
  }

  /** `channels` with `s` already gone from those of `done`. */
  ghost function PartlyScanned(channels: ChannelIndex, s: SocketId, done: set<Channel>): ChannelIndex {
    map c | c in channels && (c !in done || channels[c] - {s} != {}) ::
      if c in done then channels[c] - {s} else channels[c]
  }

  /** Visiting the channels the reverse index lists is as good as visiting all. */
  lemma ListedSuffices(channels: ChannelIndex, socketChannels: SocketIndex, s: SocketId)
    requires Dual(channels, socketChannels) && NoEmptySet(channels)
    ensures PartlyScanned(channels, s, At(socketChannels, s)) == Scan(channels, s)
    ensures forall c :: c in channels ==>
              (channels[c] == {s} <==> c in At(socketChannels, s) && channels[c] - {s} == {})
    ensures At(socketChannels, s) == {} ==> Scan(channels, s) == channels
  {
    forall c | c in channels
      ensures s in channels[c] <==> c in At(socketChannels, s)
      ensures s !in channels[c] ==> channels[c] - {s} == channels[c]
    {
      assert s in At(channels, c) <==> c in At(socketChannels, s);
    }
  }
}
