/** The tables of a namespace are projections of what each connection says about
    itself, and the table updates are the steps of the simple machine. */
module Agreement {
  import opened Protocol
  import opened Tables
  import opened Connection
  import opened Subscriptions

  /** `s` is in `channels[c]` iff `c` is in `socketChannels[s]` iff connection `s` is subscribed to `c`. */
  ghost predicate ChannelsAgree(conns: ConnTable, channels: ChannelIndex, socketChannels: SocketIndex) {
    && (forall c :: At(channels, c) == Subscribers(conns, c))
    && (forall s :: s in conns ==> At(socketChannels, s) == conns[s].channels)
    && socketChannels.Keys <= conns.Keys
  }

  ghost function Seated(rooms: map<Channel, Room>, c: Channel, u: UserId): set<SocketId> {
    if u in RoomAt(rooms, c) then RoomAt(rooms, c)[u].sockets else {}
  }

  /** The sockets listed for `u` in `c` are those whose connection joined as `u`. */
  ghost predicate RoomsAgree(conns: ConnTable, rooms: map<Channel, Room>) {
    forall c, u :: Seated(rooms, c, u) == Holders(conns, c, u)
  }

  /** Among open sockets, the user index lists whoever ever signed in; closed ones may linger. */
  ghost predicate UsersAgree(conns: ConnTable, users: UserIndex, retired: set<SocketId>) {
    forall u :: At(users, u) * conns.Keys == SignedIn(conns, u) && At(users, u) <= conns.Keys + retired
  }

  ghost predicate AllAgree(conns: ConnTable, t: Tables, users: UserIndex, retired: set<SocketId>) {
    && ChannelsAgree(conns, t.channels, t.socketChannels)
    && RoomsAgree(conns, t.rooms)
    && UsersAgree(conns, users, retired)
    && KindsMatch(conns)
    && conns.Keys !! retired
  }

  /** Who is present where, read off the rooms. */
  ghost function Roster(rooms: map<Channel, Room>): map<Channel, map<UserId, Info>> {
    map c | c in rooms && rooms[c] != map[] :: Infos(rooms[c])
  }

  // -- mail --------------------------------------------------------------------------

  ghost predicate SameIdentities(a: ConnTable, b: ConnTable) {
    a.Keys == b.Keys && forall s :: s in a ==> a[s].identities == b[s].identities
  }

  lemma MailAgrees(a: ConnTable, b: ConnTable, t: Tables, users: UserIndex, retired: set<SocketId>)
    requires AllAgree(a, t, users, retired) && SameSeats(a, b) && SameIdentities(a, b)
    ensures AllAgree(b, t, users, retired)
  {
    hide UsersAgree;
    SameSeatsSameSets(a, b);
    SameSeatsKeepKinds(a, b);
    SameIdentitiesAgree(a, b, users, retired);
  }

  lemma SameIdentitiesAgree(a: ConnTable, b: ConnTable, users: UserIndex, retired: set<SocketId>)
    requires UsersAgree(a, users, retired) && SameIdentities(a, b)
    ensures UsersAgree(b, users, retired)
  {
  }

  lemma FanOutAgrees(conns: ConnTable, to: set<SocketId>, m: Message, except: Option<SocketId>,
                     t: Tables, users: UserIndex, retired: set<SocketId>)
    requires AllAgree(conns, t, users, retired)
    ensures AllAgree(FanOut(conns, to, m, except), t, users, retired)
  {
    hide AllAgree;
    MailAgrees(conns, FanOut(conns, to, m, except), t, users, retired);
  }

  lemma TerminatedAgrees(conns: ConnTable, which: set<SocketId>, t: Tables, users: UserIndex, retired: set<SocketId>)
    requires AllAgree(conns, t, users, retired)
    ensures AllAgree(TerminateAll(conns, which), t, users, retired)
  {
    hide AllAgree;
    MailAgrees(conns, TerminateAll(conns, which), t, users, retired);
  }

  lemma EnqueueAgrees(conns: ConnTable, s: SocketId, m: Message, t: Tables, users: UserIndex, retired: set<SocketId>)
    requires AllAgree(conns, t, users, retired) && s in conns
    ensures AllAgree(conns[s := Enqueue(conns[s], m)], t, users, retired)
  {
    MailAgrees(conns, conns[s := Enqueue(conns[s], m)], t, users, retired);
  }

  // -- connecting ----------------------------------------------------------------------

  lemma FreshAgrees(conns: ConnTable, s: SocketId, t: Tables, users: UserIndex, retired: set<SocketId>)
    requires AllAgree(conns, t, users, retired) && s !in conns && s !in retired
    ensures AllAgree(conns[s := FRESH], t, users, retired)
  {
    hide UsersAgree;
    var more := conns[s := FRESH];
    OneSocketMoves(conns, s, FRESH);
    FreshIsNobody(conns, s, users, retired);
    forall x ensures x in more ==> At(t.socketChannels, x) == more[x].channels {}
    assert PresenceMatchesKind(FRESH);
  }

  lemma FreshIsNobody(conns: ConnTable, s: SocketId, users: UserIndex, retired: set<SocketId>)
    requires UsersAgree(conns, users, retired) && s !in conns && s !in retired
    ensures UsersAgree(conns[s := FRESH], users, retired)
  {
    forall u ensures s !in At(users, u) {
      assert At(users, u) <= conns.Keys + retired;
    }
    ReuseIffForgotten(conns, users, retired, s);
  }

  /** A socket id may be used again without misrouting users exactly when the index
      has forgotten it; it has not, for a socket that signed in as two users. */
  lemma ReuseIffForgotten(conns: ConnTable, users: UserIndex, retired: set<SocketId>, s: SocketId)
    requires UsersAgree(conns, users, retired) && s !in conns
    ensures UsersAgree(conns[s := FRESH], users, retired) <==> forall u :: s !in At(users, u)
  {
    var more := conns[s := FRESH];
    forall u
      ensures SignedIn(more, u) == SignedIn(conns, u)
      ensures At(users, u) * more.Keys == At(users, u) * conns.Keys + At(users, u) * {s}
    {
      OneSocketSigns(conns, s, FRESH, u);
      assert s !in SignedIn(conns, u);
    }
    if forall u :: s !in At(users, u) {
      forall u ensures At(users, u) * more.Keys == SignedIn(more, u) && At(users, u) <= more.Keys + retired {
        assert At(users, u) * conns.Keys == SignedIn(conns, u) && At(users, u) <= conns.Keys + retired;
      }
    } else {
      var u :| s in At(users, u);
      assert s in At(users, u) * more.Keys && s !in SignedIn(more, u);
    }
  }

  // -- channels -----------------------------------------------------------------------

  lemma PutAgrees(conns: ConnTable, channels: ChannelIndex, socketChannels: SocketIndex,
                  s: SocketId, c: Channel, conn: Conn)
    requires ChannelsAgree(conns, channels, socketChannels) && s in conns
    requires conn.channels == conns[s].channels + {c}
    ensures ChannelsAgree(conns[s := conn], Put(channels, c, s), Put(socketChannels, s, c))
  {
    OneSocketMoves(conns, s, conn);
    forall d ensures At(Put(channels, c, s), d) == Subscribers(conns[s := conn], d) {
      assert At(channels, d) == Subscribers(conns, d);
      assert s in Subscribers(conns, d) <==> d in conns[s].channels;
    }
  }

  lemma TakeAgrees(conns: ConnTable, channels: ChannelIndex, socketChannels: SocketIndex,
                   s: SocketId, c: Channel, conn: Conn)
    requires ChannelsAgree(conns, channels, socketChannels) && s in conns
    requires conn.channels == conns[s].channels - {c}
    ensures ChannelsAgree(conns[s := conn], Take(channels, c, s), Erase(socketChannels, s, c))
  {
    OneSocketMoves(conns, s, conn);
    forall d ensures At(Take(channels, c, s), d) == Subscribers(conns[s := conn], d) {
      assert At(channels, d) == Subscribers(conns, d);
      assert s in Subscribers(conns, d) <==> d in conns[s].channels;
    }
  }

  // -- presence -----------------------------------------------------------------------

  lemma RosterIsRooms(rooms: map<Channel, Room>, w: World, c: Channel)
    requires w.roster == Roster(rooms)
    ensures RosterAt(w, c) == Infos(RoomAt(rooms, c))
    ensures RosterAt(w, c).Keys == RoomAt(rooms, c).Keys && |RosterAt(w, c)| == |RoomAt(rooms, c)|
  {
    assert RosterAt(w, c).Keys == RoomAt(rooms, c).Keys;
    assert |RosterAt(w, c)| == |RosterAt(w, c).Keys| && |RoomAt(rooms, c)| == |RoomAt(rooms, c).Keys|;
  }

  lemma EnterAgrees(conns: ConnTable, rooms: map<Channel, Room>, s: SocketId, c: Channel, u: UserId, info: Info,
                    conn: Conn)
    requires RoomsAgree(conns, rooms) && s in conns && c !in conns[s].presence
    requires conn.presence == conns[s].presence[c := Identity(u, info)]
    ensures RoomsAgree(conns[s := conn], Enter(rooms, c, s, u, info))
  {
    OneSocketMoves(conns, s, conn);
    forall d, v ensures Seated(Enter(rooms, c, s, u, info), d, v) == Holders(conns[s := conn], d, v) {
      assert Seated(rooms, d, v) == Holders(conns, d, v);
      assert Holds(conn, d, v) <==> Holds(conns[s], d, v) || (d == c && v == u);
      assert s in Holders(conns, d, v) <==> Holds(conns[s], d, v);
      EnterSeats(rooms, c, s, u, info, d, v);
    }
  }

  lemma EnterSeats(rooms: map<Channel, Room>, c: Channel, s: SocketId, u: UserId, info: Info, d: Channel, v: UserId)
    ensures Seated(Enter(rooms, c, s, u, info), d, v) == Seated(rooms, d, v) + (if d == c && v == u then {s} else {})
  {
  }

  lemma EnterInfos(rooms: map<Channel, Room>, s: SocketId, c: Channel, u: UserId, info: Info, w: World)
    requires w.roster == Roster(rooms)
    ensures Infos(Enter(rooms, c, s, u, info)[c])
         == if u in RosterAt(w, c) then RosterAt(w, c) else RosterAt(w, c)[u := info]
  {
    RosterIsRooms(rooms, w, c);
  }

  lemma EnterRoster(rooms: map<Channel, Room>, s: SocketId, c: Channel, u: UserId, info: Info)
    ensures Roster(Enter(rooms, c, s, u, info)) == Roster(rooms)[c := Infos(Enter(rooms, c, s, u, info)[c])]
  {
    assert u in Enter(rooms, c, s, u, info)[c];
  }

  lemma RefusedRoster(rooms: map<Channel, Room>, c: Channel)
    ensures Roster(rooms[c := RoomAt(rooms, c)]) == Roster(rooms)
    ensures forall d :: RoomAt(rooms[c := RoomAt(rooms, c)], d) == RoomAt(rooms, d)
  {
  }

  /** Being refused leaves at most an empty room behind, which nobody can see. */
  lemma RefusedIsInvisible(conns: ConnTable, t: Tables, users: UserIndex, retired: set<SocketId>, c: Channel)
    requires AllAgree(conns, t, users, retired)
    ensures AllAgree(conns, t.(rooms := t.rooms[c := RoomAt(t.rooms, c)]), users, retired)
    ensures Roster(t.rooms[c := RoomAt(t.rooms, c)]) == Roster(t.rooms)
  {
    RefusedRoster(t.rooms, c);
    forall d, u ensures Seated(t.rooms[c := RoomAt(t.rooms, c)], d, u) == Holders(conns, d, u) {
      assert Seated(t.rooms, d, u) == Holders(conns, d, u);
    }
  }

  lemma ExitSeats(rooms: map<Channel, Room>, c: Channel, s: SocketId, u: UserId, d: Channel, v: UserId)
    requires SeatsTaken(rooms)
    ensures Seated(Exit(rooms, c, s, u), d, v) == Seated(rooms, d, v) - (if d == c && v == u then {s} else {})
  {
    ExitMovesUser(rooms, c, s, u, d, v);
  }

  lemma ExitAgrees(conns: ConnTable, rooms: map<Channel, Room>, s: SocketId, c: Channel, conn: Conn)
    requires RoomsAgree(conns, rooms) && SeatsTaken(rooms) && s in conns && c in conns[s].presence
    requires conn.presence == conns[s].presence - {c}
    ensures RoomsAgree(conns[s := conn], Exit(rooms, c, s, conns[s].presence[c].user))
  {
    var u := conns[s].presence[c].user;
    OneSocketMoves(conns, s, conn);
    forall d, v ensures Seated(Exit(rooms, c, s, u), d, v) == Holders(conns[s := conn], d, v) {
      assert Seated(rooms, d, v) == Holders(conns, d, v);
      assert Holds(conn, d, v) <==> Holds(conns[s], d, v) && d != c;
      assert s in Holders(conns, d, v) <==> Holds(conns[s], d, v);
      ExitSeats(rooms, c, s, u, d, v);
    }
  }

  lemma ExitRoster(rooms: map<Channel, Room>, s: SocketId, c: Channel, u: UserId, w: World)
    requires w.roster == Roster(rooms) && u in RoomAt(rooms, c)
    ensures var members := RosterAt(w, c) - {u};
            Roster(Exit(rooms, c, s, u)) ==
              (if !Gone(rooms, c, s, u) then w.roster
               else if members == map[] then w.roster - {c} else w.roster[c := members])
  {
    RosterIsRooms(rooms, w, c);
    var room, left := rooms[c], Unseat(rooms[c], s, u);
    if Gone(rooms, c, s, u) {
      assert Infos(left) == Infos(room) - {u};
      assert left == map[] <==> Infos(room) - {u} == map[] by {
        assert left.Keys == (Infos(room) - {u}).Keys;
      }
    } else {
      assert Infos(left) == Infos(room);
      assert u in left;
    }
  }

  lemma TableListsSubscribers(conns: ConnTable, t: Tables, users: UserIndex, retired: set<SocketId>, c: Channel)
    requires AllAgree(conns, t, users, retired)
    ensures At(t.channels, c) == Subscribers(conns, c)
  {
  }

  // -- users ------------------------------------------------------------------------------

  lemma IdentifiedAgrees(conns: ConnTable, s: SocketId, u: UserId, t: Tables, users: UserIndex, retired: set<SocketId>)
    requires AllAgree(conns, t, users, retired) && s in conns
    ensures AllAgree(conns[s := Identified(conns[s], u)], t, Put(users, u, s), retired)
  {
    hide UsersAgree;
    var named := conns[s := Identified(conns[s], u)];
    SameSeatsSameSets(conns, named);
    SameSeatsKeepKinds(conns, named);
    IdentifiedIsIndexed(conns, s, u, users, retired);
  }

  lemma IdentifiedIsIndexed(conns: ConnTable, s: SocketId, u: UserId, users: UserIndex, retired: set<SocketId>)
    requires UsersAgree(conns, users, retired) && s in conns
    ensures UsersAgree(conns[s := Identified(conns[s], u)], Put(users, u, s), retired)
  {
    var named := conns[s := Identified(conns[s], u)];
    forall v
      ensures At(Put(users, u, s), v) * named.Keys == SignedIn(named, v)
      ensures At(Put(users, u, s), v) <= named.Keys + retired
    {
      assert At(users, v) * conns.Keys == SignedIn(conns, v) && At(users, v) <= conns.Keys + retired;
      assert s in SignedIn(conns, v) <==> v in conns[s].identities;
      OneSocketSigns(conns, s, Identified(conns[s], u), v);
    }
  }

  /** The socket's current user is taken off the index; users it signed in as before stay. */
  ghost function WithoutUser(users: UserIndex, s: SocketId, user: Option<UserId>): UserIndex {
    if user.Some? then Take(users, user.value, s) else users
  }

  lemma WithoutUserDrops(users: UserIndex, s: SocketId, user: Option<UserId>)
    ensures forall u :: s in At(WithoutUser(users, s, user), u) <==> s in At(users, u) && user != Some(u)
  {
  }

  /** A socket that holds nothing is forgotten without a trace in channels or rooms. */
  lemma ForgettingEmptiesNothing(conns: ConnTable, t: Tables, s: SocketId)
    requires ChannelsAgree(conns, t.channels, t.socketChannels) && NoEmptySet(t.channels)
    requires s in conns && conns[s].channels == {}
    ensures Scan(t.channels, s) == t.channels
    ensures forall c :: c in t.channels ==> t.channels[c] != {s}
  {
    forall c | c in t.channels ensures s !in t.channels[c] && t.channels[c] - {s} == t.channels[c] {
      assert At(t.channels, c) == Subscribers(conns, c);
    }
  }

  lemma ForgottenAgrees(conns: ConnTable, t: Tables, users: UserIndex, retired: set<SocketId>,
                        s: SocketId, user: Option<UserId>)
    requires AllAgree(conns, t, users, retired) && NoEmptySet(t.channels)
    requires s in conns && conns[s].channels == {}
    ensures AllAgree(conns - {s}, After(t, RemoveSocket(s)), WithoutUser(users, s, user), retired + {s})
  {
    hide UsersAgree;
    var rest := conns - {s};
    OneSocketGoes(conns, s);
    ForgettingEmptiesNothing(conns, t, s);
    ForgottenIsUnindexed(conns, users, retired, s, user);
    assert PresenceMatchesKind(conns[s]);
    forall c, u ensures Seated(t.rooms, c, u) == Holders(rest, c, u) {
      assert Seated(t.rooms, c, u) == Holders(conns, c, u);
      assert s !in Holders(conns, c, u);
    }
    forall c ensures At(t.channels, c) == Subscribers(rest, c) {
      assert At(t.channels, c) == Subscribers(conns, c);
      assert s !in Subscribers(conns, c);
    }
    assert forall x :: x in rest ==> PresenceMatchesKind(conns[x]);
  }

  lemma ForgottenIsUnindexed(conns: ConnTable, users: UserIndex, retired: set<SocketId>,
                             s: SocketId, user: Option<UserId>)
    requires UsersAgree(conns, users, retired) && s in conns
    ensures UsersAgree(conns - {s}, WithoutUser(users, s, user), retired + {s})
  {
    var rest := conns - {s};
    forall u ensures At(WithoutUser(users, s, user), u) * rest.Keys == SignedIn(rest, u)
                  && At(WithoutUser(users, s, user), u) <= rest.Keys + (retired + {s}) {
      assert At(users, u) * conns.Keys == SignedIn(conns, u) && At(users, u) <= conns.Keys + retired;
      OneSocketSigns(conns, s, conns[s], u);
    }
  }

  // -- both at once ---------------------------------------------------------------------

  lemma SeatsUnmoved(conns: ConnTable, rooms: map<Channel, Room>, s: SocketId, conn: Conn)
    requires RoomsAgree(conns, rooms) && s in conns && conn.presence == conns[s].presence
    ensures RoomsAgree(conns[s := conn], rooms)
  {
  }

  lemma PlainMemberAgrees(conns: ConnTable, s: SocketId, c: Channel,
                          t: Tables, users: UserIndex, retired: set<SocketId>)
    requires AllAgree(conns, t, users, retired) && s in conns && !IsPresence(c)
    ensures AllAgree(conns[s := WithChannel(conns[s], c)], After(t, AddToChannel(s, c)), users, retired)
  {
    var joined := WithChannel(conns[s], c);
    assert PresenceMatchesKind(conns[s]);
    assert PresenceMatchesKind(joined);
    PutAgrees(conns, t.channels, t.socketChannels, s, c, joined);
    SeatsUnmoved(conns, t.rooms, s, joined);
    SameIdentitiesAgree(conns, conns[s := joined], users, retired);
  }

  lemma PresenceMemberAgrees(conns: ConnTable, s: SocketId, c: Channel, u: UserId, info: Info,
                             t: Tables, users: UserIndex, retired: set<SocketId>)
    requires AllAgree(conns, t, users, retired) && s in conns && IsPresence(c) && c !in conns[s].channels
    ensures AllAgree(conns[s := WithPresence(conns[s], c, u, info)],
                     After(After(t, AddMember(c, s, u, info)), AddToChannel(s, c)), users, retired)
  {
    hide ChannelsAgree, RoomsAgree, UsersAgree, Put, Enter;
    var joined := WithPresence(conns[s], c, u, info);
    assert PresenceMatchesKind(conns[s]);
    PutAgrees(conns, t.channels, t.socketChannels, s, c, joined);
    EnterAgrees(conns, t.rooms, s, c, u, info, joined);
    SameIdentitiesAgree(conns, conns[s := joined], users, retired);
    assert joined.presence.Keys == conns[s].presence.Keys + {c};
    assert PresenceMatchesKind(joined);
  }

  lemma FormerMemberAgrees(conns: ConnTable, s: SocketId, c: Channel,
                           t: Tables, users: UserIndex, retired: set<SocketId>)
    requires AllAgree(conns, t, users, retired) && SeatsTaken(t.rooms) && s in conns
    ensures var t' := if c in conns[s].presence then After(t, RemoveMember(c, s, conns[s].presence[c].user)) else t;
            AllAgree(conns[s := Without(conns[s], c)], After(t', RemoveFromChannel(s, c)), users, retired)
  {
    var left := Without(conns[s], c);
    assert PresenceMatchesKind(conns[s]);
    TakeAgrees(conns, t.channels, t.socketChannels, s, c, left);
    if c in conns[s].presence {
      ExitAgrees(conns, t.rooms, s, c, left);
    } else {
      assert left.presence == conns[s].presence;
      SeatsUnmoved(conns, t.rooms, s, left);
    }
    SameIdentitiesAgree(conns, conns[s := left], users, retired);
    assert left.presence.Keys == conns[s].presence.Keys - {c};
    assert PresenceMatchesKind(left);
  }

  // -- leaving is the simple machine's leaving ---------------------------------------------

  /** The tables after `s` left `c` on their side. */
  ghost function Departed(t: Tables, conn: Conn, s: SocketId, c: Channel): Tables {
    var t' := if c in conn.presence then After(t, RemoveMember(c, s, conn.presence[c].user)) else t;
    After(t', RemoveFromChannel(s, c))
  }

  ghost predicate TakesUser(t: Tables, conn: Conn, s: SocketId, c: Channel) {
    c in conn.presence && Gone(t.rooms, c, s, conn.presence[c].user)
  }

  /** What the others hear, and nothing for `s` itself. */
  ghost function Heard(conns: ConnTable, t: Tables, s: SocketId, c: Channel): ConnTable
    requires s in conns
  {
    if TakesUser(t, conns[s], s, c)
    then FanOut(conns, At(t.channels, c), MemberRemoved(c, conns[s].presence[c].user), Some(s))
    else conns
  }

  ghost function Left(w: World, t: Tables, s: SocketId, c: Channel): World
    requires s in w.conns
  {
    World(Heard(w.conns, t, s, c)[s := Without(w.conns[s], c)],
          Roster(Departed(t, w.conns[s], s, c).rooms),
          w.retired,
          w.hooks + (if TakesUser(t, w.conns[s], s, c) then [UserLeft(c, w.conns[s].presence[c].user)] else [])
                  + (if Vacates(t.channels, c, s) then [ChannelVacated(c)] else []))
  }

  /** The room's verdict that a user is gone is the connections' verdict. */
  lemma GoneMeansNobodyHolds(conns: ConnTable, t: Tables, s: SocketId, c: Channel)
    requires RoomsAgree(conns, t.rooms) && ChannelsAgree(conns, t.channels, t.socketChannels)
    requires SeatsTaken(t.rooms) && s in conns && c in conns[s].presence
    ensures var u, left := conns[s].presence[c].user, conns[s := conns[s].(presence := conns[s].presence - {c})];
            && u in RoomAt(t.rooms, c)
            && (Gone(t.rooms, c, s, u) <==> Holders(left, c, u) == {})
            && Subscribers(left, c) == At(t.channels, c)
  {
    var conn, u := conns[s].(presence := conns[s].presence - {c}), conns[s].presence[c].user;
    OneSocketMoves(conns, s, conn);
    assert s in Holders(conns, c, u) && Seated(t.rooms, c, u) == Holders(conns, c, u);
    assert At(t.channels, c) == Subscribers(conns, c);
  }

  lemma LeftPresence(w: World, t: Tables, s: SocketId, c: Channel)
    requires RoomsAgree(w.conns, t.rooms) && ChannelsAgree(w.conns, t.channels, t.socketChannels)
    requires w.roster == Roster(t.rooms) && SeatsTaken(t.rooms) && s in w.conns && c in w.conns[s].presence
    ensures var w', u := LeavePresence(w, s, c), w.conns[s].presence[c].user;
            && w'.conns == Heard(w.conns, t, s, c)[s := w.conns[s].(presence := w.conns[s].presence - {c})]
            && w'.roster == Roster(Exit(t.rooms, c, s, u))
            && w'.retired == w.retired
            && w'.hooks == w.hooks + (if TakesUser(t, w.conns[s], s, c) then [UserLeft(c, u)] else [])
  {
    var conn, u := w.conns[s].(presence := w.conns[s].presence - {c}), w.conns[s].presence[c].user;
    GoneMeansNobodyHolds(w.conns, t, s, c);
    ExitRoster(t.rooms, s, c, u, w);
    FanOutSpares(w.conns, s, conn, At(t.channels, c), MemberRemoved(c, u));
    hide RoomsAgree, ChannelsAgree, SeatsTaken, Gone, Holders, Subscribers, FanOut, Roster, Exit, RosterAt;
  }

  lemma FanOutSpares(conns: ConnTable, s: SocketId, conn: Conn, to: set<SocketId>, m: Message)
    requires s in conns
    ensures FanOut(conns[s := conn], to, m, Some(s)) == FanOut(conns, to, m, Some(s))[s := conn]
    ensures FanOut(conns, to, m, Some(s))[s] == conns[s]
  {
  }

  lemma LastOneVacates(w: World, t: Tables, users: UserIndex, s: SocketId, c: Channel, between: World)
    requires AllAgree(w.conns, t, users, w.retired) && s in w.conns && c in w.conns[s].channels
    requires s in between.conns && Subscribers(between.conns, c) == Subscribers(w.conns, c)
    ensures Vacates(t.channels, c, s) <==> Subscribers(LeaveChannel(between, s, c).conns, c) == {}
  {
    TableListsSubscribers(w.conns, t, users, w.retired, c);
    LeaveChannelSeats(between, s, c, c, "");
    assert s in Subscribers(w.conns, c);
  }

  lemma LeftIsUnsubscribed(w: World, t: Tables, users: UserIndex, s: SocketId, c: Channel)
    requires AllAgree(w.conns, t, users, w.retired) && w.roster == Roster(t.rooms) && SeatsTaken(t.rooms)
    requires s in w.conns && c in w.conns[s].channels
    ensures Left(w, t, s, c) == Unsubscribe(w, s, c)
  {
    hide Left, LeaveChannel, LeavePresence, Subscribers, RoomsAgree, ChannelsAgree;
    hide UsersAgree, SeatsTaken, Heard, TakesUser, Vacates, Roster, Exit;
    assert PresenceMatchesKind(w.conns[s]);
    if IsPresence(c) {
      LeftPresence(w, t, s, c);
      LeavePresenceSeats(w, s, c, c, "");
      LastOneVacates(w, t, users, s, c, LeavePresence(w, s, c));
      LeftPresenceIsUnsubscribed(w, t, s, c, LeavePresence(w, s, c));
    } else {
      LastOneVacates(w, t, users, s, c, w);
      LeftPlainIsUnsubscribed(w, t, s, c);
    }
  }

  lemma LeftPlainIsUnsubscribed(w: World, t: Tables, s: SocketId, c: Channel)
    requires s in w.conns && c in w.conns[s].channels && c !in w.conns[s].presence && w.roster == Roster(t.rooms)
    requires Vacates(t.channels, c, s) <==> Subscribers(LeaveChannel(w, s, c).conns, c) == {}
    ensures Left(w, t, s, c) == LeaveChannel(w, s, c)
  {
    hide Vacates, Subscribers, Roster;
    assert Without(w.conns[s], c) == w.conns[s].(channels := w.conns[s].channels - {c}) by {
      assert w.conns[s].presence - {c} == w.conns[s].presence;
    }
    assert w.hooks + [] == w.hooks;
  }

  lemma LeftPresenceIsUnsubscribed(w: World, t: Tables, s: SocketId, c: Channel, between: World)
    requires s in w.conns && c in w.conns[s].presence && s in between.conns
    requires between.conns == Heard(w.conns, t, s, c)[s := w.conns[s].(presence := w.conns[s].presence - {c})]
    requires between.roster == Roster(Exit(t.rooms, c, s, w.conns[s].presence[c].user)) && between.retired == w.retired
    requires between.hooks
          == w.hooks + (if TakesUser(t, w.conns[s], s, c) then [UserLeft(c, w.conns[s].presence[c].user)] else [])
    requires Vacates(t.channels, c, s) <==> Subscribers(LeaveChannel(between, s, c).conns, c) == {}
    ensures Left(w, t, s, c) == LeaveChannel(between, s, c)
  {
    hide Vacates, Subscribers, Roster, Heard, TakesUser, Exit;
    SetTwice(Heard(w.conns, t, s, c), s, between.conns[s], Without(w.conns[s], c));
  }

  lemma SetTwice<K, V>(m: map<K, V>, k: K, a: V, b: V)
    ensures m[k := a][k := b] == m[k := b]
  {
  }

  /** What the others hear does not depend on what the leaver's own record says. */
  lemma OthersHearTheSame(a: ConnTable, b: ConnTable, s: SocketId, to: set<SocketId>, m: Message)
    requires a - {s} == b - {s}
    ensures FanOut(a, to, m, Some(s)) - {s} == FanOut(b, to, m, Some(s)) - {s}
  {
    forall x | x in FanOut(a, to, m, Some(s)) - {s} || x in FanOut(b, to, m, Some(s)) - {s}
      ensures x in a && x in b && a[x] == b[x]
    {
      assert x in a - {s} || x in b - {s};
      assert a[x] == (a - {s})[x];
    }
  }

  lemma DepartingEmptiesNoRoom(t: Tables, conn: Conn, s: SocketId, c: Channel)
    ensures NoEmptyRoom(t.rooms) ==> NoEmptyRoom(Departed(t, conn, s, c).rooms)
  {
  }

  lemma HeardIsMail(conns: ConnTable, t: Tables, s: SocketId, c: Channel)
    requires s in conns
    ensures SameSeats(conns, Heard(conns, t, s, c)) && SameIdentities(conns, Heard(conns, t, s, c))
  {
  }

  lemma LeftIsMail(w: World, t: Tables, s: SocketId, c: Channel)
    requires s in w.conns
    ensures SameSeats(w.conns[s := Without(w.conns[s], c)], Left(w, t, s, c).conns)
    ensures SameIdentities(w.conns[s := Without(w.conns[s], c)], Left(w, t, s, c).conns)
    ensures var p := w.conns[s].presence;
            var t' := if c in p then After(t, RemoveMember(c, s, p[c].user)) else t;
            Departed(t, w.conns[s], s, c) == After(t', RemoveFromChannel(s, c))
  {
    HeardIsMail(w.conns, t, s, c);
    hide Heard;
  }

  lemma LeftAgrees(w: World, t: Tables, users: UserIndex, s: SocketId, c: Channel)
    requires AllAgree(w.conns, t, users, w.retired) && SeatsTaken(t.rooms) && s in w.conns
    ensures AllAgree(Left(w, t, s, c).conns, Departed(t, w.conns[s], s, c), users, w.retired)
  {
    hide *;
    FormerMemberAgrees(w.conns, s, c, t, users, w.retired);
    LeftIsMail(w, t, s, c);
    MailAgrees(w.conns[s := Without(w.conns[s], c)], Left(w, t, s, c).conns, Departed(t, w.conns[s], s, c), users,
               w.retired);
  }

  // -- what agreement implies ------------------------------------------------------------

  lemma AgreementIsWellFormed(w: World, rooms: map<Channel, Room>)
    requires RoomsAgree(w.conns, rooms) && SeatsTaken(rooms) && w.roster == Roster(rooms)
    ensures RosterMatches(w)
  {
  }
}
