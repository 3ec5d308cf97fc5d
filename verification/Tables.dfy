/** The tables of one namespace as values: what each `Namespace` method does to
    them, what every sequence of calls keeps, and how occupied/vacated results
    balance. */
module Tables {
  import opened Protocol

  type ChannelIndex = map<Channel, set<SocketId>>

  type SocketIndex = map<SocketId, set<Channel>>

  type UserIndex = map<UserId, set<SocketId>>

  // -- a map from keys to non-empty sets ---------------------------------------

  ghost function At<K, V>(m: map<K, set<V>>, k: K): set<V> { if k in m then m[k] else {} }

  ghost function Put<K, V>(m: map<K, set<V>>, k: K, v: V): map<K, set<V>> { m[k := At(m, k) + {v}] }

  /** Drops `v` under `k`, and the key with it when nothing is left. */
  ghost function Take<K, V>(m: map<K, set<V>>, k: K, v: V): map<K, set<V>> {
    if k !in m then m else if m[k] - {v} == {} then m - {k} else m[k := m[k] - {v}]
  }

  /** Drops `v` under `k` but keeps the key: how the reverse index forgets a channel. */
  ghost function Erase<K, V>(m: map<K, set<V>>, k: K, v: V): map<K, set<V>> {
    if k in m then m[k := m[k] - {v}] else m
  }

  /** Removal by visiting every key: the obviously right way to forget `v`. */
  ghost function Scan<K, V>(m: map<K, set<V>>, v: V): map<K, set<V>> {
    map k | k in m && m[k] - {v} != {} :: m[k] - {v}
  }

  ghost predicate NoEmptySet<K, V>(m: map<K, set<V>>) { forall k :: k in m ==> m[k] != {} }

  /** The forward and the reverse channel index describe one relation. */
  ghost predicate Dual(channels: ChannelIndex, socketChannels: SocketIndex) {
    forall s: SocketId, c: Channel :: s in At(channels, c) <==> c in At(socketChannels, s)
  }

  // -- presence rooms ------------------------------------------------------------

  datatype Member = Member(info: Info, sockets: set<SocketId>)

  type Room = map<UserId, Member>

  ghost function RoomAt(rooms: map<Channel, Room>, c: Channel): Room { if c in rooms then rooms[c] else map[] }

  /** The first socket of a user fixes its info; later ones only add themselves. */
  ghost function Seat(room: Room, s: SocketId, u: UserId, info: Info): Room {
    if u in room then room[u := Member(room[u].info, room[u].sockets + {s})] else room[u := Member(info, {s})]
  }

  ghost function Unseat(room: Room, s: SocketId, u: UserId): Room {
    if u !in room then room
    else if room[u].sockets - {s} == {} then room - {u}
    else room[u := Member(room[u].info, room[u].sockets - {s})]
  }

  ghost function Enter(rooms: map<Channel, Room>, c: Channel, s: SocketId, u: UserId, info: Info): map<Channel, Room> {
    rooms[c := Seat(RoomAt(rooms, c), s, u, info)]
  }

  ghost function Exit(rooms: map<Channel, Room>, c: Channel, s: SocketId, u: UserId): map<Channel, Room> {
    if c !in rooms then rooms
    else if Unseat(rooms[c], s, u) == map[] then rooms - {c}
    else rooms[c := Unseat(rooms[c], s, u)]
  }

  ghost predicate Admits(room: Room, u: UserId, max: nat) { u in room || |room| < max }

  /** Nobody but `s` is in `c`. */
  ghost predicate Vacates(channels: ChannelIndex, c: Channel, s: SocketId) {
    c in channels && channels[c] - {s} == {}
  }

  /** `u` is in `c` through `s` at most. */
  ghost predicate Gone(rooms: map<Channel, Room>, c: Channel, s: SocketId, u: UserId) {
    u in RoomAt(rooms, c) && RoomAt(rooms, c)[u].sockets - {s} == {}
  }

  /** A refused user still leaves the entry its lookup created. */
  ghost function TryEnter(rooms: map<Channel, Room>, c: Channel, s: SocketId, u: UserId, info: Info, max: nat)
    : map<Channel, Room>
  {
    if Admits(RoomAt(rooms, c), u, max) then Enter(rooms, c, s, u, info) else rooms[c := RoomAt(rooms, c)]
  }

  ghost function Infos(room: Room): map<UserId, Info> { map u | u in room :: room[u].info }

  ghost predicate SeatsTaken(rooms: map<Channel, Room>) {
    forall c, u :: c in rooms && u in rooms[c] ==> rooms[c][u].sockets != {}
  }

  ghost predicate NoEmptyRoom(rooms: map<Channel, Room>) { forall c :: c in rooms ==> rooms[c] != map[] }

  /** Bookkeeping stays tight exactly when no user is refused entry to a room that
      does not exist, and that refusal happens only under a limit of zero. */
  lemma EmptyRoomIffZeroLimit(rooms: map<Channel, Room>, c: Channel, s: SocketId, u: UserId, info: Info, max: nat)
    requires NoEmptyRoom(rooms)
    ensures NoEmptyRoom(TryEnter(rooms, c, s, u, info, max)) <==> (max >= 1 || c in rooms)
  {
    var after := TryEnter(rooms, c, s, u, info, max);
    if Admits(RoomAt(rooms, c), u, max) {
      assert u in after[c];
    } else if c !in rooms {
      assert |RoomAt(rooms, c)| == 0;
      assert after[c] == map[];
    }
  }

  // -- any sequence of Namespace calls -----------------------------------------

  datatype Tables = Tables(
    channels: ChannelIndex,
    socketChannels: SocketIndex,
    rooms: map<Channel, Room>)

  datatype Call =
    | AddToChannel(s: SocketId, c: Channel)
    | RemoveFromChannel(s: SocketId, c: Channel)
    | RemoveSocket(s: SocketId)
    | TryAddMember(c: Channel, s: SocketId, u: UserId, info: Info, max: nat)
    | AddMember(c: Channel, s: SocketId, u: UserId, info: Info)
    | RemoveMember(c: Channel, s: SocketId, u: UserId)

  ghost function After(t: Tables, call: Call): Tables {
    match call
    case AddToChannel(s, c) => Tables(Put(t.channels, c, s), Put(t.socketChannels, s, c), t.rooms)
    case RemoveFromChannel(s, c) => Tables(Take(t.channels, c, s), Erase(t.socketChannels, s, c), t.rooms)
    case RemoveSocket(s) => Tables(Scan(t.channels, s), t.socketChannels - {s}, t.rooms)
    case TryAddMember(c, s, u, info, max) => t.(rooms := TryEnter(t.rooms, c, s, u, info, max))
    case AddMember(c, s, u, info) => t.(rooms := Enter(t.rooms, c, s, u, info))
    case RemoveMember(c, s, u) => t.(rooms := Exit(t.rooms, c, s, u))
  }

  ghost function Run(t: Tables, calls: seq<Call>): Tables
    decreases |calls|
  {
    if calls == [] then t else After(Run(t, calls[..|calls| - 1]), calls[|calls| - 1])
  }

  ghost predicate Consistent(t: Tables) {
    Dual(t.channels, t.socketChannels) && NoEmptySet(t.channels) && SeatsTaken(t.rooms)
  }

  lemma CallKeepsConsistent(t: Tables, call: Call)
    requires Consistent(t)
    ensures Consistent(After(t, call))
  {
    match call
    case AddToChannel(s, c) => PutKeepsDual(t.channels, t.socketChannels, s, c);
    case RemoveFromChannel(s, c) => TakeKeepsDual(t.channels, t.socketChannels, s, c);
    case RemoveSocket(s) => ScanKeepsDual(t.channels, t.socketChannels, s);
    case TryAddMember(c, s, u, info, max) => TryEnterKeepsSeats(t.rooms, c, s, u, info, max);
    case AddMember(c, s, u, info) => EnterKeepsSeats(t.rooms, c, s, u, info);
    case RemoveMember(c, s, u) => ExitKeepsSeats(t.rooms, c, s, u);
  }

  lemma PutKeepsDual(channels: ChannelIndex, socketChannels: SocketIndex, s: SocketId, c: Channel)
    requires Dual(channels, socketChannels)
    ensures Dual(Put(channels, c, s), Put(socketChannels, s, c))
  {
    forall s': SocketId, c': Channel
      ensures s' in At(Put(channels, c, s), c') <==> c' in At(Put(socketChannels, s, c), s')
    {
      assert s' in At(channels, c') <==> c' in At(socketChannels, s');
    }
  }

  lemma TakeKeepsDual(channels: ChannelIndex, socketChannels: SocketIndex, s: SocketId, c: Channel)
    requires Dual(channels, socketChannels)
    ensures Dual(Take(channels, c, s), Erase(socketChannels, s, c))
  {
    forall s': SocketId, c': Channel
      ensures s' in At(Take(channels, c, s), c') <==> c' in At(Erase(socketChannels, s, c), s')
    {
      assert s' in At(channels, c') <==> c' in At(socketChannels, s');
    }
  }

  lemma ScanKeepsDual(channels: ChannelIndex, socketChannels: SocketIndex, s: SocketId)
    requires Dual(channels, socketChannels)
    ensures Dual(Scan(channels, s), socketChannels - {s})
  {
    forall s': SocketId, c: Channel
      ensures s' in At(Scan(channels, s), c) <==> c in At(socketChannels - {s}, s')
    {
      assert s' in At(channels, c) <==> c in At(socketChannels, s');
    }
  }

  lemma EnterKeepsSeats(rooms: map<Channel, Room>, c: Channel, s: SocketId, u: UserId, info: Info)
    requires SeatsTaken(rooms)
    ensures SeatsTaken(Enter(rooms, c, s, u, info))
  {
  }

  lemma TryEnterKeepsSeats(rooms: map<Channel, Room>, c: Channel, s: SocketId, u: UserId, info: Info, max: nat)
    requires SeatsTaken(rooms)
    ensures SeatsTaken(TryEnter(rooms, c, s, u, info, max))
  {
  }

  lemma ExitKeepsSeats(rooms: map<Channel, Room>, c: Channel, s: SocketId, u: UserId)
    requires SeatsTaken(rooms)
    ensures SeatsTaken(Exit(rooms, c, s, u))
  {
  }

  lemma {:induction false} RunKeepsConsistent(t: Tables, calls: seq<Call>)
    requires Consistent(t)
    ensures Consistent(Run(t, calls))
  {
    if calls != [] {
      RunKeepsConsistent(t, calls[..|calls| - 1]);
      CallKeepsConsistent(Run(t, calls[..|calls| - 1]), calls[|calls| - 1]);
    }
  }

  // -- what the calls report -----------------------------------------------------

  /** `add_to_channel` returned true for `c`. */
  ghost predicate ReportsOccupied(t: Tables, call: Call, c: Channel) {
    call.AddToChannel? && call.c == c && At(t.channels, c) == {}
  }

  /** `remove_from_channel` returned true for `c`, or `remove_socket` listed it. */
  ghost predicate ReportsVacated(t: Tables, call: Call, c: Channel) {
    match call
    case RemoveFromChannel(s, c') => c' == c && Vacates(t.channels, c, s)
    case RemoveSocket(s) => c in At(t.socketChannels, s) && Vacates(t.channels, c, s)
    case _ => false
  }

  ghost predicate ReportsNew(t: Tables, call: Call, c: Channel, u: UserId) {
    match call
    case TryAddMember(c', _, u', _, max) =>
      c' == c && u' == u && u !in RoomAt(t.rooms, c) && Admits(RoomAt(t.rooms, c), u, max)
    case AddMember(c', _, u', _) => c' == c && u' == u && u !in RoomAt(t.rooms, c)
    case _ => false
  }

  ghost predicate ReportsGone(t: Tables, call: Call, c: Channel, u: UserId) {
    call.RemoveMember? && call.c == c && call.u == u && Gone(t.rooms, c, call.s, u)
  }

  /** Occupied reports minus vacated reports over a run. */
  ghost function ChannelBalance(t: Tables, calls: seq<Call>, c: Channel): int
    decreases |calls|
  {
    if calls == [] then 0 else
      var before, call := Run(t, calls[..|calls| - 1]), calls[|calls| - 1];
      ChannelBalance(t, calls[..|calls| - 1], c)
        + One(ReportsOccupied(before, call, c)) - One(ReportsVacated(before, call, c))
  }

  ghost function UserBalance(t: Tables, calls: seq<Call>, c: Channel, u: UserId): int
    decreases |calls|
  {
    if calls == [] then 0 else
      var before, call := Run(t, calls[..|calls| - 1]), calls[|calls| - 1];
      UserBalance(t, calls[..|calls| - 1], c, u)
        + One(ReportsNew(before, call, c, u)) - One(ReportsGone(before, call, c, u))
  }

  /** Over every run from empty tables, one more occupied than vacated report
      has been made for `c` exactly while somebody is in it. */
  lemma {:induction false} ChannelReportsBalance(calls: seq<Call>, c: Channel)
    ensures var empty := Tables(map[], map[], map[]);
            ChannelBalance(empty, calls, c) == One(c in Run(empty, calls).channels)
  {
    var empty := Tables(map[], map[], map[]);
    if calls != [] {
      var before, call := Run(empty, calls[..|calls| - 1]), calls[|calls| - 1];
      ChannelReportsBalance(calls[..|calls| - 1], c);
      RunKeepsConsistent(empty, calls[..|calls| - 1]);
      if call.RemoveSocket? {
        assert call.s in At(before.channels, c) <==> c in At(before.socketChannels, call.s);
      }
    }
  }

  /** Entering or leaving a room moves exactly the user it reports. */
  lemma EnterMovesUser(rooms: map<Channel, Room>, c: Channel, s: SocketId, u: UserId, info: Info, d: Channel, v: UserId)
    ensures v in RoomAt(Enter(rooms, c, s, u, info), d) <==> v in RoomAt(rooms, d) || (d == c && v == u)
  {
  }

  lemma ExitMovesUser(rooms: map<Channel, Room>, c: Channel, s: SocketId, u: UserId, d: Channel, v: UserId)
    ensures v in RoomAt(Exit(rooms, c, s, u), d) <==>
            v in RoomAt(rooms, d) && !(d == c && v == u && Gone(rooms, c, s, u))
  {
  }

  lemma CallMovesUser(t: Tables, call: Call, c: Channel, u: UserId)
    ensures One(u in RoomAt(After(t, call).rooms, c)) - One(u in RoomAt(t.rooms, c))
         == One(ReportsNew(t, call, c, u)) - One(ReportsGone(t, call, c, u))
  {
    match call
    case AddToChannel(_, _) =>
    case RemoveFromChannel(_, _) =>
    case RemoveSocket(_) =>
    case TryAddMember(c', s, u', info, max) =>
      if Admits(RoomAt(t.rooms, c'), u', max) { EnterMovesUser(t.rooms, c', s, u', info, c, u); }
    case AddMember(c', s, u', info) => EnterMovesUser(t.rooms, c', s, u', info, c, u);
    case RemoveMember(c', s, u') => ExitMovesUser(t.rooms, c', s, u', c, u);
  }

  /** The same law for every user of every presence channel. */
  lemma {:induction false} UserReportsBalance(calls: seq<Call>, c: Channel, u: UserId)
    ensures var empty := Tables(map[], map[], map[]);
            UserBalance(empty, calls, c, u) == One(u in RoomAt(Run(empty, calls).rooms, c))
  {
    var empty := Tables(map[], map[], map[]);
    if calls != [] {
      UserReportsBalance(calls[..|calls| - 1], c, u);
      CallMovesUser(Run(empty, calls[..|calls| - 1]), calls[|calls| - 1], c, u);
    }
  }
}
