/** The simple machine the server implements: for each open socket the channels it
    holds and as which user, who is present where, and what has been announced.
    No tables: everything the server looks up is computed here from the sockets. */
module Subscriptions {
  import opened Protocol
  import opened Connection

  datatype World = World(
    conns: ConnTable,
    roster: map<Channel, map<UserId, Info>>,
    retired: set<SocketId>,
    hooks: seq<Webhook>)

  const EMPTY: World := World(map[], map[], {}, [])

  ghost function Subscribers(conns: ConnTable, c: Channel): set<SocketId> {
    set s | s in conns && c in conns[s].channels
  }

  /** The sockets that joined `c` as `u`. */
  ghost function Holders(conns: ConnTable, c: Channel, u: UserId): set<SocketId> {
    set s | s in conns && c in conns[s].presence && conns[s].presence[c].user == u
  }

  /** The open sockets that have at some time signed in as `u`. */
  ghost function SignedIn(conns: ConnTable, u: UserId): set<SocketId> {
    set s | s in conns && u in conns[s].identities
  }

  ghost function RosterAt(w: World, c: Channel): map<UserId, Info> { if c in w.roster then w.roster[c] else map[] }

  ghost function FanOut(conns: ConnTable, to: set<SocketId>, m: Message, except: Option<SocketId>): ConnTable {
    map s | s in conns :: if s in to && Some(s) != except then Enqueue(conns[s], m) else conns[s]
  }

  lemma FanOutToNobody(conns: ConnTable, m: Message, except: Option<SocketId>)
    ensures FanOut(conns, {}, m, except) == conns
  {
  }

  /** One recipient after another, a fan-out is sends to single sockets. */
  lemma FanOutToOneMore(conns: ConnTable, to: set<SocketId>, s: SocketId, m: Message, except: Option<SocketId>)
    requires s !in to
    ensures var sent := FanOut(conns, to, m, except);
            FanOut(conns, to + {s}, m, except)
              == (if s in conns && Some(s) != except then sent[s := Enqueue(sent[s], m)] else sent)
  {
  }

  ghost function Tell(w: World, s: SocketId, m: Message): World
    requires s in w.conns
  {
    w.(conns := w.conns[s := Enqueue(w.conns[s], m)])
  }

  /** Everyone subscribed to `c` but the excepted socket is told. */
  ghost function Announce(w: World, c: Channel, m: Message, except: Option<SocketId>): World {
    w.(conns := FanOut(w.conns, Subscribers(w.conns, c), m, except))
  }

  // -- requests ------------------------------------------------------------------

  /** What a presence request's `channel_data` turns out to be. */
  datatype Claim = NoChannelData | BadChannelData | NoUserId | TooLarge | Member(user: UserId, info: Info)

  /** What the cache lookup finds. */
  datatype Cached = Disabled | Nothing | Last(name: string, data: string)

  /** `auth` is absent, or the outcome of checking its signature. */
  datatype SubscribeRequest = Malformed | Join(channel: Channel, auth: Option<bool>, claim: Claim, cached: Cached)

  /** The first check a request fails, in the order the server makes them. */
  function Refusal(channel: Channel, auth: Option<bool>, claim: Claim): Option<Reason> {
    if !IsPresence(channel) && !IsPrivate(channel) then None
    else if auth == None then Some(AuthorizationRequired)
    else if IsPresence(channel) && claim == NoChannelData then Some(MissingChannelData)
    else if auth == Some(false) then Some(AuthorizationFailed)
    else if !IsPresence(channel) || claim.Member? then None
    else if claim.BadChannelData? then Some(InvalidChannelData)
    else if claim.NoUserId? then Some(MissingUserId)
    else Some(MemberTooLarge)
  }

  // -- steps ---------------------------------------------------------------------

  ghost function Connect(w: World, s: SocketId, limit: int): World {
    if 0 <= limit <= |w.conns| then w else w.(conns := w.conns[s := FRESH])
  }

  ghost function Hold(w: World, s: SocketId, c: Channel): World
    requires s in w.conns
  {
    w.(conns := w.conns[s := WithChannel(w.conns[s], c)])
  }

  ghost function JoinPlain(w: World, s: SocketId, c: Channel): World
    requires s in w.conns
  {
    var told := Tell(Hold(w, s, c), s, Subscribed(c));
    told.(hooks := told.hooks + if Subscribers(w.conns, c) == {} then [ChannelOccupied(c)] else [])
  }

  /** `s` holds `c` as `u`; the roster keeps the info it has for `u`, if any. */
  ghost function HoldAs(w: World, s: SocketId, c: Channel, u: UserId, info: Info): World
    requires s in w.conns
  {
    var conn := WithPresence(w.conns[s], c, u, info);
    var members := if u in RosterAt(w, c) then RosterAt(w, c) else RosterAt(w, c)[u := info];
    w.(conns := w.conns[s := conn], roster := w.roster[c := members])
  }

  ghost function JoinPresence(w: World, s: SocketId, c: Channel, u: UserId, info: Info): World
    requires s in w.conns
  {
    var held := HoldAs(w, s, c, u, info);
    var told := Tell(held, s, PresenceSnapshot(c, held.roster[c]));
    var isNew := u !in RosterAt(w, c);
    var all := if isNew then Announce(told, c, MemberAdded(c, u, info), Some(s)) else told;
    all.(hooks := all.hooks + (if Subscribers(w.conns, c) == {} then [ChannelOccupied(c)] else [])
                            + (if isNew then [UserJoined(c, u)] else []))
  }

  ghost function ReplayCache(w: World, s: SocketId, c: Channel, cached: Cached): World
    requires s in w.conns
  {
    if !IsCache(c) then w else
      match cached
      case Disabled => w
      case Last(name, data) => Tell(w, s, Event(c, name, data))
      case Nothing => Tell(w.(hooks := w.hooks + [CacheMissed(c)]), s, Protocol.CacheMiss(c))
  }

  ghost function Subscribe(w: World, s: SocketId, request: SubscribeRequest, max: nat): World
    requires s in w.conns
  {
    match request
    case Malformed => Tell(w, s, Error(InvalidRequest))
    case Join(c, auth, claim, cached) =>
      if c in w.conns[s].channels then w
      else if Refusal(c, auth, claim).Some? then Tell(w, s, Error(Refusal(c, auth, claim).value))
      else if !IsPresence(c) then ReplayCache(JoinPlain(w, s, c), s, c, cached)
      else if claim.user !in RosterAt(w, c) && |RosterAt(w, c)| >= max then Tell(w, s, Error(OverMemberLimit))
      else ReplayCache(JoinPresence(w, s, c, claim.user, claim.info), s, c, cached)
  }

  /** The user behind `s` leaves the presence side of `c`. */
  ghost function LeavePresence(w: World, s: SocketId, c: Channel): World
    requires s in w.conns && c in w.conns[s].presence
  {
    var u := w.conns[s].presence[c].user;
    var left := w.(conns := w.conns[s := w.conns[s].(presence := w.conns[s].presence - {c})]);
    if Holders(left.conns, c, u) != {} then left
    else
      var members := RosterAt(w, c) - {u};
      var told := Announce(left, c, MemberRemoved(c, u), Some(s));
      told.(roster := if members == map[] then w.roster - {c} else w.roster[c := members],
            hooks := told.hooks + [UserLeft(c, u)])
  }

  ghost function LeaveChannel(w: World, s: SocketId, c: Channel): World
    requires s in w.conns
  {
    var left := w.conns[s := w.conns[s].(channels := w.conns[s].channels - {c})];
    w.(conns := left, hooks := w.hooks + if Subscribers(left, c) == {} then [ChannelVacated(c)] else [])
  }

  ghost function Unsubscribe(w: World, s: SocketId, c: Channel): (w': World)
    requires s in w.conns
    ensures s in w'.conns
  {
    if c !in w.conns[s].channels then w
    else LeaveChannel(if IsPresence(c) && c in w.conns[s].presence then LeavePresence(w, s, c) else w, s, c)
  }

  ghost function UnsubscribeAll(w: World, s: SocketId, order: seq<Channel>): (w': World)
    requires s in w.conns
    ensures s in w'.conns
    decreases |order|
  {
    if order == [] then w else Unsubscribe(UnsubscribeAll(w, s, order[..|order| - 1]), s, order[|order| - 1])
  }

  /** Closing a socket is unsubscribing it from everything and forgetting it. */
  ghost function Close(w: World, s: SocketId, order: seq<Channel>): World
    requires s in w.conns
  {
    var w' := UnsubscribeAll(w, s, order);
    w'.(conns := w'.conns - {s}, retired := w'.retired + {s})
  }

  ghost function SignIn(w: World, s: SocketId, who: Option<UserId>): World
    requires s in w.conns
  {
    match who
    case None => Tell(w, s, Error(SigninRefused))
    case Some(u) =>
      Tell(w.(conns := w.conns[s := Identified(w.conns[s], u)]), s, SigninSuccess(u))
  }

  ghost function Terminated(c: Conn): Conn { Enqueue(c, Error(Reason.Terminated)).(forceClose := true) }

  ghost function TerminateAll(conns: ConnTable, which: set<SocketId>): ConnTable {
    map s | s in conns :: if s in which then Terminated(conns[s]) else conns[s]
  }

  ghost function Terminate(w: World, u: UserId): World { w.(conns := TerminateAll(w.conns, SignedIn(w.conns, u))) }

  ghost function Deliver(w: World, s: SocketId): World
    requires s in w.conns
  {
    w.(conns := w.conns[s := Delivered(w.conns[s])])
  }

  datatype Step =
    | Connecting(s: SocketId, limit: int)
    | Subscribing(s: SocketId, request: SubscribeRequest)
    | Unsubscribing(s: SocketId, channel: Channel)
    | SigningIn(s: SocketId, who: Option<UserId>)
    | Publishing(channel: Channel, name: string, data: string, except: Option<SocketId>)
    | Terminating(user: UserId)
    | Delivering(s: SocketId)
    | Closing(s: SocketId, order: seq<Channel>)

  ghost predicate Distinct<T>(xs: seq<T>) { forall i, j :: 0 <= i < j < |xs| ==> xs[i] != xs[j] }

  ghost predicate Possible(w: World, step: Step) {
    match step
    case Connecting(s, _) => s !in w.conns && s !in w.retired
    case Publishing(_, _, _, _) => true
    case Terminating(_) => true
    case Closing(s, order) => s in w.conns && Distinct(order) && (set c | c in order) == w.conns[s].channels
    case _ => step.s in w.conns
  }

  ghost function Next(w: World, step: Step, max: nat): World
    requires Possible(w, step)
  {
    match step
    case Connecting(s, limit) => Connect(w, s, limit)
    case Subscribing(s, request) => Subscribe(w, s, request, max)
    case Unsubscribing(s, c) => Unsubscribe(w, s, c)
    case SigningIn(s, who) => SignIn(w, s, who)
    case Publishing(c, name, data, except) =>
      Announce(w, c, Event(c, name, data), except)
    case Terminating(u) => Terminate(w, u)
    case Delivering(s) => Deliver(w, s)
    case Closing(s, order) => Close(w, s, order)
  }

  /** The world a run from the empty world ends in, if every step of it was possible. */
  ghost function Run(trace: seq<Step>, max: nat): Option<World>
    decreases |trace|
  {
    if trace == [] then Some(EMPTY)
    else
      var before, step := Run(trace[..|trace| - 1], max), trace[|trace| - 1];
      if before.Some? && Possible(before.value, step) then Some(Next(before.value, step, max)) else None
  }

  // -- the invariant ---------------------------------------------------------------

  ghost predicate PresenceMatchesKind(conn: Conn) { conn.presence.Keys == set c | c in conn.channels && IsPresence(c) }

  ghost predicate KindsMatch(conns: ConnTable) { forall s :: s in conns ==> PresenceMatchesKind(conns[s]) }

  /** Exactly the users some socket joined as are on the roster. */
  ghost predicate RosterMatches(w: World) {
    && (forall c, u :: u in RosterAt(w, c) <==> Holders(w.conns, c, u) != {})
    && (forall c :: c in w.roster ==> w.roster[c] != map[])
  }

  ghost predicate WellFormed(w: World) { KindsMatch(w.conns) && RosterMatches(w) && w.conns.Keys !! w.retired }

  // -- one socket changes ----------------------------------------------------------

  ghost predicate Holds(conn: Conn, c: Channel, u: UserId) { c in conn.presence && conn.presence[c].user == u }

  lemma OneSocketMoves(conns: ConnTable, s: SocketId, conn: Conn)
    ensures forall c ::
              Subscribers(conns[s := conn], c) == Subscribers(conns, c) - {s} + if c in conn.channels then {s} else {}
    ensures forall c, u ::
              Holders(conns[s := conn], c, u) == Holders(conns, c, u) - {s} + if Holds(conn, c, u) then {s} else {}
  {
  }

  lemma OneSocketSigns(conns: ConnTable, s: SocketId, conn: Conn, u: UserId)
    ensures SignedIn(conns[s := conn], u) == SignedIn(conns, u) - {s} + if u in conn.identities then {s} else {}
    ensures SignedIn(conns - {s}, u) == SignedIn(conns, u) - {s}
  {
  }

  lemma OneSocketGoes(conns: ConnTable, s: SocketId)
    ensures forall c :: Subscribers(conns - {s}, c) == Subscribers(conns, c) - {s}
    ensures forall c, u :: Holders(conns - {s}, c, u) == Holders(conns, c, u) - {s}
  {
  }

  /** Same subscriptions, possibly different mail. */
  ghost predicate SameSeats(a: ConnTable, b: ConnTable) {
    && a.Keys == b.Keys
    && forall s :: s in a ==> a[s].channels == b[s].channels && a[s].presence == b[s].presence
  }

  lemma SameSeatsSameSets(a: ConnTable, b: ConnTable)
    requires SameSeats(a, b)
    ensures forall c :: Subscribers(a, c) == Subscribers(b, c)
    ensures forall c, u :: Holders(a, c, u) == Holders(b, c, u)
  {
  }

  /** Nothing but mail changed. */
  ghost predicate OnlyMail(w: World, w': World) {
    SameSeats(w.conns, w'.conns) && w'.roster == w.roster && w'.retired == w.retired
  }

  lemma TellIsMail(w: World, s: SocketId, m: Message)
    requires s in w.conns
    ensures OnlyMail(w, Tell(w, s, m))
  {
  }

  lemma ReplayCacheIsMail(w: World, s: SocketId, c: Channel, cached: Cached)
    requires s in w.conns
    ensures OnlyMail(w, ReplayCache(w, s, c, cached))
  {
  }

  lemma MailKeepsWellFormed(w: World, w': World)
    requires WellFormed(w) && OnlyMail(w, w')
    ensures WellFormed(w')
  {
    SameSeatsSameSets(w.conns, w'.conns);
    assert forall s :: s in w'.conns ==> PresenceMatchesKind(w.conns[s]);
    forall c, u ensures u in RosterAt(w', c) <==> Holders(w'.conns, c, u) != {} {
      assert u in RosterAt(w, c) <==> Holders(w.conns, c, u) != {};
    }
  }

  lemma ConnectKeepsWellFormed(w: World, s: SocketId, limit: int)
    requires WellFormed(w) && s !in w.conns && s !in w.retired
    ensures WellFormed(Connect(w, s, limit))
  {
    OneSocketMoves(w.conns, s, FRESH);
    var w' := Connect(w, s, limit);
    forall c, u ensures u in RosterAt(w', c) <==> Holders(w'.conns, c, u) != {} {
      assert u in RosterAt(w, c) <==> Holders(w.conns, c, u) != {};
    }
  }

  // -- what joining and leaving do to the sets -----------------------------------------

  lemma JoinPlainSeats(w: World, s: SocketId, c: Channel, d: Channel, v: UserId)
    requires s in w.conns
    ensures var w' := JoinPlain(w, s, c);
            && Subscribers(w'.conns, d) == Subscribers(w.conns, d) + (if d == c then {s} else {})
            && Holders(w'.conns, d, v) == Holders(w.conns, d, v)
            && RosterAt(w', d) == RosterAt(w, d)
  {
  }

  /** Who sits where after a presence join, socket by socket. */
  lemma JoinPresenceMoves(w: World, s: SocketId, c: Channel, u: UserId, info: Info)
    requires s in w.conns
    ensures SameSeats(w.conns[s := WithPresence(w.conns[s], c, u, info)], JoinPresence(w, s, c, u, info).conns)
  {
  }

  lemma JoinPresenceListed(w: World, s: SocketId, c: Channel, u: UserId, info: Info, d: Channel, v: UserId)
    requires s in w.conns
    ensures v in RosterAt(JoinPresence(w, s, c, u, info), d) <==> v in RosterAt(w, d) || (d == c && v == u)
  {
  }

  lemma JoinPresenceSeats(w: World, s: SocketId, c: Channel, u: UserId, info: Info, d: Channel, v: UserId)
    requires s in w.conns && c !in w.conns[s].presence
    ensures var w' := JoinPresence(w, s, c, u, info);
            && Subscribers(w'.conns, d) == Subscribers(w.conns, d) + (if d == c then {s} else {})
            && Holders(w'.conns, d, v) == Holders(w.conns, d, v) + (if d == c && v == u then {s} else {})
            && (v in RosterAt(w', d) <==> v in RosterAt(w, d) || (d == c && v == u))
  {
    JoinPresenceListed(w, s, c, u, info, d, v);
    hide JoinPresence, RosterAt;
    var conn := WithPresence(w.conns[s], c, u, info);
    JoinPresenceMoves(w, s, c, u, info);
    SameSeatsSameSets(w.conns[s := conn], JoinPresence(w, s, c, u, info).conns);
    assert Holds(conn, d, v) <==> Holds(w.conns[s], d, v) || (d == c && v == u);
    OneSocketMoves(w.conns, s, conn);
  }

  lemma LeavePresenceMoves(w: World, s: SocketId, c: Channel)
    requires s in w.conns && c in w.conns[s].presence
    ensures SameSeats(w.conns[s := w.conns[s].(presence := w.conns[s].presence - {c})], LeavePresence(w, s, c).conns)
  {
  }

  lemma LeavePresenceSeats(w: World, s: SocketId, c: Channel, d: Channel, v: UserId)
    requires s in w.conns && c in w.conns[s].presence
    ensures var w', u := LeavePresence(w, s, c), w.conns[s].presence[c].user;
            && Subscribers(w'.conns, d) == Subscribers(w.conns, d)
            && Holders(w'.conns, d, v) == Holders(w.conns, d, v) - (if d == c && v == u then {s} else {})
            && (v in RosterAt(w', d) <==> v in RosterAt(w, d) && !(d == c && v == u && Holders(w'.conns, c, u) == {}))
  {
    var conn := w.conns[s].(presence := w.conns[s].presence - {c});
    LeavePresenceMoves(w, s, c);
    SameSeatsSameSets(w.conns[s := conn], LeavePresence(w, s, c).conns);
    OneSocketMoves(w.conns, s, conn);
    assert Holds(conn, d, v) <==> Holds(w.conns[s], d, v) && d != c;
    assert Holds(w.conns[s], d, v) <==> s in Holders(w.conns, d, v);
  }

  lemma LeaveChannelSeats(w: World, s: SocketId, c: Channel, d: Channel, v: UserId)
    requires s in w.conns
    ensures var w' := LeaveChannel(w, s, c);
            && Subscribers(w'.conns, d) == Subscribers(w.conns, d) - (if d == c then {s} else {})
            && Holders(w'.conns, d, v) == Holders(w.conns, d, v)
            && RosterAt(w', d) == RosterAt(w, d)
  {
  }

  // -- every step keeps the invariant ----------------------------------------------------

  lemma JoinPlainKeepsWellFormed(w: World, s: SocketId, c: Channel)
    requires WellFormed(w) && s in w.conns && !IsPresence(c)
    ensures WellFormed(JoinPlain(w, s, c))
  {
    var w' := JoinPlain(w, s, c);
    assert PresenceMatchesKind(w.conns[s]);
    assert PresenceMatchesKind(w'.conns[s]);
    forall d, u ensures u in RosterAt(w', d) <==> Holders(w'.conns, d, u) != {} {
      JoinPlainSeats(w, s, c, d, u);
      assert u in RosterAt(w, d) <==> Holders(w.conns, d, u) != {};
    }
  }

  lemma JoinPresenceKeepsKinds(w: World, s: SocketId, c: Channel, u: UserId, info: Info)
    requires KindsMatch(w.conns) && s in w.conns && IsPresence(c)
    ensures KindsMatch(JoinPresence(w, s, c, u, info).conns)
  {
    var conn := WithPresence(w.conns[s], c, u, info);
    JoinPresenceMoves(w, s, c, u, info);
    assert PresenceMatchesKind(w.conns[s]);
    assert conn.presence.Keys == w.conns[s].presence.Keys + {c};
    assert PresenceMatchesKind(conn);
    SameSeatsKeepKinds(w.conns[s := conn], JoinPresence(w, s, c, u, info).conns);
  }

  lemma SameSeatsKeepKinds(a: ConnTable, b: ConnTable)
    requires SameSeats(a, b) && KindsMatch(a)
    ensures KindsMatch(b)
  {
    forall s | s in b ensures PresenceMatchesKind(b[s]) { assert PresenceMatchesKind(a[s]); }
  }

  lemma JoinPresenceKeepsWellFormed(w: World, s: SocketId, c: Channel, u: UserId, info: Info)
    requires WellFormed(w) && s in w.conns && IsPresence(c) && c !in w.conns[s].channels
    ensures WellFormed(JoinPresence(w, s, c, u, info))
  {
    var w' := JoinPresence(w, s, c, u, info);
    assert PresenceMatchesKind(w.conns[s]);
    JoinPresenceKeepsKinds(w, s, c, u, info);
    forall d, v ensures v in RosterAt(w', d) <==> Holders(w'.conns, d, v) != {} {
      JoinPresenceSeats(w, s, c, u, info, d, v);
      assert v in RosterAt(w, d) <==> Holders(w.conns, d, v) != {};
    }
    assert u in w'.roster[c];
  }

  lemma LeavePresenceKeepsRoster(w: World, s: SocketId, c: Channel)
    requires RosterMatches(w) && s in w.conns && c in w.conns[s].presence
    ensures RosterMatches(LeavePresence(w, s, c))
  {
    var w' := LeavePresence(w, s, c);
    forall d, v ensures v in RosterAt(w', d) <==> Holders(w'.conns, d, v) != {} {
      LeavePresenceSeats(w, s, c, d, v);
      assert v in RosterAt(w, d) <==> Holders(w.conns, d, v) != {};
    }
  }

  lemma LeaveChannelKeepsRoster(w: World, s: SocketId, c: Channel)
    requires RosterMatches(w) && s in w.conns
    ensures RosterMatches(LeaveChannel(w, s, c))
  {
    forall d, v ensures v in RosterAt(LeaveChannel(w, s, c), d) <==> Holders(LeaveChannel(w, s, c).conns, d, v) != {} {
      LeaveChannelSeats(w, s, c, d, v);
      assert v in RosterAt(w, d) <==> Holders(w.conns, d, v) != {};
    }
  }

  /** Unsubscribing moves one socket out of one channel and out of its presence. */
  lemma UnsubscribeMoves(w: World, s: SocketId, c: Channel)
    requires s in w.conns && PresenceMatchesKind(w.conns[s])
    ensures var conn := Without(w.conns[s], c);
            SameSeats(w.conns[s := conn], Unsubscribe(w, s, c).conns) && PresenceMatchesKind(conn)
    ensures Unsubscribe(w, s, c).retired == w.retired
  {
    hide Subscribers, Holders, FanOut, RosterAt;
    var conn := Without(w.conns[s], c);
    assert conn.presence.Keys == w.conns[s].presence.Keys - {c};
    if c !in w.conns[s].channels {
      assert c !in w.conns[s].presence;
      assert conn.channels == w.conns[s].channels && conn.presence == w.conns[s].presence;
    } else if c in w.conns[s].presence {
      LeavePresenceMoves(w, s, c);
    } else {
      assert conn.presence == w.conns[s].presence;
    }
  }

  lemma UnsubscribeKeepsWellFormed(w: World, s: SocketId, c: Channel)
    requires WellFormed(w) && s in w.conns
    ensures WellFormed(Unsubscribe(w, s, c))
    ensures Unsubscribe(w, s, c).conns[s].channels == w.conns[s].channels - {c}
  {
    assert PresenceMatchesKind(w.conns[s]);
    UnsubscribeMoves(w, s, c);
    var conn := Without(w.conns[s], c);
    SameSeatsKeepKinds(w.conns[s := conn], Unsubscribe(w, s, c).conns);
    if c in w.conns[s].channels {
      if IsPresence(c) {
        LeavePresenceKeepsRoster(w, s, c);
        LeaveChannelKeepsRoster(LeavePresence(w, s, c), s, c);
      } else {
        LeaveChannelKeepsRoster(w, s, c);
      }
    }
  }

  lemma {:induction false} UnsubscribeAllKeepsWellFormed(w: World, s: SocketId, order: seq<Channel>)
    requires WellFormed(w) && s in w.conns
    ensures WellFormed(UnsubscribeAll(w, s, order))
    ensures UnsubscribeAll(w, s, order).conns[s].channels == w.conns[s].channels - set c | c in order
    decreases |order|
  {
    if order != [] {
      var rest, c := order[..|order| - 1], order[|order| - 1];
      UnsubscribeAllKeepsWellFormed(w, s, rest);
      UnsubscribeKeepsWellFormed(UnsubscribeAll(w, s, rest), s, c);
      assert (set d | d in order) == (set d | d in rest) + {c};
    }
  }

  /** Teardown is complete: the socket holds nothing by the time it is forgotten,
      so forgetting it empties no further channel and strands no user. */
  lemma CloseKeepsWellFormed(w: World, s: SocketId, order: seq<Channel>)
    requires WellFormed(w) && Possible(w, Closing(s, order))
    ensures WellFormed(Close(w, s, order))
    ensures forall c :: Subscribers(Close(w, s, order).conns, c) == Subscribers(UnsubscribeAll(w, s, order).conns, c)
    ensures forall c, u :: Holders(Close(w, s, order).conns, c, u) == Holders(UnsubscribeAll(w, s, order).conns, c, u)
  {
    UnsubscribeAllKeepsWellFormed(w, s, order);
    var empty := UnsubscribeAll(w, s, order);
    assert PresenceMatchesKind(empty.conns[s]);
    assert empty.conns[s].channels == {} && empty.conns[s].presence.Keys == {};
    OneSocketGoes(empty.conns, s);
    UnsubscribeAllKeepsRetired(w, s, order);
    var w' := Close(w, s, order);
    forall c, u ensures u in RosterAt(w', c) <==> Holders(w'.conns, c, u) != {} {
      assert u in RosterAt(empty, c) <==> Holders(empty.conns, c, u) != {};
    }
    forall t | t in w'.conns ensures PresenceMatchesKind(w'.conns[t]) { assert PresenceMatchesKind(empty.conns[t]); }
  }

  lemma {:induction false} UnsubscribeAllKeepsRetired(w: World, s: SocketId, order: seq<Channel>)
    requires s in w.conns
    ensures UnsubscribeAll(w, s, order).retired == w.retired && UnsubscribeAll(w, s, order).conns.Keys == w.conns.Keys
    decreases |order|
  {
    if order != [] { UnsubscribeAllKeepsRetired(w, s, order[..|order| - 1]); }
  }

  /** The subscription a request is granted, if it is: everything else it causes is mail. */
  ghost function Granted(w: World, s: SocketId, request: SubscribeRequest, max: nat): Option<World>
    requires s in w.conns
  {
    if request == Malformed || request.channel in w.conns[s].channels then None
    else if Refusal(request.channel, request.auth, request.claim).Some? then None
    else if !IsPresence(request.channel) then Some(JoinPlain(w, s, request.channel))
    else if request.claim.user !in RosterAt(w, request.channel) && |RosterAt(w, request.channel)| >= max then None
    else Some(JoinPresence(w, s, request.channel, request.claim.user, request.claim.info))
  }

  lemma SubscribeOutcome(w: World, s: SocketId, request: SubscribeRequest, max: nat)
    requires s in w.conns
    ensures var granted, w' := Granted(w, s, request, max), Subscribe(w, s, request, max);
            if granted.Some?
            then s in granted.value.conns && w' == ReplayCache(granted.value, s, request.channel, request.cached)
            else OnlyMail(w, w')
  {
    if request.Join? && Refusal(request.channel, request.auth, request.claim).Some? {
      TellIsMail(w, s, Error(Refusal(request.channel, request.auth, request.claim).value));
    }
  }

  lemma SubscribeKeepsWellFormed(w: World, s: SocketId, request: SubscribeRequest, max: nat)
    requires WellFormed(w) && s in w.conns
    ensures WellFormed(Subscribe(w, s, request, max))
  {
    SubscribeOutcome(w, s, request, max);
    var granted := Granted(w, s, request, max);
    if granted == None {
      MailKeepsWellFormed(w, Subscribe(w, s, request, max));
    } else {
      if IsPresence(request.channel) {
        JoinPresenceKeepsWellFormed(w, s, request.channel, request.claim.user, request.claim.info);
      } else {
        JoinPlainKeepsWellFormed(w, s, request.channel);
      }
      ReplayCacheIsMail(granted.value, s, request.channel, request.cached);
      MailKeepsWellFormed(granted.value, Subscribe(w, s, request, max));
    }
  }

  ghost predicate IsMail(step: Step) {
    step.SigningIn? || step.Publishing? || step.Terminating? || step.Delivering?
  }

  lemma MailStepIsMail(w: World, step: Step, max: nat)
    requires Possible(w, step) && IsMail(step)
    ensures OnlyMail(w, Next(w, step, max)) && Next(w, step, max).hooks == w.hooks
  {
    hide Subscribe, Unsubscribe, Close, Subscribers, SignedIn;
  }

  lemma NextKeepsWellFormed(w: World, step: Step, max: nat)
    requires WellFormed(w) && Possible(w, step)
    ensures WellFormed(Next(w, step, max))
  {
    match step
    case Connecting(s, limit) => ConnectKeepsWellFormed(w, s, limit);
    case Subscribing(s, request) => SubscribeKeepsWellFormed(w, s, request, max);
    case Unsubscribing(s, c) => UnsubscribeKeepsWellFormed(w, s, c);
    case Closing(s, order) => CloseKeepsWellFormed(w, s, order);
    case _ => MailStepIsMail(w, step, max); MailKeepsWellFormed(w, Next(w, step, max));
  }

  /** The only new socket id is the one that connects. */
  lemma NextUsesNoOtherId(w: World, step: Step, max: nat)
    requires Possible(w, step)
    ensures Next(w, step, max).conns.Keys + Next(w, step, max).retired
         <= w.conns.Keys + w.retired + if step.Connecting? then {step.s} else {}
  {
    match step
    case Connecting(s, limit) =>
    case Closing(s, order) => UnsubscribeAllKeepsRetired(w, s, order);
    case Subscribing(s, request) => SubscribeUsesNoOtherId(w, s, request, max);
    case Unsubscribing(s, c) => UnsubscribeUsesNoOtherId(w, s, c);
    case _ => MailStepIsMail(w, step, max);
  }

  lemma SubscribeUsesNoOtherId(w: World, s: SocketId, request: SubscribeRequest, max: nat)
    requires s in w.conns
    ensures Subscribe(w, s, request, max).conns.Keys == w.conns.Keys
    ensures Subscribe(w, s, request, max).retired == w.retired
  {
    SubscribeOutcome(w, s, request, max);
    var granted := Granted(w, s, request, max);
    if granted.Some? {
      ReplayCacheIsMail(granted.value, s, request.channel, request.cached);
    }
  }

  lemma UnsubscribeUsesNoOtherId(w: World, s: SocketId, c: Channel)
    requires s in w.conns
    ensures Unsubscribe(w, s, c).conns.Keys == w.conns.Keys && Unsubscribe(w, s, c).retired == w.retired
  {
  }

  lemma {:induction false} RunIsWellFormed(trace: seq<Step>, max: nat)
    requires Run(trace, max).Some?
    ensures WellFormed(Run(trace, max).value)
    decreases |trace|
  {
    if trace != [] {
      RunIsWellFormed(trace[..|trace| - 1], max);
      NextKeepsWellFormed(Run(trace[..|trace| - 1], max).value, trace[|trace| - 1], max);
    }
  }
}
