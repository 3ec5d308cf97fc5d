/** What every event leaves behind, socket by socket: which messages each is sent and in
    which order, what it then holds, and which webhooks go out. */
module Mail {
  import opened Protocol
  import opened Connection
  import opened Subscriptions
  import Replicas

  /** `c'` is `c` after `ms` were sent to it: they are queued in order for as long as the
      512 places last, and the first that finds none flags the connection. */
  ghost predicate Sent(c: Conn, ms: seq<Message>, c': Conn) {
    var room := if |c.queue| < 512 then 512 - |c.queue| else 0;
    var got := if |ms| <= room then ms else ms[..room];
    && c'.queue == c.queue + got && c'.log == c.log + got && c'.read == c.read
    && c'.forceClose == (c.forceClose || |ms| > room)
  }

  /** The rest of a connection: subscriptions and identities. */
  ghost predicate Unmoved(c: Conn, c': Conn) {
    c'.channels == c.channels && c'.presence == c.presence && c'.user == c.user && c'.identities == c.identities
  }

  lemma SentNothing(c: Conn)
    ensures Sent(c, [], c)
  {
    assert c.queue + [] == c.queue && c.log + [] == c.log;
  }

  /** One message after others. */
  lemma SentMore(a: Conn, ms: seq<Message>, b: Conn, m: Message)
    requires Sent(a, ms, b)
    ensures Sent(a, ms + [m], Enqueue(b, m)) && Unmoved(b, Enqueue(b, m))
  {
    var room := if |a.queue| < 512 then 512 - |a.queue| else 0;
    if |ms| < room {
      assert a.queue + (ms + [m]) == a.queue + ms + [m] && a.log + (ms + [m]) == a.log + ms + [m];
    } else {
      assert (ms + [m])[..room] == ms[..room];
      assert |ms| == room ==> ms[..room] == ms;
    }
  }

  lemma SentOne(c: Conn, m: Message)
    ensures Sent(c, [m], Enqueue(c, m)) && Unmoved(c, Enqueue(c, m))
  {
    SentNothing(c);
    SentMore(c, [], c, m);
    assert [] + [m] == [m];
  }

  // -- subscribing ---------------------------------------------------------------------------------

  /** Private and presence channels want a valid signature, presence a usable claim. */
  ghost predicate Passes(c: Channel, auth: Option<bool>, claim: Claim) {
    && (IsPrivate(c) || IsPresence(c) ==> auth == Some(true))
    && (IsPresence(c) ==> claim.Member?)
  }

  /** A user not listed yet wants a place. */
  ghost predicate Fits(w: World, c: Channel, claim: Claim, max: nat) {
    IsPresence(c) && claim.Member? ==> claim.user in RosterAt(w, c) || |RosterAt(w, c)| < max
  }

  /** The request is granted and its user was not on the channel. */
  ghost predicate BringsUser(w: World, s: SocketId, request: SubscribeRequest, max: nat)
    requires s in w.conns
  {
    && request.Join? && request.channel !in w.conns[s].channels && IsPresence(request.channel)
    && Passes(request.channel, request.auth, request.claim) && Fits(w, request.channel, request.claim, max)
    && request.claim.user !in RosterAt(w, request.channel)
  }

  lemma JoinPlainMail(w: World, s: SocketId, c: Channel, t: SocketId)
    requires s in w.conns && t in w.conns
    ensures var w' := JoinPlain(w, s, c);
            && t in w'.conns && s in w'.conns
            && Sent(w.conns[s], [Subscribed(c)], w'.conns[s])
            && w'.conns[s].channels == w.conns[s].channels + {c} && w'.conns[s].presence == w.conns[s].presence
            && w'.conns[s].user == w.conns[s].user && w'.conns[s].identities == w.conns[s].identities
            && (t != s ==> w'.conns[t] == w.conns[t])
            && w'.roster == w.roster
            && w'.hooks == w.hooks + (if Subscribers(w.conns, c) == {} then [ChannelOccupied(c)] else [])
  {
    SentOne(WithChannel(w.conns[s], c), Subscribed(c));
  }

  lemma JoinPresenceOwnMail(w: World, s: SocketId, c: Channel, u: UserId, info: Info)
    requires s in w.conns
    ensures var w', list := JoinPresence(w, s, c, u, info), RosterAt(w, c);
            && s in w'.conns
            && Sent(w.conns[s], [PresenceSnapshot(c, if u in list then list else list[u := info])], w'.conns[s])
            && w'.conns[s].channels == w.conns[s].channels + {c}
            && w'.conns[s].presence == w.conns[s].presence[c := Identity(u, info)]
            && w'.conns[s].user == w.conns[s].user && w'.conns[s].identities == w.conns[s].identities
  {
    var list := RosterAt(w, c);
    var snapshot := PresenceSnapshot(c, if u in list then list else list[u := info]);
    SentOne(WithPresence(w.conns[s], c, u, info), snapshot);
    assert JoinPresence(w, s, c, u, info).conns[s] == Enqueue(WithPresence(w.conns[s], c, u, info), snapshot);
    hide JoinPresence, Enqueue;
  }

  lemma JoinPresenceOthersMail(w: World, s: SocketId, c: Channel, u: UserId, info: Info, t: SocketId)
    requires s in w.conns && t in w.conns
    ensures var w', list := JoinPresence(w, s, c, u, info), RosterAt(w, c);
            && t in w'.conns
            && (t != s ==> Unmoved(w.conns[t], w'.conns[t]))
            && (t != s ==>
                  Sent(w.conns[t], if u !in list && c in w.conns[t].channels then [MemberAdded(c, u, info)] else [],
                       w'.conns[t]))
            && RosterAt(w', c) == (if u in list then list else list[u := info])
            && (forall d :: d != c ==> RosterAt(w', d) == RosterAt(w, d))
            && w'.hooks == w.hooks + (if Subscribers(w.conns, c) == {} then [ChannelOccupied(c)] else [])
                                   + (if u !in list then [UserJoined(c, u)] else [])
  {
    SentNothing(w.conns[t]);
    SentOne(w.conns[t], MemberAdded(c, u, info));
    hide Enqueue, Sent;
  }

  ghost function Replayed(c: Channel, cached: Cached): seq<Message> {
    if !IsCache(c) || cached.Disabled? then []
    else if cached.Last? then [Event(c, cached.name, cached.data)]
    else [CacheMiss(c)]
  }

  lemma ReplayMail(w: World, s: SocketId, c: Channel, cached: Cached, was: Conn, ms: seq<Message>)
    requires s in w.conns && Sent(was, ms, w.conns[s])
    ensures var w' := ReplayCache(w, s, c, cached);
            && w'.conns.Keys == w.conns.Keys
            && Sent(was, ms + Replayed(c, cached), w'.conns[s]) && Unmoved(w.conns[s], w'.conns[s])
            && (forall t :: t in w.conns && t != s ==> w'.conns[t] == w.conns[t])
            && w'.roster == w.roster
            && w'.hooks == w.hooks + (if IsCache(c) && cached.Nothing? then [CacheMissed(c)] else [])
  {
    assert ms + [] == ms && w.hooks + [] == w.hooks;
    SentMore(was, ms, w.conns[s], CacheMiss(c));
    if cached.Last? {
      SentMore(was, ms, w.conns[s], Event(c, cached.name, cached.data));
    }
    hide Enqueue, Sent;
  }

  lemma RefusedMail(w: World, s: SocketId, m: Message)
    requires s in w.conns
    ensures var w' := Tell(w, s, m);
            && w'.conns.Keys == w.conns.Keys && Sent(w.conns[s], [m], w'.conns[s]) && Unmoved(w.conns[s], w'.conns[s])
            && (forall t :: t in w.conns && t != s ==> w'.conns[t] == w.conns[t])
            && w'.roster == w.roster && w'.hooks == w.hooks
  {
    SentOne(w.conns[s], m);
  }

  lemma RefusedIsTold(w: World, s: SocketId, c: Channel, auth: Option<bool>, claim: Claim, cached: Cached, max: nat)
    returns (m: Message)
    requires s in w.conns && c !in w.conns[s].channels && !(Passes(c, auth, claim) && Fits(w, c, claim, max))
    ensures m.Error? && Subscribe(w, s, Join(c, auth, claim, cached), max) == Tell(w, s, m)
  {
    hide JoinPlain, JoinPresence, ReplayCache, RosterAt, Enqueue;
    var refusal := Refusal(c, auth, claim);
    m := Error(if refusal.Some? then refusal.value else OverMemberLimit);
    if auth.Some? {
      assert if auth.value then auth == Some(true) else auth == Some(false);
    }
  }

  /** Exactly which requests are granted, and what the socket holds then. */
  lemma GrantedIff(w: World, s: SocketId, c: Channel, auth: Option<bool>, claim: Claim, cached: Cached, max: nat)
    requires s in w.conns && c !in w.conns[s].channels
    ensures var w' := Subscribe(w, s, Join(c, auth, claim, cached), max);
            && s in w'.conns
            && var conn, conn', granted := w.conns[s], w'.conns[s], Passes(c, auth, claim) && Fits(w, c, claim, max);
            && conn'.channels == conn.channels + (if granted then {c} else {})
            && conn'.presence == (if granted && IsPresence(c) then conn.presence[c := Identity(claim.user, claim.info)]
                                  else conn.presence)
            && conn'.user == conn.user && conn'.identities == conn.identities
  {
    if Passes(c, auth, claim) && Fits(w, c, claim, max) {
      GrantedMail(w, s, c, auth, claim, cached, max);
    } else {
      var m := RefusedIsTold(w, s, c, auth, claim, cached, max);
      RefusedMail(w, s, m);
    }
  }

  /** A granted request is answered by the subscription, or for a presence channel by the
      list with the new user on it, and on a cache channel then by what the cache has. */
  lemma GrantedMail(w: World, s: SocketId, c: Channel, auth: Option<bool>, claim: Claim, cached: Cached, max: nat)
    requires s in w.conns && c !in w.conns[s].channels && Passes(c, auth, claim) && Fits(w, c, claim, max)
    ensures var w' := Subscribe(w, s, Join(c, auth, claim, cached), max);
            s in w'.conns &&
            var list := RosterAt(w, c);
            var answer := if !IsPresence(c) then Subscribed(c)
              else PresenceSnapshot(c, if claim.user in list then list else list[claim.user := claim.info]);
            && (!IsCache(c) || cached.Disabled? ==> Sent(w.conns[s], [answer], w'.conns[s]))
            && (IsCache(c) && cached.Last? ==>
                  Sent(w.conns[s], [answer, Event(c, cached.name, cached.data)], w'.conns[s]))
            && (IsCache(c) && cached.Nothing? ==> Sent(w.conns[s], [answer, CacheMiss(c)], w'.conns[s]))
    ensures var conn, conn' := w.conns[s], Subscribe(w, s, Join(c, auth, claim, cached), max).conns[s];
            && conn'.channels == conn.channels + {c}
            && conn'.presence == (if IsPresence(c) then conn.presence[c := Identity(claim.user, claim.info)]
                                  else conn.presence)
            && conn'.user == conn.user && conn'.identities == conn.identities
  {
    hide Sent, JoinPlain, JoinPresence, ReplayCache, Enqueue;
    var list := RosterAt(w, c);
    if IsPresence(c) {
      var answer := PresenceSnapshot(c, if claim.user in list then list else list[claim.user := claim.info]);
      JoinPresenceOwnMail(w, s, c, claim.user, claim.info);
      ReplayMail(JoinPresence(w, s, c, claim.user, claim.info), s, c, cached, w.conns[s], [answer]);
      Appended(answer, cached, c);
    } else {
      JoinPlainMail(w, s, c, s);
      ReplayMail(JoinPlain(w, s, c), s, c, cached, w.conns[s], [Subscribed(c)]);
      Appended(Subscribed(c), cached, c);
    }
  }

  lemma Appended(m: Message, cached: Cached, c: Channel)
    ensures !IsCache(c) || cached.Disabled? ==> [m] + Replayed(c, cached) == [m]
    ensures IsCache(c) && cached.Last? ==> [m] + Replayed(c, cached) == [m, Event(c, cached.name, cached.data)]
    ensures IsCache(c) && cached.Nothing? ==> [m] + Replayed(c, cached) == [m, CacheMiss(c)]
  {
  }

  /** Nobody else hears of it, but of a user new to a presence channel its subscribers do. */
  lemma SubscribingTellsOthers(w: World, s: SocketId, request: SubscribeRequest, max: nat, t: SocketId)
    requires s in w.conns && t in w.conns && t != s
    ensures var w' := Subscribe(w, s, request, max);
            && t in w'.conns && Unmoved(w.conns[t], w'.conns[t])
            && Sent(w.conns[t],
                    if BringsUser(w, s, request, max) && request.channel in w.conns[t].channels
                    then [MemberAdded(request.channel, request.claim.user, request.claim.info)] else [],
                    w'.conns[t])
  {
    hide Sent, Enqueue, JoinPlain, JoinPresence, ReplayCache;
    SentNothing(w.conns[t]);
    if request.Join? && request.channel !in w.conns[s].channels {
      var c, claim := request.channel, request.claim;
      if Passes(c, request.auth, claim) && Fits(w, c, claim, max) {
        if IsPresence(c) {
          JoinPresenceOwnMail(w, s, c, claim.user, claim.info);
          JoinPresenceOthersMail(w, s, c, claim.user, claim.info, t);
          var joined := JoinPresence(w, s, c, claim.user, claim.info);
          ReplayKeepsOthers(joined, s, c, request.cached);
        } else {
          JoinPlainMail(w, s, c, t);
          ReplayKeepsOthers(JoinPlain(w, s, c), s, c, request.cached);
        }
      } else {
        var m := RefusedIsTold(w, s, c, request.auth, claim, request.cached, max);
        RefusedMail(w, s, m);
      }
    } else if request == Malformed {
      RefusedMail(w, s, Error(InvalidRequest));
    }
  }

  lemma ReplayKeepsOthers(w: World, s: SocketId, c: Channel, cached: Cached)
    requires s in w.conns
    ensures var w' := ReplayCache(w, s, c, cached);
            && w'.conns.Keys == w.conns.Keys
            && (forall t :: t in w.conns && t != s ==> w'.conns[t] == w.conns[t])
            && w'.roster == w.roster
            && w'.hooks == w.hooks + (if IsCache(c) && cached.Nothing? then [CacheMissed(c)] else [])
  {
    SentNothing(w.conns[s]);
    ReplayMail(w, s, c, cached, w.conns[s], []);
  }

  /** The member lists and the webhooks after a request. */
  lemma SubscribingLists(w: World, s: SocketId, c: Channel, auth: Option<bool>, claim: Claim, cached: Cached, max: nat)
    requires s in w.conns && c !in w.conns[s].channels
    ensures var w' := Subscribe(w, s, Join(c, auth, claim, cached), max);
            var granted, listed := Passes(c, auth, claim) && Fits(w, c, claim, max), RosterAt(w, c);
            && (forall d :: d != c ==> RosterAt(w', d) == RosterAt(w, d))
            && RosterAt(w', c) == (if granted && IsPresence(c) && claim.user !in listed
                                   then listed[claim.user := claim.info] else listed)
            && w'.hooks == w.hooks
                 + (if granted && Subscribers(w.conns, c) == {} then [ChannelOccupied(c)] else [])
                 + (if granted && IsPresence(c) && claim.user !in listed then [UserJoined(c, claim.user)] else [])
                 + (if granted && IsCache(c) && cached.Nothing? then [CacheMissed(c)] else [])
  {
    hide Sent, Enqueue, JoinPlain, JoinPresence, ReplayCache, Tell, Subscribers, RosterAt;
    var w' := Subscribe(w, s, Join(c, auth, claim, cached), max);
    if Passes(c, auth, claim) && Fits(w, c, claim, max) {
      var joined := if IsPresence(c) then JoinPresence(w, s, c, claim.user, claim.info) else JoinPlain(w, s, c);
      if IsPresence(c) {
        JoinPresenceOwnMail(w, s, c, claim.user, claim.info);
        JoinPresenceOthersMail(w, s, c, claim.user, claim.info, s);
      } else {
        JoinPlainMail(w, s, c, s);
        SameRoster(w, joined);
      }
      ReplayKeepsOthers(joined, s, c, cached);
      SameRoster(joined, w');
    } else {
      var m := RefusedIsTold(w, s, c, auth, claim, cached, max);
      RefusedMail(w, s, m);
      SameRoster(w, w');
    }
  }

  lemma SameRoster(w: World, w': World)
    requires w'.roster == w.roster
    ensures forall d :: RosterAt(w', d) == RosterAt(w, d)
  {
  }

  /** What every other request is answered: nothing if the channel is held already, and
      otherwise the first of the server's reasons that applies. */
  lemma RefusalMail(w: World, s: SocketId, c: Channel, auth: Option<bool>, claim: Claim, cached: Cached, max: nat)
    requires s in w.conns
    ensures Sent(w.conns[s], [Error(InvalidRequest)], Subscribe(w, s, Malformed, max).conns[s])
    ensures c in w.conns[s].channels ==> Subscribe(w, s, Join(c, auth, claim, cached), max) == w
    ensures var conn, w' := w.conns[s], Subscribe(w, s, Join(c, auth, claim, cached), max);
            s in w'.conns && (c !in conn.channels ==>
              && (IsPrivate(c) && auth == None ==> Sent(conn, [Error(AuthorizationRequired)], w'.conns[s]))
              && (IsPrivate(c) && auth == Some(false) ==> Sent(conn, [Error(AuthorizationFailed)], w'.conns[s]))
              && (IsPresence(c) && auth == None ==> Sent(conn, [Error(AuthorizationRequired)], w'.conns[s]))
              && (IsPresence(c) && auth.Some? && claim == NoChannelData ==>
                    Sent(conn, [Error(MissingChannelData)], w'.conns[s]))
              && (IsPresence(c) && auth == Some(false) && claim != NoChannelData ==>
                    Sent(conn, [Error(AuthorizationFailed)], w'.conns[s]))
              && (IsPresence(c) && auth == Some(true) && claim == BadChannelData ==>
                    Sent(conn, [Error(InvalidChannelData)], w'.conns[s]))
              && (IsPresence(c) && auth == Some(true) && claim == NoUserId ==>
                    Sent(conn, [Error(MissingUserId)], w'.conns[s]))
              && (IsPresence(c) && auth == Some(true) && claim == TooLarge ==>
                    Sent(conn, [Error(MemberTooLarge)], w'.conns[s]))
              && (IsPresence(c) && auth == Some(true) && claim.Member?
                  && claim.user !in RosterAt(w, c) && |RosterAt(w, c)| >= max ==>
                    Sent(conn, [Error(OverMemberLimit)], w'.conns[s])))
  {
    OneKind(c);
    forall r: Reason ensures Sent(w.conns[s], [Error(r)], Tell(w, s, Error(r)).conns[s]) {
      SentOne(w.conns[s], Error(r));
    }
    hide Sent, Enqueue, JoinPlain, JoinPresence, ReplayCache, IsPrivate, IsPresence;
    if Passes(c, auth, claim) && Fits(w, c, claim, max) && c !in w.conns[s].channels {
      GrantedIff(w, s, c, auth, claim, cached, max);
    }
  }

  /** No channel is of two kinds. */
  lemma OneKind(c: Channel)
    ensures !(IsPrivate(c) && IsPresence(c))
  {
    if IsPrivate(c) {
      assert WithoutCache(c)[1] == "private-"[1];
      assert "presence-"[1] == 'r' && "presence-"[2] == 'e' && "private-"[2] == 'i';
      assert WithoutCache(c)[2] == 'i';
    }
  }

  // -- unsubscribing ---------------------------------------------------------------------------------

  /** `s` is the only socket that is in `c` as its user, so the user goes with it. */
  ghost predicate TakesUserAlong(w: World, s: SocketId, c: Channel) {
    && s in w.conns && c in w.conns[s].channels && c in w.conns[s].presence
    && Holders(w.conns, c, w.conns[s].presence[c].user) == {s}
  }

  lemma LeavePresenceMail(w: World, s: SocketId, c: Channel, t: SocketId)
    requires s in w.conns && t in w.conns && c in w.conns[s].presence
    ensures var w', u := LeavePresence(w, s, c), w.conns[s].presence[c].user;
            var gone := Holders(w.conns, c, u) == {s};
            && w'.conns.Keys == w.conns.Keys
            && Sent(w.conns[t], if gone && t != s && c in w.conns[t].channels then [MemberRemoved(c, u)] else [],
                    w'.conns[t])
            && (t != s ==> Unmoved(w.conns[t], w'.conns[t]))
            && w'.conns[s] == w.conns[s].(presence := w.conns[s].presence - {c})
            && RosterAt(w', c) == (if gone then RosterAt(w, c) - {u} else RosterAt(w, c))
            && (forall d :: d != c ==> RosterAt(w', d) == RosterAt(w, d))
            && w'.hooks == w.hooks + (if gone then [UserLeft(c, u)] else [])
  {
    var u := w.conns[s].presence[c].user;
    var left := w.conns[s := w.conns[s].(presence := w.conns[s].presence - {c})];
    OneSocketMoves(w.conns, s, left[s]);
    assert s in Holders(w.conns, c, u);
    assert Holders(left, c, u) == Holders(w.conns, c, u) - {s};
    assert Holders(left, c, u) == {} <==> Holders(w.conns, c, u) == {s};
    SentNothing(w.conns[t]);
    SentOne(w.conns[t], MemberRemoved(c, u));
    hide Sent, Enqueue, Holders;
    assert w.hooks + [] == w.hooks;
  }

  lemma LeaveChannelMail(w: World, s: SocketId, c: Channel, t: SocketId)
    requires s in w.conns && t in w.conns
    ensures var w' := LeaveChannel(w, s, c);
            && w'.conns.Keys == w.conns.Keys
            && (t != s ==> w'.conns[t] == w.conns[t])
            && w'.conns[s] == w.conns[s].(channels := w.conns[s].channels - {c})
            && w'.roster == w.roster
            && (c in w.conns[s].channels ==>
                  w'.hooks == w.hooks + (if Subscribers(w.conns, c) == {s} then [ChannelVacated(c)] else []))
  {
    var left := w.conns[s].(channels := w.conns[s].channels - {c});
    OneSocketMoves(w.conns, s, left);
    if c in w.conns[s].channels {
      assert s in Subscribers(w.conns, c);
      assert Subscribers(w.conns, c) - {s} == {} <==> Subscribers(w.conns, c) == {s};
    }
  }

  /** The leaver hears nothing and holds the channel no more; if its user goes with it the
      other subscribers hear so; and then come the webhooks. */
  lemma UnsubscribingMail(w: World, s: SocketId, c: Channel, t: SocketId)
    requires WellFormed(w) && s in w.conns && t in w.conns
    ensures var w', conn := Unsubscribe(w, s, c), w.conns[s];
            var gone := TakesUserAlong(w, s, c);
            && w'.conns.Keys == w.conns.Keys
            && w'.conns[s] == conn.(channels := conn.channels - {c}, presence := conn.presence - {c})
            && (t != s ==> Unmoved(w.conns[t], w'.conns[t]))
            && (t != s ==>
                  Sent(w.conns[t],
                       if gone && c in w.conns[t].channels then [MemberRemoved(c, conn.presence[c].user)] else [],
                       w'.conns[t]))
            && RosterAt(w', c) == (if gone then RosterAt(w, c) - {conn.presence[c].user} else RosterAt(w, c))
            && (forall d :: d != c ==> RosterAt(w', d) == RosterAt(w, d))
            && w'.hooks == w.hooks + (if gone then [UserLeft(c, conn.presence[c].user)] else [])
                 + (if Subscribers(w.conns, c) == {s} then [ChannelVacated(c)] else [])
  {
    var conn := w.conns[s];
    assert PresenceMatchesKind(conn);
    SentNothing(w.conns[t]);
    if c !in conn.channels {
      assert c !in conn.presence;
      assert s !in Subscribers(w.conns, c);
      assert conn.channels - {c} == conn.channels && conn.presence - {c} == conn.presence;
      assert w.hooks + [] == w.hooks;
    } else if c in conn.presence {
      var left := LeavePresence(w, s, c);
      LeavePresenceMail(w, s, c, t);
      LeavePresenceMail(w, s, c, s);
      LeavePresenceMoves(w, s, c);
      SameSeatsSameSets(w.conns[s := conn.(presence := conn.presence - {c})], left.conns);
      OneSocketMoves(w.conns, s, conn.(presence := conn.presence - {c}));
      hide LeavePresence, Sent, Enqueue, Holders, Subscribers;
      LeaveChannelMail(left, s, c, t);
      assert Subscribers(left.conns, c) == Subscribers(w.conns, c) by { StillSubscribed(w.conns, s, c); }
      SameRoster(left, LeaveChannel(left, s, c));
      hide LeaveChannel;
    } else {
      LeaveChannelMail(w, s, c, t);
      SameRoster(w, LeaveChannel(w, s, c));
      hide LeaveChannel, Subscribers, Sent;
      assert conn.presence - {c} == conn.presence;
      assert w.hooks + [] == w.hooks;
    }
  }

  lemma StillSubscribed(conns: ConnTable, s: SocketId, c: Channel)
    requires s in conns && c in conns[s].channels
    ensures Subscribers(conns[s := conns[s].(presence := conns[s].presence - {c})], c) == Subscribers(conns, c)
  {
  }

  // -- closing --------------------------------------------------------------------------------------

  /** What `t` hears when `s` leaves the channels in this order. */
  ghost function Farewells(w: World, s: SocketId, order: seq<Channel>, t: SocketId): seq<Message>
    requires s in w.conns && t in w.conns
    decreases |order|
  {
    if order == [] then []
    else
      var c := order[|order| - 1];
      Farewells(w, s, order[..|order| - 1], t)
      + if TakesUserAlong(w, s, c) && c in w.conns[t].channels
        then [MemberRemoved(c, w.conns[s].presence[c].user)] else []
  }

  ghost function Partings(w: World, s: SocketId, order: seq<Channel>): seq<Webhook>
    requires s in w.conns
    decreases |order|
  {
    if order == [] then []
    else
      var c := order[|order| - 1];
      Partings(w, s, order[..|order| - 1])
      + (if TakesUserAlong(w, s, c) then [UserLeft(c, w.conns[s].presence[c].user)] else [])
      + (if Subscribers(w.conns, c) == {s} then [ChannelVacated(c)] else [])
  }

  lemma SentThen(a: Conn, x: seq<Message>, b: Conn, y: seq<Message>, c: Conn)
    requires Sent(a, x, b) && Sent(b, y, c) && |y| <= 1
    ensures Sent(a, x + y, c)
  {
    if y == [] {
      assert x + y == x && b.queue + [] == b.queue && b.log + [] == b.log;
    } else {
      SentMore(a, x, b, y[0]);
      SentOne(b, y[0]);
      assert y == [y[0]];
    }
  }

  /** The socket with some channels already left. */
  ghost function Lighter(conn: Conn, order: seq<Channel>): Conn {
    conn.(channels := conn.channels - (set c | c in order), presence := conn.presence - (set c | c in order))
  }

  lemma LighterOneMore(conn: Conn, rest: seq<Channel>, c: Channel)
    ensures var light := Lighter(conn, rest);
            Lighter(conn, rest + [c]) == light.(channels := light.channels - {c}, presence := light.presence - {c})
    ensures Lighter(conn, []) == conn
  {
    assert (set d | d in rest + [c]) == (set d | d in rest) + {c};
    assert conn.channels - {} == conn.channels && conn.presence - {} == conn.presence;
  }

  lemma {:induction false} UnsubscribeAllLightens(w: World, s: SocketId, order: seq<Channel>)
    requires WellFormed(w) && s in w.conns
    ensures var v := UnsubscribeAll(w, s, order);
            && WellFormed(v) && v.conns.Keys == w.conns.Keys && v.retired == w.retired
            && v.conns[s] == Lighter(w.conns[s], order)
            && (forall t :: t in w.conns && t != s ==> Unmoved(w.conns[t], v.conns[t]))
    decreases |order|
  {
    UnsubscribeAllKeepsWellFormed(w, s, order);
    UnsubscribeAllKeepsRetired(w, s, order);
    hide WellFormed, Lighter, Unsubscribe, Unmoved;
    if order == [] {
      LighterOneMore(w.conns[s], [], "");
      forall t | t in w.conns ensures Unmoved(w.conns[t], w.conns[t]) { Still(w.conns[t]); }
    } else {
      var rest, c := order[..|order| - 1], order[|order| - 1];
      assert rest + [c] == order;
      UnsubscribeAllLightens(w, s, rest);
      LighterOneMore(w.conns[s], rest, c);
      var v := UnsubscribeAll(w, s, rest);
      UnsubscribingMail(v, s, c, s);
      forall t | t in w.conns && t != s ensures Unmoved(w.conns[t], Unsubscribe(v, s, c).conns[t]) {
        UnsubscribingMail(v, s, c, t);
        StillThen(w.conns[t], v.conns[t], Unsubscribe(v, s, c).conns[t]);
      }
    }
  }

  lemma Still(c: Conn)
    ensures Unmoved(c, c)
  {
  }

  lemma StillThen(a: Conn, b: Conn, c: Conn)
    requires Unmoved(a, b) && Unmoved(b, c)
    ensures Unmoved(a, c)
  {
  }

  /** A channel not left yet is as it was. */
  lemma UntouchedSoFar(w: World, s: SocketId, rest: seq<Channel>, c: Channel)
    requires WellFormed(w) && s in w.conns && c !in rest
    ensures var v := UnsubscribeAll(w, s, rest);
            && s in v.conns && (TakesUserAlong(v, s, c) <==> TakesUserAlong(w, s, c))
            && (c in w.conns[s].presence ==>
                  c in v.conns[s].presence && v.conns[s].presence[c] == w.conns[s].presence[c])
            && Subscribers(v.conns, c) == Subscribers(w.conns, c)
  {
    var v := UnsubscribeAll(w, s, rest);
    UnsubscribeAllLightens(w, s, rest);
    hide UnsubscribeAll, WellFormed;
    assert Subscribers(v.conns, c) == Subscribers(w.conns, c);
    forall u ensures Holders(v.conns, c, u) == Holders(w.conns, c, u) {
      assert forall t :: t in w.conns ==> (t in Holders(v.conns, c, u) <==> t in Holders(w.conns, c, u));
    }
  }

  lemma {:induction false} UnsubscribeAllMail(w: World, s: SocketId, order: seq<Channel>, t: SocketId)
    requires WellFormed(w) && s in w.conns && t in w.conns && t != s && Distinct(order)
    ensures var v := UnsubscribeAll(w, s, order);
            t in v.conns && Sent(w.conns[t], Farewells(w, s, order, t), v.conns[t])
    decreases |order|
  {
    if order == [] {
      SentNothing(w.conns[t]);
    } else {
      var rest, c := order[..|order| - 1], order[|order| - 1];
      UnsubscribeAllMail(w, s, rest, t);
      assert c !in rest;
      OneMoreFarewell(w, s, rest, c, t);
      hide Sent, Unsubscribe, WellFormed, TakesUserAlong, Subscribers;
      var y := if TakesUserAlong(w, s, c) && c in w.conns[t].channels
        then [MemberRemoved(c, w.conns[s].presence[c].user)] else [];
      var v := UnsubscribeAll(w, s, rest);
      SentThen(w.conns[t], Farewells(w, s, rest, t), v.conns[t], y, Unsubscribe(v, s, c).conns[t]);
    }
  }

  lemma {:induction false} UnsubscribeAllHooks(w: World, s: SocketId, order: seq<Channel>)
    requires WellFormed(w) && s in w.conns && Distinct(order)
    ensures UnsubscribeAll(w, s, order).hooks == w.hooks + Partings(w, s, order)
    decreases |order|
  {
    assert w.hooks + [] == w.hooks;
    if order != [] {
      var rest, c := order[..|order| - 1], order[|order| - 1];
      UnsubscribeAllHooks(w, s, rest);
      assert c !in rest;
      OneMoreFarewell(w, s, rest, c, s);
      hide Unsubscribe, WellFormed, TakesUserAlong, Subscribers;
    }
  }

  lemma OneMoreFarewell(w: World, s: SocketId, rest: seq<Channel>, c: Channel, t: SocketId)
    requires WellFormed(w) && s in w.conns && t in w.conns && c !in rest
    ensures var v := UnsubscribeAll(w, s, rest);
            && t in v.conns && t in Unsubscribe(v, s, c).conns
            && (t != s ==>
                  Sent(v.conns[t], if TakesUserAlong(w, s, c) && c in w.conns[t].channels
                                   then [MemberRemoved(c, w.conns[s].presence[c].user)] else [],
                       Unsubscribe(v, s, c).conns[t]))
            && Unsubscribe(v, s, c).hooks == v.hooks
                 + (if TakesUserAlong(w, s, c) then [UserLeft(c, w.conns[s].presence[c].user)] else [])
                 + (if Subscribers(w.conns, c) == {s} then [ChannelVacated(c)] else [])
  {
    UnsubscribeAllLightens(w, s, rest);
    UntouchedSoFar(w, s, rest, c);
    hide Sent, Unsubscribe, UnsubscribeAll, WellFormed, Subscribers, Holders;
    UnsubscribingMail(UnsubscribeAll(w, s, rest), s, c, t);
  }

  /** Everybody else hears farewell of the users the socket takes along, channel by channel,
      and the socket's id is not used again. */
  lemma ClosingMail(w: World, s: SocketId, order: seq<Channel>, t: SocketId)
    requires WellFormed(w) && Possible(w, Closing(s, order)) && t in w.conns
    ensures var w' := Close(w, s, order);
            && w'.conns.Keys == w.conns.Keys - {s} && w'.retired == w.retired + {s}
            && w'.hooks == w.hooks + Partings(w, s, order)
            && (t != s ==> Unmoved(w.conns[t], w'.conns[t]) && Sent(w.conns[t], Farewells(w, s, order, t), w'.conns[t]))
  {
    UnsubscribeAllHooks(w, s, order);
    if t != s {
      UnsubscribeAllMail(w, s, order, t);
    }
    UnsubscribeAllLightens(w, s, order);
    hide UnsubscribeAll, Sent, Farewells, Partings, WellFormed;
  }

  // -- the other events ----------------------------------------------------------------------------------

  /** A newcomer holds nothing and has been sent nothing; nobody else notices. */
  lemma ConnectingMail(w: World, s: SocketId, limit: int)
    requires Possible(w, Connecting(s, limit))
    ensures var w', admitted := Connect(w, s, limit), limit < 0 || |w.conns| < limit;
            && w'.conns.Keys == w.conns.Keys + (if admitted then {s} else {})
            && (forall t :: t in w.conns ==> w'.conns[t] == w.conns[t])
            && w'.roster == w.roster && w'.hooks == w.hooks && w'.retired == w.retired
            && (admitted ==> IsNew(w'.conns[s]))
  {
    hide IsNew;
    NewIsNew();
  }

  ghost predicate IsNew(c: Conn) {
    && c.channels == {} && c.presence == map[] && c.user == None && c.identities == {} && !c.forceClose
    && c.queue == [] && c.log == [] && c.read == []
  }

  lemma NewIsNew()
    ensures IsNew(FRESH)
  {
  }

  /** Signing in is answered, and replaces the user; nobody else hears of it. */
  lemma SigningInMail(w: World, s: SocketId, who: Option<UserId>)
    requires s in w.conns
    ensures var w', conn := SignIn(w, s, who), w.conns[s];
            && w'.conns.Keys == w.conns.Keys && (forall t :: t in w.conns && t != s ==> w'.conns[t] == w.conns[t])
            && w'.roster == w.roster && w'.hooks == w.hooks && w'.retired == w.retired
            && w'.conns[s].channels == conn.channels && w'.conns[s].presence == conn.presence
            && (who == None ==>
                  Sent(conn, [Error(SigninRefused)], w'.conns[s]) && w'.conns[s].user == conn.user
                  && w'.conns[s].identities == conn.identities)
            && (who.Some? ==>
                  Sent(conn, [SigninSuccess(who.value)], w'.conns[s]) && w'.conns[s].user == who
                  && w'.conns[s].identities == conn.identities + {who.value})
  {
    SentOne(w.conns[s], Error(SigninRefused));
    if who.Some? {
      SentOne(Identified(w.conns[s], who.value), SigninSuccess(who.value));
    }
    hide Enqueue;
  }

  /** Every subscriber but the excepted socket gets the event, once, and nobody else. */
  lemma PublishingMail(w: World, c: Channel, name: string, data: string, except: Option<SocketId>, t: SocketId)
    requires t in w.conns
    ensures var w' := Announce(w, c, Event(c, name, data), except);
            && w'.conns.Keys == w.conns.Keys && w'.roster == w.roster && w'.hooks == w.hooks && w'.retired == w.retired
            && Unmoved(w.conns[t], w'.conns[t])
            && Sent(w.conns[t], if c in w.conns[t].channels && Some(t) != except then [Event(c, name, data)] else [],
                    w'.conns[t])
  {
    SentNothing(w.conns[t]);
    SentOne(w.conns[t], Event(c, name, data));
    hide Enqueue, Sent;
  }

  /** Whoever has ever signed in as the user is told, if there is room, and is flagged. */
  lemma TerminatingMail(w: World, u: UserId, t: SocketId)
    requires t in w.conns
    ensures var w', conn := Terminate(w, u), w.conns[t];
            && w'.conns.Keys == w.conns.Keys && w'.roster == w.roster && w'.hooks == w.hooks && w'.retired == w.retired
            && Unmoved(conn, w'.conns[t])
            && (u !in conn.identities ==> w'.conns[t] == conn)
            && (u in conn.identities ==>
                  w'.conns[t].forceClose && exists told ::
                    Sent(conn, [Error(Reason.Terminated)], told) && w'.conns[t] == told.(forceClose := true))
  {
    SentOne(w.conns[t], Error(Reason.Terminated));
    hide Sent;
    if u in w.conns[t].identities {
      assert Terminate(w, u).conns[t] == Enqueue(w.conns[t], Error(Reason.Terminated)).(forceClose := true);
    }
  }

  /** The client reads its oldest message, if there is one; nothing else changes. */
  lemma DeliveringMail(w: World, s: SocketId)
    requires s in w.conns
    ensures var w', conn := Deliver(w, s), w.conns[s];
            && w'.conns.Keys == w.conns.Keys && (forall t :: t in w.conns && t != s ==> w'.conns[t] == w.conns[t])
            && w'.roster == w.roster && w'.hooks == w.hooks && w'.retired == w.retired
            && Unmoved(conn, w'.conns[s]) && w'.conns[s].log == conn.log && w'.conns[s].forceClose == conn.forceClose
            && (conn.queue == [] ==> w'.conns[s] == conn)
            && (conn.queue != [] ==>
                  conn.queue == [conn.queue[0]] + w'.conns[s].queue && w'.conns[s].read == conn.read + [conn.queue[0]])
  {
  }

  // -- over whole runs -----------------------------------------------------------------------------------

  /** What a client has read and what is still queued for it are, in this order, all it
      was sent, and no more than 512 messages are queued. */
  ghost predicate Conserved(conn: Conn) { conn.read + conn.queue == conn.log && |conn.queue| <= 512 }

  lemma SentKeepsConserved(c: Conn, ms: seq<Message>, c': Conn)
    requires Conserved(c) && Sent(c, ms, c')
    ensures Conserved(c')
  {
    var got := if |ms| <= 512 - |c.queue| then ms else ms[..512 - |c.queue|];
    assert c.read + (c.queue + got) == c.read + c.queue + got;
  }

  lemma SubscribingSends(w: World, s: SocketId, request: SubscribeRequest, max: nat, t: SocketId)
    returns (ms: seq<Message>)
    requires s in w.conns && t in w.conns
    ensures t in Subscribe(w, s, request, max).conns && Sent(w.conns[t], ms, Subscribe(w, s, request, max).conns[t])
  {
    hide Sent, Subscribe, IsCache, IsPresence, IsPrivate, Fits;
    if t != s {
      SubscribingTellsOthers(w, s, request, max, t);
      ms := if BringsUser(w, s, request, max) && request.channel in w.conns[t].channels
        then [MemberAdded(request.channel, request.claim.user, request.claim.info)] else [];
    } else {
      ms := OwnSends(w, s, request, max);
    }
  }

  /** Nothing about members coming or going. */
  ghost predicate Quiet(ms: seq<Message>) {
    forall i :: 0 <= i < |ms| ==> !ms[i].MemberAdded? && !ms[i].MemberRemoved?
  }

  lemma OwnSends(w: World, s: SocketId, request: SubscribeRequest, max: nat) returns (ms: seq<Message>)
    requires s in w.conns
    ensures Quiet(ms)
    ensures s in Subscribe(w, s, request, max).conns && Sent(w.conns[s], ms, Subscribe(w, s, request, max).conns[s])
  {
    hide Sent, JoinPlain, JoinPresence, ReplayCache, Tell, RosterAt;
    SentNothing(w.conns[s]);
    if request == Malformed {
      ms := [Error(InvalidRequest)];
      RefusedMail(w, s, Error(InvalidRequest));
    } else if request.channel in w.conns[s].channels {
      ms := [];
    } else if Passes(request.channel, request.auth, request.claim) && Fits(w, request.channel, request.claim, max) {
      GrantedMail(w, s, request.channel, request.auth, request.claim, request.cached, max);
      hide Subscribe;
      ms :| Quiet(ms) && Sent(w.conns[s], ms, Subscribe(w, s, request, max).conns[s]);
    } else {
      var m := RefusedIsTold(w, s, request.channel, request.auth, request.claim, request.cached, max);
      RefusedMail(w, s, m);
      ms := [m];
    }
  }

  lemma UnsubscribingSends(w: World, s: SocketId, c: Channel, t: SocketId) returns (ms: seq<Message>)
    requires WellFormed(w) && s in w.conns && t in w.conns
    ensures t in Unsubscribe(w, s, c).conns && Sent(w.conns[t], ms, Unsubscribe(w, s, c).conns[t])
  {
    UnsubscribingMail(w, s, c, t);
    SentNothing(w.conns[s]);
    hide Unsubscribe, WellFormed;
    ms := if t != s && TakesUserAlong(w, s, c) && c in w.conns[t].channels
      then [MemberRemoved(c, w.conns[s].presence[c].user)] else [];
  }

  /** The messages an event sends a socket that is there before and after. */
  lemma SomethingSent(w: World, step: Step, max: nat, t: SocketId) returns (ms: seq<Message>)
    requires WellFormed(w) && Possible(w, step) && t in w.conns && t in Next(w, step, max).conns
    requires !step.Delivering? && !step.Terminating?
    ensures Sent(w.conns[t], ms, Next(w, step, max).conns[t])
  {
    hide Sent, WellFormed, Subscribe, Unsubscribe, Close, SignIn, Announce, Connect, Terminate, Deliver;
    SentNothing(w.conns[t]);
    match step
    case Connecting(s, limit) =>
      ConnectingMail(w, s, limit);
      ms := [];
    case Subscribing(s, request) => ms := SubscribingSends(w, s, request, max, t);
    case Unsubscribing(s, c) => ms := UnsubscribingSends(w, s, c, t);
    case SigningIn(s, who) =>
      SigningInMail(w, s, who);
      ms := if t != s then [] else if who.Some? then [SigninSuccess(who.value)] else [Error(SigninRefused)];
    case Publishing(c, name, data, except) =>
      PublishingMail(w, c, name, data, except, t);
      ms := if c in w.conns[t].channels && Some(t) != except then [Event(c, name, data)] else [];
    case Closing(s, order) =>
      ClosingMail(w, s, order, t);
      ms := Farewells(w, s, order, t);
  }

  lemma NextKeepsConserved(w: World, step: Step, max: nat, t: SocketId)
    requires WellFormed(w) && Possible(w, step) && t in Next(w, step, max).conns
    requires t in w.conns ==> Conserved(w.conns[t])
    ensures Conserved(Next(w, step, max).conns[t])
  {
    if t !in w.conns {
      OnlyNewcomers(w, step, max);
      ConnectingMail(w, t, step.limit);
    } else if step.Delivering? {
      DeliveringMail(w, step.s);
      Redistributed(w.conns[t], Next(w, step, max).conns[t]);
    } else if step.Terminating? {
      TerminatingMail(w, step.user, t);
      if step.user in w.conns[t].identities {
        var told :| Sent(w.conns[t], [Error(Reason.Terminated)], told)
          && Next(w, step, max).conns[t] == told.(forceClose := true);
        SentKeepsConserved(w.conns[t], [Error(Reason.Terminated)], told);
      }
    } else {
      var ms := SomethingSent(w, step, max, t);
      SentKeepsConserved(w.conns[t], ms, Next(w, step, max).conns[t]);
    }
  }

  lemma OnlyNewcomers(w: World, step: Step, max: nat)
    requires Possible(w, step)
    ensures forall t :: t in Next(w, step, max).conns && t !in w.conns ==> step.Connecting? && step.s == t
  {
    match step
    case Connecting(s, limit) => ConnectingMail(w, s, limit);
    case Subscribing(s, request) => SubscribeUsesNoOtherId(w, s, request, max);
    case Unsubscribing(s, c) => UnsubscribeUsesNoOtherId(w, s, c);
    case Closing(s, order) => UnsubscribeAllKeepsRetired(w, s, order);
    case _ => MailStepIsMail(w, step, max);
  }

  lemma Redistributed(c: Conn, c': Conn)
    requires Conserved(c) && c'.log == c.log
    requires c' == c || (c.queue != [] && c.queue == [c.queue[0]] + c'.queue && c'.read == c.read + [c.queue[0]])
    ensures Conserved(c')
  {
    if c' != c {
      assert c.read + ([c.queue[0]] + c'.queue) == c.read + [c.queue[0]] + c'.queue;
      assert |c.queue| == 1 + |c'.queue|;
    }
  }

  /** Over every run: what each client has read and what is queued for it are, in order,
      exactly what it was sent, with at most 512 messages queued. */
  lemma {:induction false} ReadThenQueued(trace: seq<Step>, max: nat, t: SocketId)
    requires Run(trace, max).Some? && t in Run(trace, max).value.conns
    ensures var conn := Run(trace, max).value.conns[t];
            conn.read + conn.queue == conn.log && |conn.queue| <= 512
    ensures Conserved(Run(trace, max).value.conns[t])
    decreases |trace|
  {
    if trace != [] {
      var before := Run(trace[..|trace| - 1], max).value;
      RunIsWellFormed(trace[..|trace| - 1], max);
      if t in before.conns {
        ReadThenQueued(trace[..|trace| - 1], max, t);
      }
      NextKeepsConserved(before, trace[|trace| - 1], max, t);
    }
  }
}
