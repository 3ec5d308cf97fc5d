/** What the server announces about a channel: occupied and vacated, joined and left,
    strictly in turn; who is listed with which info; and how many at most. */
module Announcements {
  import opened Protocol
  import opened Connection
  import opened Subscriptions
  import opened Alternation

  ghost predicate TracksChannel(w: World, c: Channel) {
    Toggle(w.hooks, ChannelOccupied(c), ChannelVacated(c)) == Some(Subscribers(w.conns, c) != {})
  }

  ghost predicate TracksUser(w: World, c: Channel, u: UserId) {
    Toggle(w.hooks, UserJoined(c, u), UserLeft(c, u)) == Some(u in RosterAt(w, c))
  }

  ghost predicate Tracks(w: World, c: Channel, u: UserId) { TracksChannel(w, c) && TracksUser(w, c, u) }

  lemma MailKeepsTracks(w: World, w': World, c: Channel, u: UserId)
    requires Tracks(w, c, u) && OnlyMail(w, w') && w'.hooks == w.hooks
    ensures Tracks(w', c, u)
  {
    SameSeatsSameSets(w.conns, w'.conns);
    assert RosterAt(w', c) == RosterAt(w, c);
  }

  lemma JoinPlainKeepsTracks(w: World, s: SocketId, c: Channel, d: Channel, v: UserId)
    requires Tracks(w, d, v) && s in w.conns
    ensures Tracks(JoinPlain(w, s, c), d, v)
  {
    JoinPlainSeats(w, s, c, d, v);
    ToggleOne(w.hooks, ChannelOccupied(c), ChannelOccupied(d), ChannelVacated(d));
    ToggleOne(w.hooks, ChannelOccupied(c), UserJoined(d, v), UserLeft(d, v));
    assert w.hooks + [] == w.hooks;
  }

  lemma JoinPresenceKeepsTracks(w: World, s: SocketId, c: Channel, u: UserId, info: Info, d: Channel, v: UserId)
    requires Tracks(w, d, v) && s in w.conns && c !in w.conns[s].presence
    ensures Tracks(JoinPresence(w, s, c, u, info), d, v)
  {
    JoinPresenceSeats(w, s, c, u, info, d, v);
    var between := w.hooks + (if Subscribers(w.conns, c) == {} then [ChannelOccupied(c)] else []);
    assert w.hooks + [] == w.hooks && between + [] == between;
    ToggleOne(w.hooks, ChannelOccupied(c), ChannelOccupied(d), ChannelVacated(d));
    ToggleOne(w.hooks, ChannelOccupied(c), UserJoined(d, v), UserLeft(d, v));
    ToggleOne(between, UserJoined(c, u), ChannelOccupied(d), ChannelVacated(d));
    ToggleOne(between, UserJoined(c, u), UserJoined(d, v), UserLeft(d, v));
  }

  lemma ReplayKeepsTracks(w: World, s: SocketId, c: Channel, cached: Cached, d: Channel, v: UserId)
    requires Tracks(w, d, v) && s in w.conns
    ensures Tracks(ReplayCache(w, s, c, cached), d, v)
  {
    var w' := ReplayCache(w, s, c, cached);
    ReplayCacheIsMail(w, s, c, cached);
    ToggleOne(w.hooks, CacheMissed(c), ChannelOccupied(d), ChannelVacated(d));
    ToggleOne(w.hooks, CacheMissed(c), UserJoined(d, v), UserLeft(d, v));
    MailKeepsTracks(w, w'.(hooks := w.hooks), d, v);
    assert RosterAt(w', d) == RosterAt(w, d);
  }

  lemma NotHeldNotThere(w: World, s: SocketId, c: Channel)
    requires KindsMatch(w.conns) && s in w.conns && c !in w.conns[s].channels
    ensures c !in w.conns[s].presence
  {
    assert PresenceMatchesKind(w.conns[s]);
  }

  lemma SubscribeKeepsTracks(w: World, s: SocketId, request: SubscribeRequest, max: nat, d: Channel, v: UserId)
    requires KindsMatch(w.conns) && Tracks(w, d, v) && s in w.conns
    ensures Tracks(Subscribe(w, s, request, max), d, v)
  {
    SubscribeOutcome(w, s, request, max);
    hide Subscribe, JoinPlain, JoinPresence, ReplayCache, Tracks, OnlyMail, RosterAt, KindsMatch, IsPresence;
    var granted := Granted(w, s, request, max);
    if granted.Some? {
      if IsPresence(request.channel) {
        NotHeldNotThere(w, s, request.channel);
        JoinPresenceKeepsTracks(w, s, request.channel, request.claim.user, request.claim.info, d, v);
      } else {
        JoinPlainKeepsTracks(w, s, request.channel, d, v);
      }
      hide Granted;
      ReplayKeepsTracks(granted.value, s, request.channel, request.cached, d, v);
    } else {
      hide Granted;
      MailKeepsTracks(w, Subscribe(w, s, request, max), d, v);
    }
  }

  lemma LeavePresenceKeepsTracks(w: World, s: SocketId, c: Channel, d: Channel, v: UserId)
    requires Tracks(w, d, v) && RosterMatches(w) && s in w.conns && c in w.conns[s].presence
    ensures Tracks(LeavePresence(w, s, c), d, v)
  {
    var u := w.conns[s].presence[c].user;
    LeavePresenceSeats(w, s, c, d, v);
    LeavePresenceSeats(w, s, c, c, u);
    LeavePresenceMoves(w, s, c);
    SameSeatsSameSets(w.conns[s := w.conns[s].(presence := w.conns[s].presence - {c})], LeavePresence(w, s, c).conns);
    assert s in Holders(w.conns, c, u);
    ToggleOne(w.hooks, UserLeft(c, u), ChannelOccupied(d), ChannelVacated(d));
    ToggleOne(w.hooks, UserLeft(c, u), UserJoined(d, v), UserLeft(d, v));
  }

  lemma LeaveChannelKeepsTracks(w: World, s: SocketId, c: Channel, d: Channel, v: UserId)
    requires Tracks(w, d, v) && s in w.conns && c in w.conns[s].channels
    ensures Tracks(LeaveChannel(w, s, c), d, v)
  {
    LeaveChannelSeats(w, s, c, d, v);
    assert s in Subscribers(w.conns, c);
    ToggleOne(w.hooks, ChannelVacated(c), ChannelOccupied(d), ChannelVacated(d));
    ToggleOne(w.hooks, ChannelVacated(c), UserJoined(d, v), UserLeft(d, v));
    assert w.hooks + [] == w.hooks;
  }

  lemma UnsubscribeKeepsTracks(w: World, s: SocketId, c: Channel, d: Channel, v: UserId)
    requires Tracks(w, d, v) && WellFormed(w) && s in w.conns
    ensures Tracks(Unsubscribe(w, s, c), d, v)
  {
    if c in w.conns[s].channels {
      if IsPresence(c) && c in w.conns[s].presence {
        LeavePresenceKeepsTracks(w, s, c, d, v);
        LeavePresenceMoves(w, s, c);
        LeaveChannelKeepsTracks(LeavePresence(w, s, c), s, c, d, v);
      } else {
        LeaveChannelKeepsTracks(w, s, c, d, v);
      }
    }
  }

  lemma {:induction false} UnsubscribeAllKeepsTracks(w: World, s: SocketId, order: seq<Channel>, d: Channel, v: UserId)
    requires Tracks(w, d, v) && WellFormed(w) && s in w.conns
    ensures Tracks(UnsubscribeAll(w, s, order), d, v)
    decreases |order|
  {
    if order != [] {
      var rest := order[..|order| - 1];
      UnsubscribeAllKeepsTracks(w, s, rest, d, v);
      UnsubscribeAllKeepsWellFormed(w, s, rest);
      UnsubscribeKeepsTracks(UnsubscribeAll(w, s, rest), s, order[|order| - 1], d, v);
    }
  }

  lemma CloseKeepsTracks(w: World, s: SocketId, order: seq<Channel>, d: Channel, v: UserId)
    requires Tracks(w, d, v) && WellFormed(w) && Possible(w, Closing(s, order))
    ensures Tracks(Close(w, s, order), d, v)
  {
    UnsubscribeAllKeepsTracks(w, s, order, d, v);
    CloseKeepsWellFormed(w, s, order);
    assert RosterAt(Close(w, s, order), d) == RosterAt(UnsubscribeAll(w, s, order), d);
  }

  lemma ConnectKeepsTracks(w: World, s: SocketId, limit: int, d: Channel, v: UserId)
    requires Tracks(w, d, v) && s !in w.conns
    ensures Tracks(Connect(w, s, limit), d, v)
  {
  }

  lemma NextKeepsTracks(w: World, step: Step, max: nat, d: Channel, v: UserId)
    requires Tracks(w, d, v) && WellFormed(w) && Possible(w, step)
    ensures Tracks(Next(w, step, max), d, v)
  {
    match step
    case Connecting(s, limit) => ConnectKeepsTracks(w, s, limit, d, v);
    case Subscribing(s, request) => SubscribeKeepsTracks(w, s, request, max, d, v);
    case Unsubscribing(s, c) => UnsubscribeKeepsTracks(w, s, c, d, v);
    case Closing(s, order) => CloseKeepsTracks(w, s, order, d, v);
    case _ => MailStepIsMail(w, step, max); MailKeepsTracks(w, Next(w, step, max), d, v);
  }

  /** On every run, occupied and vacated strictly alternate for every channel and the
      last one says whether it has a subscriber; joined and left strictly alternate
      for every user of every channel and the last one says whether it is listed. */
  lemma {:induction false} AnnouncementsAlternate(trace: seq<Step>, max: nat, c: Channel, u: UserId)
    requires Run(trace, max).Some?
    ensures var w := Run(trace, max).value;
            && Toggle(w.hooks, ChannelOccupied(c), ChannelVacated(c)) == Some(Subscribers(w.conns, c) != {})
            && Toggle(w.hooks, UserJoined(c, u), UserLeft(c, u)) == Some(Holders(w.conns, c, u) != {})
    ensures Tracks(Run(trace, max).value, c, u)
    decreases |trace|
  {
    if trace != [] {
      var rest := trace[..|trace| - 1];
      AnnouncementsAlternate(rest, max, c, u);
      RunIsWellFormed(rest, max);
      NextKeepsTracks(Run(rest, max).value, trace[|trace| - 1], max, c, u);
    }
    RunIsWellFormed(trace, max);
    assert u in RosterAt(Run(trace, max).value, c) <==> Holders(Run(trace, max).value.conns, c, u) != {};
  }

  // -- how many, and with which info -----------------------------------------------------

  /** Rosters only lose users, or keep them with the info they have. */
  ghost predicate Shrinks(w: World, w': World) {
    forall c, u :: u in RosterAt(w', c) ==> u in RosterAt(w, c) && RosterAt(w', c)[u] == RosterAt(w, c)[u]
  }

  lemma ShrinkingIsSmaller(w: World, w': World, c: Channel)
    requires Shrinks(w, w')
    ensures |RosterAt(w', c)| <= |RosterAt(w, c)|
  {
    assert forall u :: u in RosterAt(w', c) ==> u in RosterAt(w, c);
    assert RosterAt(w', c).Keys <= RosterAt(w, c).Keys;
    SmallerSet(RosterAt(w', c).Keys, RosterAt(w, c).Keys);
    assert |RosterAt(w', c)| == |RosterAt(w', c).Keys| && |RosterAt(w, c)| == |RosterAt(w, c).Keys|;
  }

  lemma SmallerSet<T>(a: set<T>, b: set<T>)
    requires a <= b
    ensures |a| <= |b|
  {
    assert |b| == |a| + |b - a| by { assert b == a + (b - a); }
  }

  lemma UnsubscribeShrinks(w: World, s: SocketId, c: Channel)
    requires s in w.conns
    ensures Shrinks(w, Unsubscribe(w, s, c))
  {
  }

  lemma {:induction false} UnsubscribeAllShrinks(w: World, s: SocketId, order: seq<Channel>)
    requires s in w.conns
    ensures Shrinks(w, UnsubscribeAll(w, s, order))
    decreases |order|
  {
    if order != [] {
      var rest := UnsubscribeAll(w, s, order[..|order| - 1]);
      UnsubscribeAllShrinks(w, s, order[..|order| - 1]);
      UnsubscribeShrinks(rest, s, order[|order| - 1]);
      forall c, u | u in RosterAt(UnsubscribeAll(w, s, order), c)
        ensures u in RosterAt(w, c) && RosterAt(UnsubscribeAll(w, s, order), c)[u] == RosterAt(w, c)[u]
      {
        assert u in RosterAt(rest, c);
      }
    }
  }

  lemma JoinPresenceLists(w: World, s: SocketId, c: Channel, u: UserId, info: Info, d: Channel)
    requires s in w.conns
    ensures RosterAt(JoinPresence(w, s, c, u, info), d)
         == if d == c && u !in RosterAt(w, c) then RosterAt(w, c)[u := info] else RosterAt(w, d)
  {
  }

  /** The only way onto a roster is a granted presence subscription. */
  lemma {:induction false} SubscribeListsClaim(w: World, s: SocketId, request: SubscribeRequest, max: nat, c: Channel)
    requires s in w.conns
    ensures var roster' := RosterAt(Subscribe(w, s, request, max), c);
            roster' == RosterAt(w, c) || (
              && request.Join? && request.channel == c && request.claim.Member?
              && request.claim.user !in RosterAt(w, c)
              && roster' == RosterAt(w, c)[request.claim.user := request.claim.info]
              && |roster'| <= max)
  {
    hide Subscribe, ReplayCache, JoinPresence;
    SubscribeOutcome(w, s, request, max);
    var granted := Granted(w, s, request, max);
    if granted.Some? {
      ReplayCacheIsMail(granted.value, s, request.channel, request.cached);
      assert RosterAt(Subscribe(w, s, request, max), c) == RosterAt(granted.value, c);
      if IsPresence(request.channel) {
        JoinPresenceLists(w, s, request.channel, request.claim.user, request.claim.info, c);
      }
    } else {
      assert RosterAt(Subscribe(w, s, request, max), c) == RosterAt(w, c);
    }
  }

  /** A user's info is that of the request that brought it in, for as long as the
      user stays; later sockets of the same user change nothing. */
  lemma {:induction false} FirstInfoWins(w: World, step: Step, max: nat, c: Channel, u: UserId)
    requires Possible(w, step) && u in RosterAt(Next(w, step, max), c)
    ensures u in RosterAt(w, c) ==> RosterAt(Next(w, step, max), c)[u] == RosterAt(w, c)[u]
    ensures u !in RosterAt(w, c) ==>
              && step.Subscribing? && step.request.Join? && step.request.channel == c
              && step.request.claim == Member(u, RosterAt(Next(w, step, max), c)[u])
    ensures |RosterAt(Next(w, step, max), c)| <= |RosterAt(w, c)| || |RosterAt(Next(w, step, max), c)| <= max
  {
    var w' := Next(w, step, max);
    match step
    case Subscribing(s, request) => SubscribeListsClaim(w, s, request, max, c);
    case Unsubscribing(s, d) => UnsubscribeShrinks(w, s, d); ShrinkingIsSmaller(w, w', c);
    case Closing(s, order) =>
      UnsubscribeAllShrinks(w, s, order);
      ShrinkingIsSmaller(w, UnsubscribeAll(w, s, order), c);
      assert RosterAt(w', c) == RosterAt(UnsubscribeAll(w, s, order), c);
    case _ => assert RosterAt(w', c) == RosterAt(w, c);
  }

  /** On one node the member limit is never exceeded. */
  lemma {:induction false} MembersWithinLimit(trace: seq<Step>, max: nat, c: Channel)
    requires Run(trace, max).Some?
    ensures |RosterAt(Run(trace, max).value, c)| <= max
    decreases |trace|
  {
    if trace != [] {
      MembersWithinLimit(trace[..|trace| - 1], max, c);
      var w := Run(trace, max).value;
      if RosterAt(w, c) != map[] {
        var u :| u in RosterAt(w, c);
        FirstInfoWins(Run(trace[..|trace| - 1], max).value, trace[|trace| - 1], max, c, u);
      }
    }
  }
}
