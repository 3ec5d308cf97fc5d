/** Every presence client rebuilds the member list of a channel from the messages it
    is sent: a snapshot, then additions and removals. The copy is always right. */
module Replicas {
  import opened Protocol
  import opened Connection
  import opened Subscriptions

  /** What one message does to a client's copy of `c`. */
  ghost function Apply(copy: Option<map<UserId, Info>>, m: Message, c: Channel): Option<map<UserId, Info>> {
    match m
    case PresenceSnapshot(c', members) => if c' == c then Some(members) else copy
    case MemberAdded(c', u, info) => if c' == c && copy.Some? then Some(copy.value[u := info]) else copy
    case MemberRemoved(c', u) => if c' == c && copy.Some? then Some(copy.value - {u}) else copy
    case _ => copy
  }

  ghost function Replica(log: seq<Message>, c: Channel): Option<map<UserId, Info>>
    decreases |log|
  {
    if log == [] then None else Apply(Replica(log[..|log| - 1], c), log[|log| - 1], c)
  }

  /** A connection flagged for closing has missed something and is exempt. */
  ghost predicate InSync(conn: Conn, c: Channel, members: map<UserId, Info>) {
    conn.forceClose || Replica(conn.log, c) == Some(members)
  }

  ghost predicate Converged(w: World) {
    forall s, c :: s in w.conns && c in w.conns[s].presence ==> InSync(w.conns[s], c, RosterAt(w, c))
  }

  lemma EnqueueApplies(conn: Conn, m: Message, c: Channel)
    ensures !Enqueue(conn, m).forceClose ==>
      !conn.forceClose && Replica(Enqueue(conn, m).log, c) == Apply(Replica(conn.log, c), m, c)
  {
    assert (conn.log + [m])[..|conn.log + [m]| - 1] == conn.log;
  }

  /** Mail that says nothing about `c`. */
  ghost predicate Silent(m: Message, c: Channel) {
    (m.PresenceSnapshot? || m.MemberAdded? || m.MemberRemoved?) ==> m.channel != c
  }

  lemma SilentKeepsSync(conn: Conn, m: Message, c: Channel, members: map<UserId, Info>)
    requires Silent(m, c) && InSync(conn, c, members)
    ensures InSync(Enqueue(conn, m), c, members)
  {
    EnqueueApplies(conn, m, c);
  }

  lemma AdditionKeepsSync(conn: Conn, c: Channel, members: map<UserId, Info>, u: UserId, info: Info)
    requires InSync(conn, c, members)
    ensures InSync(Enqueue(conn, MemberAdded(c, u, info)), c, members[u := info])
  {
    EnqueueApplies(conn, MemberAdded(c, u, info), c);
  }

  lemma RemovalKeepsSync(conn: Conn, c: Channel, members: map<UserId, Info>, u: UserId)
    requires InSync(conn, c, members)
    ensures InSync(Enqueue(conn, MemberRemoved(c, u)), c, members - {u})
  {
    EnqueueApplies(conn, MemberRemoved(c, u), c);
  }

  lemma SnapshotSyncs(conn: Conn, c: Channel, members: map<UserId, Info>)
    ensures InSync(Enqueue(conn, PresenceSnapshot(c, members)), c, members)
  {
    EnqueueApplies(conn, PresenceSnapshot(c, members), c);
  }

  // -- step by step ----------------------------------------------------------------

  lemma TellKeepsConverged(w: World, s: SocketId, m: Message)
    requires Converged(w) && s in w.conns && forall c :: Silent(m, c)
    ensures Converged(Tell(w, s, m))
  {
    var w' := Tell(w, s, m);
    forall t, c | t in w'.conns && c in w'.conns[t].presence ensures InSync(w'.conns[t], c, RosterAt(w', c)) {
      assert InSync(w.conns[t], c, RosterAt(w, c));
      if t == s { SilentKeepsSync(w.conns[s], m, c, RosterAt(w, c)); }
    }
  }

  /** Announcements do not matter to replicas. */
  lemma SameRosterKeepsConverged(w: World, w': World)
    requires Converged(w) && w'.conns == w.conns && w'.roster == w.roster
    ensures Converged(w')
  {
    forall t, d | t in w'.conns && d in w'.conns[t].presence ensures InSync(w'.conns[t], d, RosterAt(w', d)) {
      assert InSync(w.conns[t], d, RosterAt(w, d));
    }
  }

  lemma JoinPlainKeepsConverged(w: World, s: SocketId, c: Channel)
    requires Converged(w) && s in w.conns
    ensures Converged(JoinPlain(w, s, c))
  {
    var joined := Hold(w, s, c);
    forall t, d | t in joined.conns && d in joined.conns[t].presence
      ensures InSync(joined.conns[t], d, RosterAt(joined, d))
    {
      assert InSync(w.conns[t], d, RosterAt(w, d));
    }
    TellKeepsConverged(joined, s, Subscribed(c));
    SameRosterKeepsConverged(Tell(joined, s, Subscribed(c)), JoinPlain(w, s, c));
  }

  /** The newcomer starts from the snapshot, and keeps its other copies. */
  lemma JoinerSyncs(w: World, s: SocketId, c: Channel, u: UserId, info: Info, d: Channel)
    requires Converged(w) && s in w.conns && d in JoinPresence(w, s, c, u, info).conns[s].presence
    ensures InSync(JoinPresence(w, s, c, u, info).conns[s], d, RosterAt(JoinPresence(w, s, c, u, info), d))
  {
    var w' := JoinPresence(w, s, c, u, info);
    var members := RosterAt(w', c);
    var conn := WithPresence(w.conns[s], c, u, info);
    assert w'.conns[s] == Enqueue(conn, PresenceSnapshot(c, members));
    if d == c {
      SnapshotSyncs(conn, c, members);
    } else {
      assert InSync(w.conns[s], d, RosterAt(w, d));
      SilentKeepsSync(conn, PresenceSnapshot(c, members), d, RosterAt(w, d));
    }
  }

  lemma JoinPresenceSyncs(w: World, s: SocketId, c: Channel, u: UserId, info: Info, t: SocketId, d: Channel)
    requires WellFormed(w) && Converged(w) && s in w.conns && IsPresence(c) && c !in w.conns[s].channels
    requires t in w.conns && d in JoinPresence(w, s, c, u, info).conns[t].presence
    ensures InSync(JoinPresence(w, s, c, u, info).conns[t], d, RosterAt(JoinPresence(w, s, c, u, info), d))
  {
    var w' := JoinPresence(w, s, c, u, info);
    assert Converged(w) && PresenceMatchesKind(w.conns[t]) && PresenceMatchesKind(w.conns[s]);
    hide InSync, Replica;
    if t == s {
      JoinerSyncs(w, s, c, u, info, d);
    } else {
      assert InSync(w.conns[t], d, RosterAt(w, d));
      if d == c {
        AdditionKeepsSync(w.conns[t], c, RosterAt(w, c), u, info);
      } else {
        SilentKeepsSync(w.conns[t], MemberAdded(c, u, info), d, RosterAt(w, d));
      }
    }
  }

  lemma JoinPresenceKeepsConverged(w: World, s: SocketId, c: Channel, u: UserId, info: Info)
    requires WellFormed(w) && Converged(w) && s in w.conns && IsPresence(c) && c !in w.conns[s].channels
    ensures Converged(JoinPresence(w, s, c, u, info))
  {
    var w' := JoinPresence(w, s, c, u, info);
    forall t, d | t in w'.conns && d in w'.conns[t].presence ensures InSync(w'.conns[t], d, RosterAt(w', d)) {
      JoinPresenceSyncs(w, s, c, u, info, t, d);
    }
  }

  lemma SubscribeKeepsConverged(w: World, s: SocketId, request: SubscribeRequest, max: nat)
    requires WellFormed(w) && Converged(w) && s in w.conns
    ensures Converged(Subscribe(w, s, request, max))
  {
    SubscribeOutcome(w, s, request, max);
    var granted := Granted(w, s, request, max);
    if granted.Some? {
      if IsPresence(request.channel) {
        JoinPresenceKeepsConverged(w, s, request.channel, request.claim.user, request.claim.info);
      } else {
        JoinPlainKeepsConverged(w, s, request.channel);
      }
      ReplayKeepsConverged(granted.value, s, request.channel, request.cached);
    } else {
      RefusalKeepsConverged(w, s, request, max);
    }
  }

  lemma ReplayKeepsConverged(w: World, s: SocketId, c: Channel, cached: Cached)
    requires Converged(w) && s in w.conns
    ensures Converged(ReplayCache(w, s, c, cached))
  {
    if IsCache(c) {
      match cached
      case Disabled =>
      case Last(name, data) => TellKeepsConverged(w, s, Event(c, name, data));
      case Nothing =>
        SameRosterKeepsConverged(w, w.(hooks := w.hooks + [CacheMissed(c)]));
        TellKeepsConverged(w.(hooks := w.hooks + [CacheMissed(c)]), s, CacheMiss(c));
    }
  }

  lemma RefusalKeepsConverged(w: World, s: SocketId, request: SubscribeRequest, max: nat)
    requires Converged(w) && s in w.conns && Granted(w, s, request, max) == None
    ensures Converged(Subscribe(w, s, request, max))
  {
    if request == Malformed {
      TellKeepsConverged(w, s, Error(InvalidRequest));
    } else if request.channel !in w.conns[s].channels {
      var refusal := Refusal(request.channel, request.auth, request.claim);
      TellKeepsConverged(w, s, Error(if refusal.Some? then refusal.value else OverMemberLimit));
    }
  }

  lemma LeavePresenceSyncs(w: World, s: SocketId, c: Channel, t: SocketId, d: Channel)
    requires KindsMatch(w.conns) && Converged(w) && s in w.conns && c in w.conns[s].presence
    requires t in w.conns && d in LeavePresence(w, s, c).conns[t].presence
    ensures InSync(LeavePresence(w, s, c).conns[t], d, RosterAt(LeavePresence(w, s, c), d))
  {
    var w', u := LeavePresence(w, s, c), w.conns[s].presence[c].user;
    assert InSync(w.conns[t], d, RosterAt(w, d));
    if t != s {
      assert PresenceMatchesKind(w.conns[t]);
      if d == c {
        RemovalKeepsSync(w.conns[t], c, RosterAt(w, c), u);
      } else {
        SilentKeepsSync(w.conns[t], MemberRemoved(c, u), d, RosterAt(w, d));
      }
    }
  }

  lemma UnsubscribeKeepsConverged(w: World, s: SocketId, c: Channel)
    requires KindsMatch(w.conns) && Converged(w) && s in w.conns
    ensures Converged(Unsubscribe(w, s, c))
  {
    var w' := Unsubscribe(w, s, c);
    forall t, d | t in w'.conns && d in w'.conns[t].presence ensures InSync(w'.conns[t], d, RosterAt(w', d)) {
      if c in w.conns[s].channels && IsPresence(c) && c in w.conns[s].presence {
        LeavePresenceSyncs(w, s, c, t, d);
      } else {
        assert InSync(w.conns[t], d, RosterAt(w, d));
      }
    }
  }

  lemma {:induction false} UnsubscribeAllKeepsConverged(w: World, s: SocketId, order: seq<Channel>)
    requires WellFormed(w) && Converged(w) && s in w.conns
    ensures Converged(UnsubscribeAll(w, s, order))
    decreases |order|
  {
    if order != [] {
      var rest := order[..|order| - 1];
      UnsubscribeAllKeepsConverged(w, s, rest);
      UnsubscribeAllKeepsWellFormed(w, s, rest);
      UnsubscribeKeepsConverged(UnsubscribeAll(w, s, rest), s, order[|order| - 1]);
    }
  }

  lemma CloseKeepsConverged(w: World, s: SocketId, order: seq<Channel>)
    requires WellFormed(w) && Converged(w) && s in w.conns
    ensures Converged(Close(w, s, order))
  {
    var left, w' := UnsubscribeAll(w, s, order), Close(w, s, order);
    UnsubscribeAllKeepsConverged(w, s, order);
    forall t, d | t in w'.conns && d in w'.conns[t].presence ensures InSync(w'.conns[t], d, RosterAt(w', d)) {
      assert InSync(left.conns[t], d, RosterAt(left, d));
    }
  }

  lemma FanOutKeepsConverged(w: World, to: set<SocketId>, m: Message, except: Option<SocketId>)
    requires Converged(w) && forall c :: Silent(m, c)
    ensures Converged(w.(conns := FanOut(w.conns, to, m, except)))
  {
    var w' := w.(conns := FanOut(w.conns, to, m, except));
    forall t, d | t in w'.conns && d in w'.conns[t].presence ensures InSync(w'.conns[t], d, RosterAt(w', d)) {
      assert InSync(w.conns[t], d, RosterAt(w, d));
      SilentKeepsSync(w.conns[t], m, d, RosterAt(w, d));
    }
  }

  lemma SignInKeepsConverged(w: World, s: SocketId, who: Option<UserId>)
    requires Converged(w) && s in w.conns
    ensures Converged(SignIn(w, s, who))
  {
    if who == None {
      TellKeepsConverged(w, s, Error(SigninRefused));
    } else {
      var named := w.(conns := w.conns[s := Identified(w.conns[s], who.value)]);
      forall t, d | t in named.conns && d in named.conns[t].presence
        ensures InSync(named.conns[t], d, RosterAt(named, d))
      {
        assert InSync(w.conns[t], d, RosterAt(w, d));
      }
      TellKeepsConverged(named, s, SigninSuccess(who.value));
      assert SignIn(w, s, who) == Tell(named, s, SigninSuccess(who.value));
    }
  }

  lemma NextKeepsConverged(w: World, step: Step, max: nat)
    requires WellFormed(w) && Converged(w) && Possible(w, step)
    ensures Converged(Next(w, step, max))
  {
    match step
    case Connecting(s, limit) =>
      var w' := Connect(w, s, limit);
      forall t, d | t in w'.conns && d in w'.conns[t].presence ensures InSync(w'.conns[t], d, RosterAt(w', d)) {
        assert InSync(w.conns[t], d, RosterAt(w, d));
      }
    case Subscribing(s, request) => SubscribeKeepsConverged(w, s, request, max);
    case Unsubscribing(s, c) => UnsubscribeKeepsConverged(w, s, c);
    case SigningIn(s, who) => SignInKeepsConverged(w, s, who);
    case Publishing(c, name, data, except) =>
      FanOutKeepsConverged(w, Subscribers(w.conns, c), Event(c, name, data), except);
    case Terminating(u) => SameLogsKeepConverged(w, Terminate(w, u));
    case Delivering(s) => SameLogsKeepConverged(w, Deliver(w, s));
    case Closing(s, order) => CloseKeepsConverged(w, s, order);
  }

  /** Dropping mail from a queue or flagging a connection changes no replica. */
  lemma SameLogsKeepConverged(w: World, w': World)
    requires Converged(w) && w'.roster == w.roster && w'.conns.Keys == w.conns.Keys
    requires forall s :: s in w.conns ==> w'.conns[s].presence == w.conns[s].presence
    requires forall s :: s in w.conns && !w'.conns[s].forceClose ==>
               w'.conns[s].log == w.conns[s].log && !w.conns[s].forceClose
    ensures Converged(w')
  {
    forall t, d | t in w'.conns && d in w'.conns[t].presence ensures InSync(w'.conns[t], d, RosterAt(w', d)) {
      assert InSync(w.conns[t], d, RosterAt(w, d));
    }
  }

  /** In every reachable world, every unflagged client's copy of every presence
      channel it holds is the server's roster: each user some socket joined as, and
      no other, with the info the roster has. */
  lemma {:induction false} ReplicasConverge(trace: seq<Step>, max: nat)
    requires Run(trace, max).Some?
    ensures var w := Run(trace, max).value;
            forall s, c :: s in w.conns && !w.conns[s].forceClose && c in w.conns[s].presence ==>
              && Replica(w.conns[s].log, c) == Some(RosterAt(w, c))
              && (forall u :: u in RosterAt(w, c) <==> Holders(w.conns, c, u) != {})
    ensures Converged(Run(trace, max).value)
    decreases |trace|
  {
    if trace != [] {
      var rest := trace[..|trace| - 1];
      ReplicasConverge(rest, max);
      RunIsWellFormed(rest, max);
      NextKeepsConverged(Run(rest, max).value, trace[|trace| - 1], max);
    }
    RunIsWellFormed(trace, max);
    var w := Run(trace, max).value;
    forall s, c | s in w.conns && !w.conns[s].forceClose && c in w.conns[s].presence
      ensures Replica(w.conns[s].log, c) == Some(RosterAt(w, c))
    {
      assert InSync(w.conns[s], c, RosterAt(w, c));
    }
  }
}
