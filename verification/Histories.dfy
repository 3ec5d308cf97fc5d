/** What holds of every connection because of all that has happened: who comes and goes is
    announced in turn, nothing is held without leave, and flags have a cause. */
module Histories {
  import opened Protocol
  import opened Connection
  import opened Subscriptions
  import opened Mail
  import opened Replicas

  // -- members come and go in turn --------------------------------------------------------------------

  /** Whenever the client hears of a member coming or going, its copy of the list so far
      is there and has not, or has, that member. */
  ghost predicate InTurns(log: seq<Message>, c: Channel) {
    forall i :: 0 <= i < |log| && (log[i].MemberAdded? || log[i].MemberRemoved?) && log[i].channel == c ==>
      && Replica(log[..i], c).Some?
      && (log[i].user in Replica(log[..i], c).value <==> log[i].MemberRemoved?)
  }

  ghost predicate HearsInTurns(conn: Conn, c: Channel) { conn.forceClose || InTurns(conn.log, c) }

  lemma OneMoreInTurns(log: seq<Message>, m: Message, c: Channel)
    requires InTurns(log, c)
    requires (m.MemberAdded? || m.MemberRemoved?) && m.channel == c ==>
               Replica(log, c).Some? && (m.user in Replica(log, c).value <==> m.MemberRemoved?)
    ensures InTurns(log + [m], c)
  {
    assert forall i :: 0 <= i <= |log| ==> (log + [m])[..i] == log[..i];
    assert log[..|log|] == log;
  }

  lemma {:induction false} QuietInTurns(log: seq<Message>, ms: seq<Message>, c: Channel)
    requires InTurns(log, c) && Quiet(ms)
    ensures InTurns(log + ms, c)
    decreases |ms|
  {
    if ms == [] {
      assert log + [] == log;
    } else {
      QuietInTurns(log, ms[..|ms| - 1], c);
      OneMoreInTurns(log + ms[..|ms| - 1], ms[|ms| - 1], c);
      assert log + ms[..|ms| - 1] + [ms[|ms| - 1]] == log + ms;
    }
  }

  lemma QuietMailInTurns(conn: Conn, ms: seq<Message>, conn': Conn, c: Channel)
    requires Sent(conn, ms, conn') && Quiet(ms) && HearsInTurns(conn, c)
    ensures HearsInTurns(conn', c)
  {
    if !conn'.forceClose {
      QuietInTurns(conn.log, ms, c);
    }
  }

  /** News of a member reaches a client whose copy is right. */
  lemma NewsInTurns(conn: Conn, m: Message, conn': Conn, c: Channel, members: map<UserId, Info>)
    requires Sent(conn, [m], conn') && HearsInTurns(conn, c) && (m.MemberAdded? || m.MemberRemoved?)
    requires m.channel == c ==> InSync(conn, c, members) && (m.user in members <==> m.MemberRemoved?)
    ensures HearsInTurns(conn', c)
  {
    if !conn'.forceClose {
      OneMoreInTurns(conn.log, m, c);
    }
  }

  lemma SubscribeInTurns(w: World, s: SocketId, request: SubscribeRequest, max: nat, t: SocketId, c: Channel)
    requires WellFormed(w) && Converged(w) && s in w.conns && t in w.conns && HearsInTurns(w.conns[t], c)
    ensures t in Subscribe(w, s, request, max).conns && HearsInTurns(Subscribe(w, s, request, max).conns[t], c)
  {
    if t == s {
      var ms := OwnSends(w, s, request, max);
      QuietMailInTurns(w.conns[s], ms, Subscribe(w, s, request, max).conns[s], c);
    } else {
      SubscribingTellsOthers(w, s, request, max, t);
      assert PresenceMatchesKind(w.conns[t]);
      hide Subscribe, Sent, HearsInTurns, InSync;
      var conn' := Subscribe(w, s, request, max).conns[t];
      if BringsUser(w, s, request, max) && request.channel in w.conns[t].channels {
        var d := request.channel;
        assert InSync(w.conns[t], d, RosterAt(w, d));
        NewsInTurns(w.conns[t], MemberAdded(d, request.claim.user, request.claim.info), conn', c, RosterAt(w, d));
      } else {
        QuietMailInTurns(w.conns[t], [], conn', c);
      }
    }
  }

  lemma UnsubscribeInTurns(w: World, s: SocketId, d: Channel, t: SocketId, c: Channel)
    requires WellFormed(w) && Converged(w) && s in w.conns && t in w.conns && HearsInTurns(w.conns[t], c)
    ensures t in Unsubscribe(w, s, d).conns && HearsInTurns(Unsubscribe(w, s, d).conns[t], c)
  {
    UnsubscribingMail(w, s, d, t);
    assert PresenceMatchesKind(w.conns[t]) && PresenceMatchesKind(w.conns[s]);
    hide Unsubscribe, Sent, InSync, InTurns;
    var conn' := Unsubscribe(w, s, d).conns[t];
    if t != s {
      if TakesUserAlong(w, s, d) && d in w.conns[t].channels {
        var u := w.conns[s].presence[d].user;
        assert u in RosterAt(w, d) by { assert s in Holders(w.conns, d, u); }
        assert InSync(w.conns[t], d, RosterAt(w, d));
        NewsInTurns(w.conns[t], MemberRemoved(d, u), conn', c, RosterAt(w, d));
      } else {
        QuietMailInTurns(w.conns[t], [], conn', c);
      }
    }
  }

  lemma {:induction false} UnsubscribeAllInTurns(w: World, s: SocketId, order: seq<Channel>, t: SocketId, c: Channel)
    requires WellFormed(w) && Converged(w) && s in w.conns && t in w.conns && HearsInTurns(w.conns[t], c)
    ensures t in UnsubscribeAll(w, s, order).conns && HearsInTurns(UnsubscribeAll(w, s, order).conns[t], c)
    decreases |order|
  {
    if order != [] {
      var rest := order[..|order| - 1];
      UnsubscribeAllInTurns(w, s, rest, t, c);
      UnsubscribeAllKeepsWellFormed(w, s, rest);
      UnsubscribeAllKeepsConverged(w, s, rest);
      UnsubscribeInTurns(UnsubscribeAll(w, s, rest), s, order[|order| - 1], t, c);
    }
  }

  lemma NextInTurns(w: World, step: Step, max: nat, t: SocketId, c: Channel)
    requires WellFormed(w) && Converged(w) && Possible(w, step) && t in Next(w, step, max).conns
    requires t in w.conns ==> HearsInTurns(w.conns[t], c)
    ensures HearsInTurns(Next(w, step, max).conns[t], c)
  {
    if t !in w.conns {
      OnlyNewcomers(w, step, max);
      ConnectingMail(w, t, step.limit);
    } else {
      match step
      case Connecting(s, limit) => ConnectingMail(w, s, limit);
      case Subscribing(s, request) => SubscribeInTurns(w, s, request, max, t, c);
      case Unsubscribing(s, d) => UnsubscribeInTurns(w, s, d, t, c);
      case SigningIn(s, who) =>
        SigningInMail(w, s, who);
        if t == s {
          QuietMailInTurns(w.conns[s], if who.Some? then [SigninSuccess(who.value)] else [Error(SigninRefused)],
                           SignIn(w, s, who).conns[s], c);
        }
      case Publishing(d, name, data, except) =>
        PublishingMail(w, d, name, data, except, t);
        QuietMailInTurns(w.conns[t],
          if d in w.conns[t].channels && Some(t) != except then [Event(d, name, data)] else [],
          Next(w, step, max).conns[t], c);
      case Terminating(u) => TerminatingMail(w, u, t);
      case Delivering(s) => DeliveringMail(w, s);
      case Closing(s, order) => UnsubscribeAllInTurns(w, s, order, t, c);
    }
  }

  /** Over every run, an unflagged client hears that a member has come only while its copy
      of the list lacks it, and that one has gone only while its copy has it: a user's
      further sockets are not announced, and nothing is announced twice. */
  lemma {:induction false} MembersComeAndGoInTurn(trace: seq<Step>, max: nat, t: SocketId, c: Channel)
    requires Run(trace, max).Some? && t in Run(trace, max).value.conns
    requires !Run(trace, max).value.conns[t].forceClose
    ensures var log := Run(trace, max).value.conns[t].log;
            && (forall i :: 0 <= i < |log| && log[i].MemberAdded? && log[i].channel == c ==>
                  Replica(log[..i], c).Some? && log[i].user !in Replica(log[..i], c).value)
            && (forall i :: 0 <= i < |log| && log[i].MemberRemoved? && log[i].channel == c ==>
                  Replica(log[..i], c).Some? && log[i].user in Replica(log[..i], c).value)
  {
    RunInTurns(trace, max, t, c);
  }

  lemma {:induction false} RunInTurns(trace: seq<Step>, max: nat, t: SocketId, c: Channel)
    requires Run(trace, max).Some? && t in Run(trace, max).value.conns
    ensures HearsInTurns(Run(trace, max).value.conns[t], c)
    decreases |trace|
  {
    if trace != [] {
      var rest := trace[..|trace| - 1];
      RunIsWellFormed(rest, max);
      ReplicasConverge(rest, max);
      if t in Run(rest, max).value.conns {
        RunInTurns(rest, max, t, c);
      }
      NextInTurns(Run(rest, max).value, trace[|trace| - 1], max, t, c);
    }
  }

  // -- nothing is held without leave --------------------------------------------------------------------

  ghost predicate Asks(step: Step, t: SocketId, c: Channel) {
    step.Subscribing? && step.s == t && step.request.Join? && step.request.channel == c
  }

  function Record(conn: Conn, c: Channel): Option<Identity> {
    if c in conn.presence then Some(conn.presence[c]) else None
  }

  /** What a step does to a socket's hold on a channel. */
  lemma HoldMoves(w: World, step: Step, max: nat, t: SocketId, c: Channel)
    requires WellFormed(w) && Possible(w, step) && t in Next(w, step, max).conns
    requires c in Next(w, step, max).conns[t].channels
    ensures t in w.conns && !(step.Closing? && step.s == t) && step != Unsubscribing(t, c)
    ensures var conn, conn' := w.conns[t], Next(w, step, max).conns[t];
            || (c in conn.channels && Record(conn', c) == Record(conn, c))
            || (&& Asks(step, t, c) && Passes(c, step.request.auth, step.request.claim)
                && Record(conn', c)
                   == if IsPresence(c) then Some(Identity(step.request.claim.user, step.request.claim.info))
                      else Record(conn, c))
  {
    if t !in w.conns {
      OnlyNewcomers(w, step, max);
      ConnectingMail(w, t, step.limit);
      assert false;
    }
    match step
    case Connecting(s, limit) => ConnectingMail(w, s, limit);
    case Subscribing(s, request) => SubscribingHolds(w, s, request, max, t, c);
    case Unsubscribing(s, d) => UnsubscribingMail(w, s, d, t);
    case SigningIn(s, who) => SigningInMail(w, s, who);
    case Publishing(d, name, data, except) => PublishingMail(w, d, name, data, except, t);
    case Terminating(u) => TerminatingMail(w, u, t);
    case Delivering(s) => DeliveringMail(w, s);
    case Closing(s, order) => ClosingMail(w, s, order, t);
  }

  lemma SubscribingHolds(w: World, s: SocketId, request: SubscribeRequest, max: nat, t: SocketId, c: Channel)
    requires s in w.conns && t in w.conns
    ensures t in Subscribe(w, s, request, max).conns
    ensures var conn, conn' := w.conns[t], Subscribe(w, s, request, max).conns[t];
            || ((c in conn'.channels <==> c in conn.channels) && Record(conn', c) == Record(conn, c))
            || (&& s == t && request.Join? && request.channel == c && Passes(c, request.auth, request.claim)
                && Record(conn', c)
                   == if IsPresence(c) then Some(Identity(request.claim.user, request.claim.info)) else Record(conn, c))
  {
    if t != s {
      SubscribingTellsOthers(w, s, request, max, t);
    } else if request == Malformed {
      RefusedMail(w, s, Error(InvalidRequest));
    } else if request.channel in w.conns[s].channels {
      RefusalMail(w, s, request.channel, request.auth, request.claim, request.cached, max);
    } else {
      GrantedIff(w, s, request.channel, request.auth, request.claim, request.cached, max);
    }
  }

  /** Step `i` is a request of `t` for `c` that had all it takes, and `t` has not left since. */
  ghost predicate HasLeave(trace: seq<Step>, i: nat, t: SocketId, c: Channel, held: Option<Identity>) {
    && i < |trace| && Asks(trace[i], t, c) && Passes(c, trace[i].request.auth, trace[i].request.claim)
    && (IsPresence(c) ==> held == Some(Identity(trace[i].request.claim.user, trace[i].request.claim.info)))
    && forall j :: i < j < |trace| ==> trace[j] != Unsubscribing(t, c) && !(trace[j].Closing? && trace[j].s == t)
  }

  lemma LeaveStays(trace: seq<Step>, i: nat, t: SocketId, c: Channel, held: Option<Identity>)
    requires trace != [] && HasLeave(trace[..|trace| - 1], i, t, c, held)
    requires var last := trace[|trace| - 1]; last != Unsubscribing(t, c) && !(last.Closing? && last.s == t)
    ensures HasLeave(trace, i, t, c, held)
  {
    assert forall j :: 0 <= j < |trace| - 1 ==> trace[..|trace| - 1][j] == trace[j];
  }

  lemma {:induction false} RunHasLeave(trace: seq<Step>, max: nat, t: SocketId, c: Channel) returns (i: nat)
    requires Run(trace, max).Some? && t in Run(trace, max).value.conns && c in Run(trace, max).value.conns[t].channels
    ensures HasLeave(trace, i, t, c, Record(Run(trace, max).value.conns[t], c))
    decreases |trace|
  {
    assert trace != [];
    var rest, step := trace[..|trace| - 1], trace[|trace| - 1];
    var w := Run(rest, max).value;
    RunIsWellFormed(rest, max);
    HoldMoves(w, step, max, t, c);
    hide Next, WellFormed, Possible, IsPresence, Passes, Asks, Record;
    if c in w.conns[t].channels && Record(Next(w, step, max).conns[t], c) == Record(w.conns[t], c) {
      i := RunHasLeave(rest, max, t, c);
      hide Run, HasLeave;
      LeaveStays(trace, i, t, c, Record(w.conns[t], c));
    } else {
      i := |rest|;
    }
  }

  /** Over every run: a socket holds a channel only by a request of its own that had all it
      takes, for a private or presence channel a valid signature and for a presence channel
      a usable claim, under which it is there; and it has not left since. */
  lemma {:induction false} HeldByLeave(trace: seq<Step>, max: nat, t: SocketId, c: Channel) returns (i: nat)
    requires Run(trace, max).Some? && t in Run(trace, max).value.conns && c in Run(trace, max).value.conns[t].channels
    ensures i < |trace| && trace[i].Subscribing? && trace[i].s == t
    ensures trace[i].request.Join? && trace[i].request.channel == c
    ensures IsPrivate(c) || IsPresence(c) ==> trace[i].request.auth == Some(true)
    ensures var conn := Run(trace, max).value.conns[t];
            IsPresence(c) ==>
              c in conn.presence && trace[i].request.claim == Claim.Member(conn.presence[c].user, conn.presence[c].info)
    ensures forall j :: i < j < |trace| ==> trace[j] != Unsubscribing(t, c) && !(trace[j].Closing? && trace[j].s == t)
  {
    i := RunHasLeave(trace, max, t, c);
  }

  // -- who has signed in, and why a connection is flagged --------------------------------------------------

  ghost predicate EverSignedIn(trace: seq<Step>, t: SocketId, u: UserId) {
    exists i :: 0 <= i < |trace| && trace[i] == SigningIn(t, Some(u))
  }

  lemma IdentitiesMove(w: World, step: Step, max: nat, t: SocketId, u: UserId)
    requires WellFormed(w) && Possible(w, step) && t in Next(w, step, max).conns
    ensures u in Next(w, step, max).conns[t].identities <==>
              (t in w.conns && u in w.conns[t].identities) || step == SigningIn(t, Some(u))
  {
    if t !in w.conns {
      OnlyNewcomers(w, step, max);
      ConnectingMail(w, t, step.limit);
    } else {
      match step
      case Connecting(s, limit) => ConnectingMail(w, s, limit);
      case Subscribing(s, request) => SubscribingIdentities(w, s, request, max, t);
      case Unsubscribing(s, d) => UnsubscribingMail(w, s, d, t);
      case SigningIn(s, who) => SigningInMail(w, s, who);
      case Publishing(d, name, data, except) => PublishingMail(w, d, name, data, except, t);
      case Terminating(v) => TerminatingMail(w, v, t);
      case Delivering(s) => DeliveringMail(w, s);
      case Closing(s, order) => ClosingMail(w, s, order, t);
    }
  }

  lemma SubscribingIdentities(w: World, s: SocketId, request: SubscribeRequest, max: nat, t: SocketId)
    requires s in w.conns && t in w.conns
    ensures t in Subscribe(w, s, request, max).conns
    ensures Subscribe(w, s, request, max).conns[t].identities == w.conns[t].identities
  {
    if t != s {
      SubscribingTellsOthers(w, s, request, max, t);
    } else if request == Malformed {
      RefusedMail(w, s, Error(InvalidRequest));
    } else if request.channel in w.conns[s].channels {
      RefusalMail(w, s, request.channel, request.auth, request.claim, request.cached, max);
    } else {
      GrantedIff(w, s, request.channel, request.auth, request.claim, request.cached, max);
    }
  }

  /** An id that is not in use has not signed in, or has closed for good. */
  lemma {:induction false} UnusedNeverSignedIn(trace: seq<Step>, max: nat, t: SocketId)
    requires Run(trace, max).Some? && t !in Run(trace, max).value.conns && t !in Run(trace, max).value.retired
    ensures forall i :: 0 <= i < |trace| ==> !(trace[i].SigningIn? && trace[i].s == t)
    decreases |trace|
  {
    if trace != [] {
      var rest := trace[..|trace| - 1];
      var w, w' := Run(rest, max).value, Run(trace, max).value;
      RunIsWellFormed(rest, max);
      StillUnused(w, trace[|trace| - 1], max, t);
      UnusedNeverSignedIn(rest, max, t);
      assert forall i :: 0 <= i < |rest| ==> trace[i] == rest[i];
    }
  }

  lemma StillUnused(w: World, step: Step, max: nat, t: SocketId)
    requires WellFormed(w) && Possible(w, step)
    requires t !in Next(w, step, max).conns && t !in Next(w, step, max).retired
    ensures t !in w.conns && t !in w.retired
  {
    match step
    case Connecting(s, limit) => ConnectingMail(w, s, limit);
    case Subscribing(s, request) => SubscribeUsesNoOtherId(w, s, request, max);
    case Unsubscribing(s, c) => UnsubscribeUsesNoOtherId(w, s, c);
    case Closing(s, order) => UnsubscribeAllKeepsRetired(w, s, order);
    case _ => MailStepIsMail(w, step, max);
  }

  /** Over every run: the users an open socket counts as are those it has signed in as. */
  lemma {:induction false} IdentitiesAreSignIns(trace: seq<Step>, max: nat, t: SocketId, u: UserId)
    requires Run(trace, max).Some? && t in Run(trace, max).value.conns
    ensures u in Run(trace, max).value.conns[t].identities <==>
              exists i :: 0 <= i < |trace| && trace[i] == SigningIn(t, Some(u))
    decreases |trace|
  {
    assert trace != [];
    var rest, step := trace[..|trace| - 1], trace[|trace| - 1];
    var w := Run(rest, max).value;
    RunIsWellFormed(rest, max);
    IdentitiesMove(w, step, max, t, u);
    if t in w.conns {
      IdentitiesAreSignIns(rest, max, t, u);
    } else {
      OnlyNewcomers(w, step, max);
      UnusedNeverSignedIn(rest, max, t);
    }
    hide Run, Next, Possible, WellFormed;
    assert forall i :: 0 <= i < |rest| ==> trace[i] == rest[i];
    assert EverSignedIn(trace, t, u) <==> EverSignedIn(rest, t, u) || step == SigningIn(t, Some(u));
  }

  /** The step terminates a user the socket has signed in as. */
  ghost predicate Terminates(w: World, step: Step, t: SocketId) {
    step.Terminating? && t in w.conns && step.user in w.conns[t].identities
  }

  ghost predicate EverTerminated(trace: seq<Step>, max: nat, t: SocketId)
    requires Run(trace, max).Some?
    decreases |trace|
  {
    trace != [] &&
    var before, step := trace[..|trace| - 1], trace[|trace| - 1];
    EverTerminated(before, max, t) || Terminates(Run(before, max).value, step, t)
  }

  ghost predicate EverFull(trace: seq<Step>, max: nat, t: SocketId)
    requires Run(trace, max).Some?
    decreases |trace|
  {
    || (t in Run(trace, max).value.conns && |Run(trace, max).value.conns[t].queue| == 512)
    || (trace != [] && EverFull(trace[..|trace| - 1], max, t))
  }

  lemma FlagMoves(w: World, step: Step, max: nat, t: SocketId)
    requires WellFormed(w) && Possible(w, step) && t in w.conns && t in Next(w, step, max).conns
    requires Conserved(w.conns[t])
    ensures w.conns[t].forceClose || Terminates(w, step, t) ==> Next(w, step, max).conns[t].forceClose
    ensures Next(w, step, max).conns[t].forceClose ==>
              w.conns[t].forceClose || Terminates(w, step, t) || |Next(w, step, max).conns[t].queue| == 512
  {
    if step.Delivering? {
      DeliveringMail(w, step.s);
    } else if step.Terminating? {
      TerminatingMail(w, step.user, t);
    } else {
      var ms := SomethingSent(w, step, max, t);
    }
  }

  /** Over every run: a connection is flagged only if its queue was full at some time or a
      user it had signed in as by then was terminated, and in the latter case it is. */
  lemma {:induction false} FlaggedForCause(trace: seq<Step>, max: nat, t: SocketId)
    requires Run(trace, max).Some? && t in Run(trace, max).value.conns
    ensures Run(trace, max).value.conns[t].forceClose ==> EverFull(trace, max, t) || EverTerminated(trace, max, t)
    ensures EverTerminated(trace, max, t) ==> Run(trace, max).value.conns[t].forceClose
    decreases |trace|
  {
    assert trace != [];
    var rest, step := trace[..|trace| - 1], trace[|trace| - 1];
    var w := Run(rest, max).value;
    RunIsWellFormed(rest, max);
    if t in w.conns {
      ReadThenQueued(rest, max, t);
      FlaggedForCause(rest, max, t);
      FlagMoves(w, step, max, t);
    } else {
      OnlyNewcomers(w, step, max);
      ConnectingMail(w, t, step.limit);
      NeverThereNeverTerminated(rest, max, t);
    }
  }

  lemma {:induction false} NeverThereNeverTerminated(trace: seq<Step>, max: nat, t: SocketId)
    requires Run(trace, max).Some? && t !in Run(trace, max).value.conns && t !in Run(trace, max).value.retired
    ensures !EverTerminated(trace, max, t)
    decreases |trace|
  {
    if trace != [] {
      var rest := trace[..|trace| - 1];
      RunIsWellFormed(rest, max);
      StillUnused(Run(rest, max).value, trace[|trace| - 1], max, t);
      NeverThereNeverTerminated(rest, max, t);
    }
  }
}
