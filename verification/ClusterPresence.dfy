/** One presence channel over all nodes of a cluster, adapter calls uninterrupted.
    Channels share no key, so one channel is the general case. */
module ClusterPresence {
  import opened Protocol
  import opened RedisStore
  import opened Alternation
  import opened Namespaces
  import Agreement
  import opened Tables

  /** A socket on a node. */
  type Seat = (NodeId, SocketId)

  /** What an adapter call reported: a user new to the cluster, or gone from it. */
  datatype Report = New(user: UserId) | Gone(user: UserId)

  datatype Cluster = Cluster(hashes: Hashes, seats: map<Seat, UserId>, reports: seq<Report>)

  const EMPTY: Cluster := Cluster(NO_HASHES, map[], [])

  /** A handler joins a channel only if its connection is not in it, and leaves as the
      user it joined as. */
  datatype Step = Join(seat: Seat, user: UserId, info: Info) | Leave(seat: Seat)

  ghost predicate Possible(k: Cluster, step: Step) {
    match step
    case Join(seat, _, _) => seat !in k.seats
    case Leave(seat) => seat in k.seats
  }

  ghost function Next(k: Cluster, step: Step, max: nat): Cluster
    requires Possible(k, step)
  {
    match step
    case Join(seat, u, info) =>
      if Refuses(k.hashes, u, max) then k
      else
        Cluster(Added(k.hashes, u, info), k.seats[seat := u],
                k.reports + if Count(k.hashes, u) == 0 then [New(u)] else [])
    case Leave(seat) =>
      var u := k.seats[seat];
      Cluster(Removed(k.hashes, u), k.seats - {seat}, k.reports + if Count(k.hashes, u) <= 1 then [Gone(u)] else [])
  }

  ghost function Run(trace: seq<Step>, max: nat): Option<Cluster>
    decreases |trace|
  {
    if trace == [] then Some(EMPTY)
    else
      var before, step := Run(trace[..|trace| - 1], max), trace[|trace| - 1];
      if before.Some? && Possible(before.value, step) then Some(Next(before.value, step, max)) else None
  }

  /** The sockets, over all nodes, that are in the channel as `u`. */
  ghost function HeldBy(seats: map<Seat, UserId>, u: UserId): set<Seat> { set s | s in seats && seats[s] == u }

  ghost predicate Counted(h: Hashes, seats: map<Seat, UserId>, u: UserId) {
    && Count(h, u) == |HeldBy(seats, u)|
    && (u in h.psock <==> HeldBy(seats, u) != {})
    && (u in h.presence <==> HeldBy(seats, u) != {})
  }

  ghost predicate Exact(k: Cluster) { forall u :: Counted(k.hashes, k.seats, u) }

  lemma SeatTaken(seats: map<Seat, UserId>, seat: Seat, u: UserId, v: UserId)
    requires seat !in seats
    ensures HeldBy(seats[seat := u], v) == HeldBy(seats, v) + if v == u then {seat} else {}
    ensures |HeldBy(seats[seat := u], v)| == |HeldBy(seats, v)| + One(v == u)
  {
  }

  lemma SeatLeft(seats: map<Seat, UserId>, seat: Seat, v: UserId)
    requires seat in seats
    ensures HeldBy(seats - {seat}, v) == HeldBy(seats, v) - {seat}
    ensures |HeldBy(seats - {seat}, v)| == |HeldBy(seats, v)| - One(v == seats[seat])
  {
  }

  /** When the last user goes the clean-up finds nothing else in either hash. */
  lemma CleanupDeletesNothingLive(k: Cluster, u: UserId)
    requires Exact(k) && Count(k.hashes, u) == 1
    ensures Removed(k.hashes, u) == Hashes(k.hashes.presence - {u}, k.hashes.psock - {u})
  {
    if k.hashes.presence - {u} == map[] {
      forall v | v in k.hashes.psock ensures v == u {
        assert Counted(k.hashes, k.seats, v);
        assert v in k.hashes.presence;
        assert v !in k.hashes.presence - {u};
      }
      assert k.hashes.psock - {u} == map[];
    }
  }

  lemma JoinKeepsCounted(k: Cluster, seat: Seat, u: UserId, info: Info, max: nat, v: UserId)
    requires Exact(k) && seat !in k.seats
    ensures var k' := Next(k, Join(seat, u, info), max);
            Counted(k'.hashes, k'.seats, v)
  {
    assert Counted(k.hashes, k.seats, v) && Counted(k.hashes, k.seats, u);
    SeatTaken(k.seats, seat, u, v);
  }

  lemma LeaveKeepsCounted(k: Cluster, seat: Seat, max: nat, v: UserId)
    requires Exact(k) && seat in k.seats
    ensures var k' := Next(k, Leave(seat), max);
            Counted(k'.hashes, k'.seats, v)
  {
    var u := k.seats[seat];
    assert Counted(k.hashes, k.seats, v) && Counted(k.hashes, k.seats, u);
    assert seat in HeldBy(k.seats, u);
    SeatLeft(k.seats, seat, v);
    SeatLeft(k.seats, seat, u);
    if Count(k.hashes, u) == 1 {
      CleanupDeletesNothingLive(k, u);
    }
  }

  ghost predicate Sound(k: Cluster, max: nat) {
    && Exact(k)
    && |k.hashes.presence| <= max
    && forall u :: Toggle(k.reports, New(u), Gone(u)) == Some(HeldBy(k.seats, u) != {})
  }

  lemma StepKeepsReports(k: Cluster, step: Step, max: nat, v: UserId)
    requires Sound(k, max) && Possible(k, step)
    ensures Toggle(Next(k, step, max).reports, New(v), Gone(v)) == Some(HeldBy(Next(k, step, max).seats, v) != {})
  {
    assert Toggle(k.reports, New(v), Gone(v)) == Some(HeldBy(k.seats, v) != {});
    assert k.reports + [] == k.reports;
    match step
    case Join(seat, u, info) =>
      assert Counted(k.hashes, k.seats, u);
      SeatTaken(k.seats, seat, u, v);
      ToggleOne(k.reports, New(u), New(v), Gone(v));
    case Leave(seat) =>
      var u := k.seats[seat];
      assert Counted(k.hashes, k.seats, u);
      assert seat in HeldBy(k.seats, u);
      SeatLeft(k.seats, seat, v);
      ToggleOne(k.reports, Gone(u), New(v), Gone(v));
  }

  lemma StepKeepsLimit(k: Cluster, step: Step, max: nat)
    requires Sound(k, max) && Possible(k, step)
    ensures |Next(k, step, max).hashes.presence| <= max
  {
  }

  lemma StepKeepsSound(k: Cluster, step: Step, max: nat)
    requires Sound(k, max) && Possible(k, step)
    ensures Sound(Next(k, step, max), max)
  {
    StepKeepsLimit(k, step, max);
    forall v ensures Counted(Next(k, step, max).hashes, Next(k, step, max).seats, v) {
      match step
      case Join(seat, u, info) => JoinKeepsCounted(k, seat, u, info, max, v);
      case Leave(seat) => LeaveKeepsCounted(k, seat, max, v);
    }
    forall v
      ensures Toggle(Next(k, step, max).reports, New(v), Gone(v)) == Some(HeldBy(Next(k, step, max).seats, v) != {})
    {
      StepKeepsReports(k, step, max, v);
    }
  }

  lemma {:induction false} RunIsSound(trace: seq<Step>, max: nat)
    requires Run(trace, max).Some?
    ensures Sound(Run(trace, max).value, max)
    decreases |trace|
  {
    if trace != [] {
      RunIsSound(trace[..|trace| - 1], max);
      StepKeepsSound(Run(trace[..|trace| - 1], max).value, trace[|trace| - 1], max);
    } else {
      forall u ensures Counted(NO_HASHES, EMPTY.seats, u) { assert HeldBy(EMPTY.seats, u) == {}; }
    }
  }

  /** In every reachable state the socket count kept for a user is the number of its
      sockets over all nodes and it is listed exactly while that is positive; new and
      gone are reported in strict turn, on the first and the last socket; and never more
      than the limit are listed. */
  lemma {:induction false} RefcountIsExact(trace: seq<Step>, max: nat, u: UserId)
    requires Run(trace, max).Some?
    ensures var k := Run(trace, max).value;
            && Count(k.hashes, u) == |HeldBy(k.seats, u)|
            && (u in k.hashes.psock <==> |HeldBy(k.seats, u)| > 0)
            && (u in k.hashes.presence <==> |HeldBy(k.seats, u)| > 0)
            && Toggle(k.reports, New(u), Gone(u)) == Some(|HeldBy(k.seats, u)| > 0)
            && |k.hashes.presence| <= max
  {
    RunIsSound(trace, max);
    assert Counted(Run(trace, max).value.hashes, Run(trace, max).value.seats, u);
  }

  /** The info listed for a user is that of the socket that brought it in. */
  lemma {:induction false} ListedInfoStays(trace: seq<Step>, max: nat, step: Step, u: UserId)
    requires Run(trace, max).Some? && Possible(Run(trace, max).value, step)
    ensures var k, k' := Run(trace, max).value, Next(Run(trace, max).value, step, max);
            u in k'.hashes.presence ==>
              (if u in k.hashes.presence then k'.hashes.presence[u] == k.hashes.presence[u]
               else step.Join? && step.user == u && k'.hashes.presence[u] == step.info)
  {
    RunIsSound(trace, max);
    assert Counted(Run(trace, max).value.hashes, Run(trace, max).value.seats, u);
  }

  /** A socket gets in exactly if its user is listed already or there is a place. */
  lemma AdmittedIff(k: Cluster, seat: Seat, u: UserId, info: Info, max: nat)
    requires Possible(k, Join(seat, u, info))
    ensures var k', admitted := Next(k, Join(seat, u, info), max), u in k.hashes.presence || |k.hashes.presence| < max;
            && k'.seats == (if admitted then k.seats[seat := u] else k.seats)
            && (!admitted ==> k' == k)
  {
  }

  // -- the adapter takes these steps ----------------------------------------------------------

  /** The seats of the adapter's own node are the sockets in its own room. */
  ghost predicate OwnSeats(a: RedisAdapter, channel: Channel, seats: map<Seat, UserId>)
    reads a.local`presence
  {
    RoomHasSeats(a.local.presence, channel, a.nodeId, seats)
  }

  ghost predicate RoomHasSeats(rooms: map<Channel, Room>, channel: Channel, n: NodeId, seats: map<Seat, UserId>) {
    forall s, u :: s in Agreement.Seated(rooms, channel, u) <==> (n, s) in HeldBy(seats, u)
  }

  lemma OwnSeatTaken(a: RedisAdapter, channel: Channel, s: SocketId, u: UserId, info: Info, seats: map<Seat, UserId>)
    requires OwnSeats(a, channel, seats) && (a.nodeId, s) !in seats
    ensures RoomHasSeats(After(a.local.View(), AddMember(channel, s, u, info)).rooms, channel, a.nodeId,
                         seats[(a.nodeId, s) := u])
  {
    var rooms := a.local.presence;
    forall t, v
      ensures t in Agreement.Seated(Enter(rooms, channel, s, u, info), channel, v) <==>
              (a.nodeId, t) in HeldBy(seats[(a.nodeId, s) := u], v)
    {
      Agreement.EnterSeats(rooms, channel, s, u, info, channel, v);
      SeatTaken(seats, (a.nodeId, s), u, v);
    }
  }

  lemma OwnSeatLeft(a: RedisAdapter, channel: Channel, s: SocketId, u: UserId, seats: map<Seat, UserId>)
    requires OwnSeats(a, channel, seats) && (a.nodeId, s) in seats && seats[(a.nodeId, s)] == u && a.local.Valid()
    ensures RoomHasSeats(After(a.local.View(), RemoveMember(channel, s, u)).rooms, channel, a.nodeId,
                         seats - {(a.nodeId, s)})
  {
    var rooms := a.local.presence;
    forall t, v
      ensures t in Agreement.Seated(Exit(rooms, channel, s, u), channel, v) <==>
              (a.nodeId, t) in HeldBy(seats - {(a.nodeId, s)}, v)
    {
      Agreement.ExitSeats(rooms, channel, s, u, channel, v);
      SeatLeft(seats, (a.nodeId, s), v);
    }
  }

  /** Refused exactly when the step changes nothing; a new user exactly when it reports one. */
  method JoinOn(a: RedisAdapter, channel: Channel, s: SocketId, u: UserId, info: Info, max: nat, ghost k: Cluster)
    returns (r: Option<(bool, map<UserId, Info>)>)
    requires a.local.Valid() && k.hashes == a.redis.Hashed(channel) && OwnSeats(a, channel, k.seats)
    requires Possible(k, Join((a.nodeId, s), u, info))
    modifies a.local`presence, a.redis`presence, a.redis`psock
    ensures a.local.Valid() && OwnSeats(a, channel, Next(k, Join((a.nodeId, s), u, info), max).seats)
    ensures a.redis.Hashed(channel) == Next(k, Join((a.nodeId, s), u, info), max).hashes
    ensures r == None <==> Next(k, Join((a.nodeId, s), u, info), max) == k
    ensures r.Some? <==> u in k.hashes.presence || |k.hashes.presence| < max
    ensures r.Some? ==> r.value.1 == Next(k, Join((a.nodeId, s), u, info), max).hashes.presence
    ensures var reports := Next(k, Join((a.nodeId, s), u, info), max).reports;
            r.Some? ==> reports == k.reports + if r.value.0 then [New(u)] else []
  {
    hide Namespace.Valid, After, Redis.Hashed, RoomHasSeats;
    OwnSeatTaken(a, channel, s, u, info, k.seats);
    r := a.TryAddPresenceMember(channel, s, u, info, max);
    assert (a.nodeId, s) in k.seats[(a.nodeId, s) := u];
  }

  method LeaveOn(a: RedisAdapter, channel: Channel, s: SocketId, u: UserId, max: nat, ghost k: Cluster)
    returns (gone: bool)
    requires a.local.Valid() && k.hashes == a.redis.Hashed(channel) && OwnSeats(a, channel, k.seats)
    requires Possible(k, Leave((a.nodeId, s))) && k.seats[(a.nodeId, s)] == u
    modifies a.local`presence, a.redis`presence, a.redis`psock
    ensures a.local.Valid() && OwnSeats(a, channel, Next(k, Leave((a.nodeId, s)), max).seats)
    ensures a.redis.Hashed(channel) == Next(k, Leave((a.nodeId, s)), max).hashes
    ensures Next(k, Leave((a.nodeId, s)), max).reports == k.reports + if gone then [Gone(u)] else []
  {
    hide Namespace.Valid, After, Redis.Hashed, RoomHasSeats;
    OwnSeatLeft(a, channel, s, u, k.seats);
    gone := a.RemovePresenceMember(channel, s, u);
  }
}
