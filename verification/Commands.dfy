/** The presence calls of a cluster's nodes on one channel, command by command. A node
    holds its command connection for the whole of a call, so it has one call in flight
    at most; calls of different nodes interleave freely. */
module Commands {
  import opened Protocol
  import opened RedisStore
  import P = ClusterPresence

  /** The next command of a node's call, and what the earlier ones returned. */
  datatype Pc =
    | Idle
    | AskLen(s: SocketId, user: UserId, info: Info)                // HLEN presence
    | AskExists(s: SocketId, user: UserId, info: Info, len: nat)   // HEXISTS presence user
    | Increment(s: SocketId, user: UserId, info: Info)             // HINCRBY psock user 1
    | Store(s: SocketId, user: UserId, info: Info)                 // HSET presence user info
    | Decrement(s: SocketId, user: UserId)                         // HINCRBY psock user -1
    | DropUser(user: UserId)                                       // HDEL presence user
    | DropCount(user: UserId)                                      // HDEL psock user
    | AskRest                                                      // HLEN presence
    | DropPresence                                                 // DEL presence
    | DropPsock                                                    // DEL psock

  /** `seats` are the sockets that are in the channel: a socket takes its seat as it is
      counted and gives it up as it is discounted. */
  datatype Cluster = Cluster(hashes: Hashes, nodes: map<NodeId, Pc>, seats: map<P.Seat, UserId>)

  datatype Event =
    | BeginAdd(node: NodeId, s: SocketId, user: UserId, info: Info)
    | BeginRemove(node: NodeId, s: SocketId)
    | Command(node: NodeId)

  /** As for whole calls, a socket joins if it is not in the channel and leaves if it is. */
  ghost predicate Enabled(k: Cluster, e: Event) {
    && e.node in k.nodes
    && match e
       case BeginAdd(n, s, _, _) => k.nodes[n] == Idle && (n, s) !in k.seats
       case BeginRemove(n, s) => k.nodes[n] == Idle && (n, s) in k.seats
       case Command(n) => k.nodes[n] != Idle
  }

  /** One command of a call: its effect on the hashes and where the call goes next. */
  ghost function Execute(h: Hashes, pc: Pc, max: nat): (Hashes, Pc)
    requires pc != Idle
  {
    match pc
    case AskLen(s, u, info) => (h, AskExists(s, u, info, |h.presence|))
    case AskExists(s, u, info, len) => (h, if u !in h.presence && len >= max then Idle else Increment(s, u, info))
    case Increment(s, u, info) => (Recount(h, u, 1), if Count(h, u) == 0 then Store(s, u, info) else Idle)
    case Store(_, u, info) => (h.(presence := h.presence[u := info]), Idle)
    case Decrement(_, u) => (Recount(h, u, -1), if Count(h, u) - 1 <= 0 then DropUser(u) else Idle)
    case DropUser(u) => (h.(presence := h.presence - {u}), DropCount(u))
    case DropCount(u) => (h.(psock := h.psock - {u}), AskRest)
    case AskRest => (h, if |h.presence| == 0 then DropPresence else Idle)
    case DropPresence => (h.(presence := map[]), DropPsock)
    case DropPsock => (h.(psock := map[]), Idle)
  }

  ghost function Recount(h: Hashes, u: UserId, delta: int): Hashes {
    h.(psock := h.psock[u := Count(h, u) + delta])
  }

  ghost function Reseat(seats: map<P.Seat, UserId>, n: NodeId, pc: Pc): map<P.Seat, UserId> {
    match pc
    case Increment(s, u, _) => seats[(n, s) := u]
    case Decrement(s, _) => seats - {(n, s)}
    case _ => seats
  }

  ghost function Next(k: Cluster, e: Event, max: nat): Cluster
    requires Enabled(k, e)
  {
    match e
    case BeginAdd(n, s, u, info) => k.(nodes := k.nodes[n := AskLen(s, u, info)])
    case BeginRemove(n, s) => k.(nodes := k.nodes[n := Decrement(s, k.seats[(n, s)])])
    case Command(n) =>
      var done := Execute(k.hashes, k.nodes[n], max);
      Cluster(done.0, k.nodes[n := done.1], Reseat(k.seats, n, k.nodes[n]))
  }

  ghost function Start(nodes: set<NodeId>): Cluster { Cluster(NO_HASHES, map n | n in nodes :: Idle, map[]) }

  ghost function Run(nodes: set<NodeId>, trace: seq<Event>, max: nat): Option<Cluster>
    decreases |trace|
  {
    if trace == [] then Some(Start(nodes))
    else
      var before, e := Run(nodes, trace[..|trace| - 1], max), trace[|trace| - 1];
      if before.Some? && Enabled(before.value, e) then Some(Next(before.value, e, max)) else None
  }

  lemma OneMore(nodes: set<NodeId>, trace: seq<Event>, e: Event, max: nat)
    requires Run(nodes, trace, max).Some? && Enabled(Run(nodes, trace, max).value, e)
    ensures Run(nodes, trace + [e], max) == Some(Next(Run(nodes, trace, max).value, e, max))
  {
    assert (trace + [e])[..|trace + [e]| - 1] == trace;
  }

  // -- a call that nothing disturbs is the whole call --------------------------------------------

  /** An upper bound on the commands a call has left. */
  ghost function Remaining(pc: Pc): nat {
    match pc
    case Idle => 0
    case AskLen(_, _, _) => 4
    case AskExists(_, _, _, _) => 3
    case Increment(_, _, _) => 2
    case Store(_, _, _) => 1
    case Decrement(_, _) => 6
    case DropUser(_) => 5
    case DropCount(_) => 4
    case AskRest => 3
    case DropPresence => 2
    case DropPsock => 1
  }

  /** The call of `n` run to its end with nothing in between. */
  ghost function Finished(k: Cluster, n: NodeId, max: nat): Cluster
    requires n in k.nodes
    decreases Remaining(k.nodes[n])
  {
    if k.nodes[n] == Idle then k else Finished(Next(k, Command(n), max), n, max)
  }

  /** `longer` goes on from `trace` with commands of `n` only. */
  ghost predicate ContinuesOn(trace: seq<Event>, longer: seq<Event>, n: NodeId) {
    trace <= longer && forall i :: |trace| <= i < |longer| ==> longer[i] == Command(n)
  }

  lemma {:induction false} RunAll(nodes: set<NodeId>, trace: seq<Event>, n: NodeId, max: nat)
    returns (longer: seq<Event>)
    requires Run(nodes, trace, max).Some? && n in Run(nodes, trace, max).value.nodes
    ensures Run(nodes, longer, max) == Some(Finished(Run(nodes, trace, max).value, n, max))
    ensures ContinuesOn(trace, longer, n)
    decreases Remaining(Run(nodes, trace, max).value.nodes[n])
  {
    var k := Run(nodes, trace, max).value;
    if k.nodes[n] == Idle {
      longer := trace;
    } else {
      OneMore(nodes, trace, Command(n), max);
      longer := RunAll(nodes, trace + [Command(n)], n, max);
      assert ContinuesOn(trace, longer, n);
    }
  }

  /** In any run, a join whose commands nothing comes between is the whole join. */
  lemma UndisturbedJoin(nodes: set<NodeId>, trace: seq<Event>, n: NodeId, s: SocketId, u: UserId, info: Info, max: nat)
    returns (longer: seq<Event>)
    requires Run(nodes, trace, max).Some? && Enabled(Run(nodes, trace, max).value, BeginAdd(n, s, u, info))
    ensures ContinuesOn(trace + [BeginAdd(n, s, u, info)], longer, n)
    ensures var k := Run(nodes, trace, max).value;
            var whole := P.Next(P.Cluster(k.hashes, k.seats, []), P.Join((n, s), u, info), max);
            Run(nodes, longer, max) == Some(Cluster(whole.hashes, k.nodes, whole.seats))
  {
    var k := Run(nodes, trace, max).value;
    OneMore(nodes, trace, BeginAdd(n, s, u, info), max);
    longer := RunAll(nodes, trace + [BeginAdd(n, s, u, info)], n, max);
    JoinFinished(k, n, s, u, info, max);
  }

  /** Likewise a leave. */
  lemma UndisturbedLeave(nodes: set<NodeId>, trace: seq<Event>, n: NodeId, s: SocketId, max: nat)
    returns (longer: seq<Event>)
    requires Run(nodes, trace, max).Some? && Enabled(Run(nodes, trace, max).value, BeginRemove(n, s))
    ensures ContinuesOn(trace + [BeginRemove(n, s)], longer, n)
    ensures var k := Run(nodes, trace, max).value;
            var whole := P.Next(P.Cluster(k.hashes, k.seats, []), P.Leave((n, s)), max);
            Run(nodes, longer, max) == Some(Cluster(whole.hashes, k.nodes, whole.seats))
  {
    var k := Run(nodes, trace, max).value;
    OneMore(nodes, trace, BeginRemove(n, s), max);
    longer := RunAll(nodes, trace + [BeginRemove(n, s)], n, max);
    LeaveFinished(k, n, s, max);
  }

  ghost function At(k: Cluster, n: NodeId, pc: Pc): Cluster { k.(nodes := k.nodes[n := pc]) }

  /** One command of `n`, wherever its call stands. */
  lemma FinishOne(k: Cluster, n: NodeId, pc: Pc, max: nat)
    requires pc != Idle
    ensures Finished(At(k, n, pc), n, max)
         == var done := Execute(k.hashes, pc, max);
            Finished(At(Cluster(done.0, k.nodes, Reseat(k.seats, n, pc)), n, done.1), n, max)
  {
    var done := Execute(k.hashes, pc, max);
    assert k.nodes[n := pc][n := done.1] == k.nodes[n := done.1];
  }

  lemma FinishIdle(k: Cluster, n: NodeId, max: nat)
    requires n in k.nodes && k.nodes[n] == Idle
    ensures Finished(At(k, n, Idle), n, max) == k
  {
    assert k.nodes[n := Idle] == k.nodes;
  }

  lemma JoinFinished(k: Cluster, n: NodeId, s: SocketId, u: UserId, info: Info, max: nat)
    requires Enabled(k, BeginAdd(n, s, u, info))
    ensures var whole := P.Next(P.Cluster(k.hashes, k.seats, []), P.Join((n, s), u, info), max);
            Finished(At(k, n, AskLen(s, u, info)), n, max) == Cluster(whole.hashes, k.nodes, whole.seats)
  {
    hide Finished, Count;
    FinishOne(k, n, AskLen(s, u, info), max);
    FinishOne(k, n, AskExists(s, u, info, |k.hashes.presence|), max);
    if Refuses(k.hashes, u, max) {
      FinishIdle(k, n, max);
    } else {
      FinishOne(k, n, Increment(s, u, info), max);
      var counted := k.(hashes := Recount(k.hashes, u, 1), seats := k.seats[(n, s) := u]);
      if Count(k.hashes, u) == 0 {
        FinishOne(counted, n, Store(s, u, info), max);
        FinishIdle(counted.(hashes := Added(k.hashes, u, info)), n, max);
      } else {
        FinishIdle(counted, n, max);
      }
    }
  }

  lemma LeaveFinished(k: Cluster, n: NodeId, s: SocketId, max: nat)
    requires Enabled(k, BeginRemove(n, s))
    ensures var whole := P.Next(P.Cluster(k.hashes, k.seats, []), P.Leave((n, s)), max);
            Finished(At(k, n, Decrement(s, k.seats[(n, s)])), n, max) == Cluster(whole.hashes, k.nodes, whole.seats)
  {
    hide Finished, Count;
    var u := k.seats[(n, s)];
    FinishOne(k, n, Decrement(s, u), max);
    var counted := k.(hashes := Recount(k.hashes, u, -1), seats := k.seats - {(n, s)});
    if Count(k.hashes, u) - 1 <= 0 {
      assert counted.hashes.psock - {u} == k.hashes.psock - {u};
      DropFinished(counted, n, u, max);
    } else {
      FinishIdle(counted, n, max);
    }
  }

  lemma DropFinished(k: Cluster, n: NodeId, u: UserId, max: nat)
    requires n in k.nodes && k.nodes[n] == Idle
    ensures Finished(At(k, n, DropUser(u)), n, max)
         == var left := Hashes(k.hashes.presence - {u}, k.hashes.psock - {u});
            k.(hashes := if left.presence == map[] then NO_HASHES else left)
  {
    hide Finished;
    var unlisted := k.(hashes := k.hashes.(presence := k.hashes.presence - {u}));
    var left := k.(hashes := Hashes(k.hashes.presence - {u}, k.hashes.psock - {u}));
    FinishOne(k, n, DropUser(u), max);
    FinishOne(unlisted, n, DropCount(u), max);
    CleanupFinished(left, n, max);
  }

  lemma CleanupFinished(k: Cluster, n: NodeId, max: nat)
    requires n in k.nodes && k.nodes[n] == Idle
    ensures Finished(At(k, n, AskRest), n, max) == if k.hashes.presence == map[] then k.(hashes := NO_HASHES) else k
  {
    hide Finished;
    FinishOne(k, n, AskRest, max);
    if k.hashes.presence == map[] {
      assert |k.hashes.presence| == 0;
      FinishOne(k, n, DropPresence, max);
      FinishOne(k, n, DropPsock, max);
      FinishIdle(k.(hashes := NO_HASHES), n, max);
    } else {
      assert |k.hashes.presence| > 0;
      FinishIdle(k, n, max);
    }
  }
}
