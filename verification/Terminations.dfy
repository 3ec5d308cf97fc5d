/** Terminating a user's connections on all nodes of a cluster: at once on the node that
    is asked, and on each other node when it reads of it, while sockets open, sign in,
    get mail and close. */
module Terminations {
  import opened Protocol
  import opened Connection
  import opened RedisStore
  import Server
  import S = Subscriptions

  datatype Posted = Posted(sender: NodeId, user: UserId)

  datatype Node = Node(conns: ConnTable, closed: set<SocketId>, cursor: nat)

  datatype Cluster = Cluster(posted: seq<Posted>, nodes: map<NodeId, Node>)

  /** `Move` is anything else that happens to a connection. */
  datatype Step =
    | Open(node: NodeId, s: SocketId)
    | SignIn(node: NodeId, s: SocketId, user: UserId)
    | Move(node: NodeId, s: SocketId, conn: Conn)
    | Close(node: NodeId, s: SocketId)
    | Terminate(node: NodeId, user: UserId)
    | Read(node: NodeId)

  /** Signing in apart, a connection is only ever flagged because its queue is full. */
  ghost predicate Moves(c: Conn, c': Conn) {
    && c'.identities == c.identities
    && (c'.forceClose == c.forceClose || (c'.forceClose && |c.queue| >= OUTBOUND_CAPACITY))
  }

  lemma ConnectionsMove(c: Conn, m: Message, channel: Channel, u: UserId, info: Info)
    ensures Moves(c, Enqueue(c, m)) && Moves(c, Delivered(c))
    ensures Moves(c, WithChannel(c, channel)) && Moves(c, WithPresence(c, channel, u, info))
    ensures Moves(c, Without(c, channel))
  {
  }

  ghost predicate Possible(k: Cluster, step: Step) {
    && step.node in k.nodes
    && match step
       case Open(n, s) => s !in k.nodes[n].conns && s !in k.nodes[n].closed
       case Move(n, s, c) => s in k.nodes[n].conns && Moves(k.nodes[n].conns[s], c)
       case Terminate(_, _) => true
       case Read(n) => k.nodes[n].cursor < |k.posted|
       case _ => step.s in k.nodes[step.node].conns
  }

  /** Whose connections the step has the node terminate. */
  ghost function Named(k: Cluster, step: Step): Option<UserId>
    requires Possible(k, step)
  {
    match step
    case Terminate(_, u) => Some(u)
    case Read(n) =>
      var p := k.posted[k.nodes[n].cursor];
      if p.sender == n then None else Some(p.user)
    case _ => None
  }

  ghost function Terminated(conns: ConnTable, u: Option<UserId>): ConnTable {
    if u.Some? then S.TerminateAll(conns, S.SignedIn(conns, u.value)) else conns
  }

  ghost function NodeNext(k: Cluster, step: Step): Node
    requires Possible(k, step)
  {
    var node := k.nodes[step.node];
    match step
    case Open(_, s) => node.(conns := node.conns[s := FRESH])
    case SignIn(_, s, u) => node.(conns := node.conns[s := Identified(node.conns[s], u)])
    case Move(_, s, c) => node.(conns := node.conns[s := c])
    case Close(_, s) => node.(conns := node.conns - {s}, closed := node.closed + {s})
    case Terminate(_, _) => node.(conns := Terminated(node.conns, Named(k, step)))
    case Read(_) => node.(conns := Terminated(node.conns, Named(k, step)), cursor := node.cursor + 1)
  }

  ghost function Next(k: Cluster, step: Step): Cluster
    requires Possible(k, step)
  {
    Cluster(k.posted + if step.Terminate? then [Posted(step.node, step.user)] else [],
            k.nodes[step.node := NodeNext(k, step)])
  }

  ghost function Start(nodes: set<NodeId>): Cluster { Cluster([], map n | n in nodes :: Node(map[], {}, 0)) }

  ghost function Run(nodes: set<NodeId>, trace: seq<Step>): Option<Cluster>
    decreases |trace|
  {
    if trace == [] then Some(Start(nodes))
    else
      var before, step := Run(nodes, trace[..|trace| - 1]), trace[|trace| - 1];
      if before.Some? && Possible(before.value, step) then Some(Next(before.value, step)) else None
  }

  ghost predicate IsOpen(k: Cluster, n: NodeId, s: SocketId) { n in k.nodes && s in k.nodes[n].conns }

  // -- why a connection is flagged ---------------------------------------------------------------------

  /** The step has the socket's node terminate a user it has signed in as, or its queue
      is full. */
  ghost predicate Flags(k: Cluster, step: Step, n: NodeId, s: SocketId)
    requires Possible(k, step)
  {
    && step.node == n && IsOpen(k, n, s)
    && ((Named(k, step).Some? && Named(k, step).value in k.nodes[n].conns[s].identities)
        || (step.Move? && step.s == s && step.conn.forceClose && |k.nodes[n].conns[s].queue| >= OUTBOUND_CAPACITY))
  }

  ghost predicate EverFlagged(nodes: set<NodeId>, trace: seq<Step>, n: NodeId, s: SocketId)
    requires Run(nodes, trace).Some?
    decreases |trace|
  {
    trace != [] &&
    var before, step := trace[..|trace| - 1], trace[|trace| - 1];
    EverFlagged(nodes, before, n, s) || Flags(Run(nodes, before).value, step, n, s)
  }

  lemma FlaggedByStep(k: Cluster, step: Step, n: NodeId, s: SocketId)
    requires Possible(k, step) && IsOpen(k, n, s) && IsOpen(Next(k, step), n, s)
    ensures Next(k, step).nodes[n].conns[s].forceClose <==> k.nodes[n].conns[s].forceClose || Flags(k, step, n, s)
  {
  }

  lemma {:induction false} NotThereNotFlagged(nodes: set<NodeId>, trace: seq<Step>, n: NodeId, s: SocketId)
    requires Run(nodes, trace).Some? && !IsOpen(Run(nodes, trace).value, n, s)
    requires n in Run(nodes, trace).value.nodes ==> s !in Run(nodes, trace).value.nodes[n].closed
    ensures !EverFlagged(nodes, trace, n, s)
    decreases |trace|
  {
    if trace != [] {
      NotThereNotFlagged(nodes, trace[..|trace| - 1], n, s);
    }
  }

  /** Over every run an open connection is flagged if and only if at some point its queue
      was full, or its node was to terminate a user it had signed in as by then. */
  lemma {:induction false} FlaggedIff(nodes: set<NodeId>, trace: seq<Step>, n: NodeId, s: SocketId)
    requires Run(nodes, trace).Some? && IsOpen(Run(nodes, trace).value, n, s)
    ensures Run(nodes, trace).value.nodes[n].conns[s].forceClose <==> EverFlagged(nodes, trace, n, s)
    decreases |trace|
  {
    if trace != [] {
      var before, step := trace[..|trace| - 1], trace[|trace| - 1];
      if IsOpen(Run(nodes, before).value, n, s) {
        FlaggedIff(nodes, before, n, s);
        FlaggedByStep(Run(nodes, before).value, step, n, s);
      } else {
        NotThereNotFlagged(nodes, before, n, s);
      }
    }
  }

  ghost predicate WasClosed(k: Cluster, n: NodeId, s: SocketId) { n in k.nodes && s in k.nodes[n].closed }

  /** The socket has been opened and not closed since. */
  ghost predicate Opened(trace: seq<Step>, n: NodeId, s: SocketId)
    decreases |trace|
  {
    trace != [] &&
    var step := trace[|trace| - 1];
    step == Open(n, s) || (step != Close(n, s) && Opened(trace[..|trace| - 1], n, s))
  }

  lemma OpenMoves(k: Cluster, step: Step, n: NodeId, s: SocketId)
    requires Possible(k, step)
    ensures IsOpen(Next(k, step), n, s) <==> step == Open(n, s) || (step != Close(n, s) && IsOpen(k, n, s))
  {
  }

  /** Over every run the sockets there are those opened and not closed since. */
  lemma {:induction false} OpenIffOpened(nodes: set<NodeId>, trace: seq<Step>, n: NodeId, s: SocketId)
    requires Run(nodes, trace).Some?
    ensures IsOpen(Run(nodes, trace).value, n, s) <==> Opened(trace, n, s)
    decreases |trace|
  {
    if trace != [] {
      var rest := trace[..|trace| - 1];
      OpenIffOpened(nodes, rest, n, s);
      OpenMoves(Run(nodes, rest).value, trace[|trace| - 1], n, s);
    }
  }

  lemma IdentitiesMove(k: Cluster, step: Step, n: NodeId, s: SocketId, u: UserId)
    requires Possible(k, step) && IsOpen(Next(k, step), n, s)
    ensures u in Next(k, step).nodes[n].conns[s].identities <==>
              step == SignIn(n, s, u) || (IsOpen(k, n, s) && u in k.nodes[n].conns[s].identities)
    ensures !IsOpen(k, n, s) ==> !WasClosed(k, n, s) && !step.SignIn?
  {
  }

  lemma {:induction false} NotThereNotSignedIn(nodes: set<NodeId>, trace: seq<Step>, n: NodeId, s: SocketId)
    requires Run(nodes, trace).Some?
    requires !IsOpen(Run(nodes, trace).value, n, s) && !WasClosed(Run(nodes, trace).value, n, s)
    ensures forall i, u :: 0 <= i < |trace| ==> trace[i] != SignIn(n, s, u)
    decreases |trace|
  {
    if trace != [] {
      var rest := trace[..|trace| - 1];
      NotThereNotSignedIn(nodes, rest, n, s);
      assert forall i :: 0 <= i < |rest| ==> trace[i] == rest[i];
    }
  }

  /** Over every run an open socket's identities are exactly the users it has signed in as. */
  lemma {:induction false} IdentitiesAreSignIns(nodes: set<NodeId>, trace: seq<Step>, n: NodeId, s: SocketId, u: UserId)
    requires Run(nodes, trace).Some? && IsOpen(Run(nodes, trace).value, n, s)
    ensures u in Run(nodes, trace).value.nodes[n].conns[s].identities <==>
              exists i :: 0 <= i < |trace| && trace[i] == SignIn(n, s, u)
    decreases |trace|
  {
    if trace != [] {
      var rest, step := trace[..|trace| - 1], trace[|trace| - 1];
      IdentitiesMove(Run(nodes, rest).value, step, n, s, u);
      if IsOpen(Run(nodes, rest).value, n, s) {
        IdentitiesAreSignIns(nodes, rest, n, s, u);
      } else {
        NotThereNotSignedIn(nodes, rest, n, s);
      }
      hide Run, Next, Possible;
      assert forall i :: 0 <= i < |rest| ==> trace[i] == rest[i];
      assert trace[|rest|] == step;
    }
  }

  // -- a termination reaches all nodes ---------------------------------------------------------------------

  lemma {:induction false} CursorsInRange(nodes: set<NodeId>, trace: seq<Step>, n: NodeId)
    requires Run(nodes, trace).Some? && n in Run(nodes, trace).value.nodes
    ensures Run(nodes, trace).value.nodes[n].cursor <= |Run(nodes, trace).value.posted|
    decreases |trace|
  {
    if trace != [] {
      CursorsInRange(nodes, trace[..|trace| - 1], n);
    }
  }

  /** The termination is posted at `i`, and the socket is flagged once its node has dealt
      with it. */
  ghost predicate OnItsWay(k: Cluster, i: nat, p: Posted, n: NodeId, s: SocketId) {
    && i < |k.posted| && k.posted[i] == p && IsOpen(k, n, s) && p.user in k.nodes[n].conns[s].identities
    && (p.sender == n || k.nodes[n].cursor > i ==> k.nodes[n].conns[s].forceClose)
  }

  lemma TerminatePosts(k: Cluster, m: NodeId, u: UserId, n: NodeId, s: SocketId)
    requires Possible(k, Terminate(m, u)) && IsOpen(k, n, s) && u in k.nodes[n].conns[s].identities
    requires k.nodes[n].cursor <= |k.posted|
    ensures OnItsWay(Next(k, Terminate(m, u)), |k.posted|, Posted(m, u), n, s)
  {
  }

  lemma StepKeepsOnItsWay(k: Cluster, step: Step, i: nat, p: Posted, n: NodeId, s: SocketId)
    requires OnItsWay(k, i, p, n, s) && Possible(k, step) && step != Close(n, s)
    ensures OnItsWay(Next(k, step), i, p, n, s)
  {
    assert IsOpen(Next(k, step), n, s);
    FlaggedByStep(k, step, n, s);
  }

  lemma {:induction false} StaysOnItsWay(nodes: set<NodeId>, trace: seq<Step>, from: nat, i: nat, p: Posted, n: NodeId,
                                         s: SocketId)
    requires Run(nodes, trace).Some? && from <= |trace| && Run(nodes, trace[..from]).Some?
    requires OnItsWay(Run(nodes, trace[..from]).value, i, p, n, s)
    requires forall j :: from <= j < |trace| ==> trace[j] != Close(n, s)
    ensures OnItsWay(Run(nodes, trace).value, i, p, n, s)
    decreases |trace|
  {
    if from == |trace| {
      assert trace[..from] == trace;
    } else {
      var before := trace[..|trace| - 1];
      assert before[..from] == trace[..from];
      StaysOnItsWay(nodes, before, from, i, p, n, s);
      StepKeepsOnItsWay(Run(nodes, before).value, trace[|trace| - 1], i, p, n, s);
    }
  }

  /** Whichever node is asked, once a node has read on, every connection it had of that
      user, signed in when the request came and not closed since, is flagged. */
  lemma {:induction false} TerminationReachesAll(nodes: set<NodeId>, trace: seq<Step>, at: nat, n: NodeId, s: SocketId)
    requires Run(nodes, trace).Some? && at < |trace| && trace[at].Terminate? && Run(nodes, trace[..at]).Some?
    requires IsOpen(Run(nodes, trace[..at]).value, n, s)
    requires trace[at].user in Run(nodes, trace[..at]).value.nodes[n].conns[s].identities
    requires forall j :: at <= j < |trace| ==> trace[j] != Close(n, s)
    ensures var k := Run(nodes, trace).value;
            && IsOpen(k, n, s)
            && (trace[at].node == n || k.nodes[n].cursor == |k.posted| ==> k.nodes[n].conns[s].forceClose)
  {
    var k0, p := Run(nodes, trace[..at]).value, Posted(trace[at].node, trace[at].user);
    PrefixRuns(nodes, trace, at + 1);
    assert trace[..at + 1][..at] == trace[..at] && trace[..at + 1][at] == trace[at];
    CursorsInRange(nodes, trace[..at], n);
    TerminatePosts(k0, p.sender, p.user, n, s);
    StaysOnItsWay(nodes, trace, at + 1, |k0.posted|, p, n, s);
  }

  lemma {:induction false} PrefixRuns(nodes: set<NodeId>, trace: seq<Step>, i: nat)
    requires Run(nodes, trace).Some? && i <= |trace|
    ensures Run(nodes, trace[..i]).Some?
    decreases |trace|
  {
    if i == |trace| {
      assert trace[..i] == trace;
    } else {
      assert trace[..|trace| - 1][..i] == trace[..i];
      PrefixRuns(nodes, trace[..|trace| - 1], i);
    }
  }

  // -- a node's server takes these steps -----------------------------------------------------------------

  /** The node that is asked terminates its own and posts it for the others. */
  method TerminateOn(server: Server.AppServer, n: NodeId, u: UserId, ghost k: Cluster) returns (p: Posted)
    requires server.Valid() && n in k.nodes && k.nodes[n].conns == server.World().conns
    modifies server.ns.sockets.Values`queue, server.ns.sockets.Values`forceClose, server.ns.sockets.Values`log
    ensures server.Valid() && server.World().conns == Next(k, Terminate(n, u)).nodes[n].conns
    ensures Next(k, Terminate(n, u)).posted == k.posted + [p]
  {
    server.TerminateUserConnections(u);
    p := Posted(n, u);
  }

  method ReadOn(server: Server.AppServer, n: NodeId, p: Posted, ghost k: Cluster)
    requires server.Valid() && Possible(k, Read(n)) && k.nodes[n].conns == server.World().conns
    requires p == k.posted[k.nodes[n].cursor]
    modifies server.ns.sockets.Values`queue, server.ns.sockets.Values`forceClose, server.ns.sockets.Values`log
    ensures server.Valid() && server.World().conns == Next(k, Read(n)).nodes[n].conns
    ensures p.sender == n ==> server.World() == old(server.World())
  {
    if p.sender == n {
      return;
    }
    server.TerminateUserConnections(p.user);
  }
}
