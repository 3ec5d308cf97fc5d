/** Who is counted and who is listed when the commands of a cluster's nodes interleave
    freely: exactly when the counts survive, and that nothing in flight can mend them. */
module CommandRefcount {
  import opened Protocol
  import opened RedisStore
  import opened Commands
  import P = ClusterPresence

  // -- calls and their sockets -------------------------------------------------------------------

  /** A call that has counted its socket and not yet discounted it, or the other way
      round, is for a socket that is in the channel, or is not. */
  ghost predicate SeatedFor(seats: map<P.Seat, UserId>, n: NodeId, pc: Pc) {
    match pc
    case AskLen(s, _, _) => (n, s) !in seats
    case AskExists(s, _, _, _) => (n, s) !in seats
    case Increment(s, _, _) => (n, s) !in seats
    case Store(s, u, _) => (n, s) in seats && seats[(n, s)] == u
    case Decrement(s, u) => (n, s) in seats && seats[(n, s)] == u
    case _ => true
  }

  ghost predicate WellSeated(k: Cluster) { forall n :: n in k.nodes ==> SeatedFor(k.seats, n, k.nodes[n]) }

  lemma StepKeepsSeated(k: Cluster, e: Event, max: nat)
    requires WellSeated(k) && Enabled(k, e)
    ensures WellSeated(Next(k, e, max))
  {
    var k' := Next(k, e, max);
    forall n | n in k'.nodes ensures SeatedFor(k'.seats, n, k'.nodes[n]) {
      assert SeatedFor(k.seats, n, k.nodes[n]);
    }
  }

  lemma {:induction false} RunIsSeated(nodes: set<NodeId>, trace: seq<Event>, max: nat)
    requires Run(nodes, trace, max).Some?
    ensures WellSeated(Run(nodes, trace, max).value) && Run(nodes, trace, max).value.nodes.Keys == nodes
    decreases |trace|
  {
    if trace != [] {
      RunIsSeated(nodes, trace[..|trace| - 1], max);
      StepKeepsSeated(Run(nodes, trace[..|trace| - 1], max).value, trace[|trace| - 1], max);
    }
  }

  // -- counts, adjusted for the calls in flight ---------------------------------------------------

  /** What a call in flight has still to do. */
  datatype Errand =
    | Storing(user: UserId)    // list the user it counted
    | Dropping(user: UserId)   // take the user off the list, then delete its count
    | Clearing(user: UserId)   // delete the user's count
    | Wiping                   // delete everybody's count

  predicate Has(pc: Pc, errand: Errand) {
    match errand
    case Storing(u) => pc.Store? && pc.user == u
    case Dropping(u) => pc.DropUser? && pc.user == u
    case Clearing(u) => pc.DropCount? && pc.user == u
    case Wiping => pc.DropPresence? || pc.DropPsock?
  }

  ghost function With(nodes: map<NodeId, Pc>, errand: Errand): set<NodeId> {
    set n | n in nodes && Has(nodes[n], errand)
  }

  /** All that matters about one user: its count and whether it has one, whether it is
      listed, its sockets, and how many calls have an errand that concerns it. */
  datatype Account = Account(
    count: int, counted: bool, listed: bool, held: nat, storing: nat, dropping: nat, clearing: nat, wiping: nat)

  ghost function AccountOf(k: Cluster, u: UserId): Account {
    Account(Count(k.hashes, u), u in k.hashes.psock, u in k.hashes.presence, |P.HeldBy(k.seats, u)|,
            |With(k.nodes, Storing(u))|, |With(k.nodes, Dropping(u))|,
            |With(k.nodes, Clearing(u))|, |With(k.nodes, Wiping)|)
  }

  /** The count is the number of sockets. The user is listed if that is positive, but for
      a call that has still to list it, and for a call that has still to take it off.
      Whatever is about to be deleted counts nobody. */
  predicate Balanced(a: Account) {
    && a.count == a.held
    && (a.counted ==> a.held > 0 || a.dropping + a.clearing > 0)
    && (a.listed <==> (a.held > 0 && a.storing == 0) || a.dropping > 0)
    && (a.dropping + a.clearing > 0 ==> a.held == 0)
    && (a.wiping > 0 ==> a.held == 0 && !a.listed)
    && a.storing <= 1 && a.storing <= a.held && a.dropping + a.clearing <= 1
  }

  /** The refcount, adjusted for the calls in flight. */
  ghost predicate Adjusted(k: Cluster) { forall u :: Balanced(AccountOf(k, u)) }

  ghost predicate AllIdle(nodes: map<NodeId, Pc>) { forall n :: n in nodes ==> nodes[n] == Idle }

  ghost predicate Exact(k: Cluster) { P.Exact(P.Cluster(k.hashes, k.seats, [])) }

  /** With no call in flight there is nothing to adjust for. */
  lemma QuietIsExact(k: Cluster)
    requires Adjusted(k) && AllIdle(k.nodes)
    ensures Exact(k)
  {
    forall u ensures P.Counted(k.hashes, k.seats, u) {
      assert Balanced(AccountOf(k, u));
      assert With(k.nodes, Storing(u)) == {} && With(k.nodes, Dropping(u)) == {} && With(k.nodes, Clearing(u)) == {};
      SizeOfNone(P.HeldBy(k.seats, u));
    }
  }

  lemma SizeOfNone<T>(a: set<T>)
    ensures |a| == 0 <==> a == {}
  {
  }

  // -- collisions -----------------------------------------------------------------------------------

  /** A command that meets another node's call at the wrong moment: it counts a socket
      whose count that call is about to delete, or it starts to delete all counts while
      that call has still to list the user it counted. */
  ghost predicate Collides(k: Cluster, e: Event) {
    && e.Command? && e.node in k.nodes
    && match k.nodes[e.node]
       case Increment(_, u, _) => AboutToClear(k.nodes, u)
       case AskRest => k.hashes.presence == map[] && exists n :: n in k.nodes && k.nodes[n].Store?
       case _ => false
  }

  ghost predicate AboutToClear(nodes: map<NodeId, Pc>, u: UserId) {
    exists n :: n in nodes && (Has(nodes[n], Dropping(u)) || Has(nodes[n], Clearing(u)) || Has(nodes[n], Wiping))
  }

  lemma Moves(nodes: map<NodeId, Pc>, n: NodeId, pc: Pc, errand: Errand)
    requires n in nodes
    ensures |With(nodes[n := pc], errand)| == |With(nodes, errand)| + One(Has(pc, errand)) - One(Has(nodes[n], errand))
    ensures Has(nodes[n], errand) ==> |With(nodes, errand)| >= 1
  {
    var rest := With(nodes, errand) - {n};
    assert With(nodes[n := pc], errand) == if Has(pc, errand) then rest + {n} else rest;
    assert With(nodes, errand) == if Has(nodes[n], errand) then rest + {n} else rest;
  }

  /** How a node's next command moves every account. */
  lemma AccountMoves(k: Cluster, n: NodeId, max: nat, u: UserId)
    requires Enabled(k, Command(n)) && SeatedFor(k.seats, n, k.nodes[n])
    ensures var pc, pc' := k.nodes[n], Next(k, Command(n), max).nodes[n];
            var a, a' := AccountOf(k, u), AccountOf(Next(k, Command(n), max), u);
            && a'.held == a.held + One(pc.Increment? && pc.user == u) - One(pc.Decrement? && pc.user == u)
            && a'.storing == a.storing + One(Has(pc', Storing(u))) - One(Has(pc, Storing(u)))
            && a'.dropping == a.dropping + One(Has(pc', Dropping(u))) - One(Has(pc, Dropping(u)))
            && a'.clearing == a.clearing + One(Has(pc', Clearing(u))) - One(Has(pc, Clearing(u)))
            && a'.wiping == a.wiping + One(Has(pc', Wiping)) - One(Has(pc, Wiping))
            && (Has(pc, Wiping) ==> a.wiping >= 1)
            && (Has(pc, Storing(u)) ==> a.held >= 1) && (pc.Decrement? && pc.user == u ==> a.held >= 1)
  {
    hide With, Count;
    var k' := Next(k, Command(n), max);
    var pc, pc' := k.nodes[n], k'.nodes[n];
    Moves(k.nodes, n, pc', Storing(u));
    Moves(k.nodes, n, pc', Dropping(u));
    Moves(k.nodes, n, pc', Clearing(u));
    Moves(k.nodes, n, pc', Wiping);
    if pc.Increment? {
      P.SeatTaken(k.seats, (n, pc.s), pc.user, u);
    } else if pc.Decrement? {
      P.SeatLeft(k.seats, (n, pc.s), u);
    }
    if pc.Store? || pc.Decrement? {
      assert (n, pc.s) in P.HeldBy(k.seats, pc.user);
      SizeOfNone(P.HeldBy(k.seats, pc.user));
    }
  }

  lemma NobodyHas(nodes: map<NodeId, Pc>, errand: Errand)
    ensures |With(nodes, errand)| == 0 <==> forall n :: n in nodes ==> !Has(nodes[n], errand)
  {
    SizeOfNone(With(nodes, errand));
    if n :| n in nodes && Has(nodes[n], errand) {
      assert n in With(nodes, errand);
    }
  }

  /** A call that has still to list its user has a socket of its own in the channel. */
  lemma StorerIsSeated(k: Cluster, u: UserId, seat: P.Seat)
    requires WellSeated(k) && |With(k.nodes, Storing(u))| > 0
    requires seat in P.HeldBy(k.seats, u) && seat.0 in k.nodes && !k.nodes[seat.0].Store?
    ensures |P.HeldBy(k.seats, u)| >= 2
  {
    NobodyHas(k.nodes, Storing(u));
    var m :| m in k.nodes && Has(k.nodes[m], Storing(u));
    assert SeatedFor(k.seats, m, k.nodes[m]);
    var other := (m, k.nodes[m].s);
    assert P.HeldBy(k.seats, u) == (P.HeldBy(k.seats, u) - {seat, other}) + {seat, other};
  }

  lemma BeginKeepsAccount(k: Cluster, e: Event, max: nat, u: UserId)
    requires Enabled(k, e) && !e.Command?
    ensures AccountOf(Next(k, e, max), u) == AccountOf(k, u)
  {
    var pc := Next(k, e, max).nodes[e.node];
    Moves(k.nodes, e.node, pc, Storing(u));
    Moves(k.nodes, e.node, pc, Dropping(u));
    Moves(k.nodes, e.node, pc, Clearing(u));
    Moves(k.nodes, e.node, pc, Wiping);
  }

  /** What a node that does not collide can rely on. */
  lemma Undisturbed(k: Cluster, n: NodeId, max: nat, u: UserId)
    requires WellSeated(k) && Enabled(k, Command(n)) && !Collides(k, Command(n))
    ensures var pc, a := k.nodes[n], AccountOf(k, u);
            && (pc.Increment? && pc.user == u ==> a.dropping == 0 && a.clearing == 0 && a.wiping == 0)
            && (pc.AskRest? && k.hashes.presence == map[] ==> a.storing == 0)
            && (pc.Decrement? && pc.user == u && a.storing > 0 ==> a.held >= 2)
  {
    NobodyHas(k.nodes, Storing(u));
    NobodyHas(k.nodes, Dropping(u));
    NobodyHas(k.nodes, Clearing(u));
    NobodyHas(k.nodes, Wiping);
    var pc := k.nodes[n];
    if pc.Decrement? && pc.user == u && |With(k.nodes, Storing(u))| > 0 {
      assert SeatedFor(k.seats, n, pc);
      StorerIsSeated(k, u, (n, pc.s));
    }
  }

  lemma CommandKeepsBalanced(k: Cluster, n: NodeId, max: nat, u: UserId)
    requires WellSeated(k) && Adjusted(k) && Enabled(k, Command(n)) && !Collides(k, Command(n))
    ensures Balanced(AccountOf(Next(k, Command(n), max), u))
  {
    hide With, P.HeldBy, Collides;
    assert Balanced(AccountOf(k, u)) && SeatedFor(k.seats, n, k.nodes[n]);
    AccountMoves(k, n, max, u);
    Undisturbed(k, n, max, u);
    EmptyMap(k.hashes.presence);
  }

  lemma EmptyMap<K, V>(m: map<K, V>)
    ensures |m| == 0 <==> m == map[]
  {
  }

  /** A collision loses a count for good in the account it concerns. */
  lemma CollisionUnbalances(k: Cluster, e: Event, max: nat)
    requires WellSeated(k) && Enabled(k, e) && Collides(k, e)
    ensures !Adjusted(Next(k, e, max))
  {
    var n, k' := e.node, Next(k, e, max);
    var seat := LostSeat(k, e, max);
    var u := k'.seats[seat];
    assert seat in P.HeldBy(k'.seats, u);
    SizeOfNone(P.HeldBy(k'.seats, u));
    NobodyHas(k'.nodes, Dropping(u));
    NobodyHas(k'.nodes, Clearing(u));
    NobodyHas(k'.nodes, Wiping);
    assert !Balanced(AccountOf(k', u));
  }

  // -- what a collision loses -----------------------------------------------------------------------

  /** The socket of `seat` stays in the channel whatever the calls in flight do, and its
      user's count is too low or about to be deleted. */
  ghost predicate Lost(k: Cluster, seat: P.Seat) {
    && seat in k.seats && seat.0 in k.nodes
    && !(k.nodes[seat.0].Decrement? && k.nodes[seat.0].s == seat.1)
    && (Count(k.hashes, k.seats[seat]) < |P.HeldBy(k.seats, k.seats[seat])| || AboutToClear(k.nodes, k.seats[seat]))
  }

  /** The socket a collision loses. */
  lemma LostSeat(k: Cluster, e: Event, max: nat) returns (seat: P.Seat)
    requires WellSeated(k) && Enabled(k, e) && Collides(k, e)
    ensures Lost(Next(k, e, max), seat) && AboutToClear(Next(k, e, max).nodes, Next(k, e, max).seats[seat])
  {
    var n, k' := e.node, Next(k, e, max);
    var pc := k.nodes[n];
    if pc.Increment? {
      seat := (n, pc.s);
      var m :| m in k.nodes
            && (Has(k.nodes[m], Dropping(pc.user)) || Has(k.nodes[m], Clearing(pc.user)) || Has(k.nodes[m], Wiping));
      assert m != n && k'.nodes[m] == k.nodes[m];
    } else {
      var m :| m in k.nodes && k.nodes[m].Store?;
      assert SeatedFor(k.seats, m, k.nodes[m]);
      seat := (m, k.nodes[m].s);
      assert Has(k'.nodes[n], Wiping);
    }
  }

  lemma CommandKeepsLost(k: Cluster, n: NodeId, max: nat, seat: P.Seat)
    requires WellSeated(k) && Enabled(k, Command(n)) && Lost(k, seat)
    ensures Lost(Next(k, Command(n), max), seat)
    ensures Next(k, Command(n), max).seats[seat] == k.seats[seat]
  {
    hide With;
    var k', u, pc := Next(k, Command(n), max), k.seats[seat], k.nodes[n];
    assert SeatedFor(k.seats, n, pc);
    AccountMoves(k, n, max, u);
    assert seat in P.HeldBy(k'.seats, u);
    SizeOfNone(P.HeldBy(k'.seats, u));
    if AboutToClear(k.nodes, u) {
      var m :| m in k.nodes
            && (Has(k.nodes[m], Dropping(u)) || Has(k.nodes[m], Clearing(u)) || Has(k.nodes[m], Wiping));
      if m != n { assert k'.nodes[m] == k.nodes[m]; }
    }
  }

  /** A call in flight cannot mend it: once they have all ended the count is wrong. */
  lemma LostIsInexact(k: Cluster, seat: P.Seat)
    requires Lost(k, seat) && AllIdle(k.nodes)
    ensures !Exact(k)
  {
    assert !P.Counted(k.hashes, k.seats, k.seats[seat]);
  }

  // -- exactly when the counts survive ----------------------------------------------------------------

  /** A step keeps the refcount, adjusted for the calls in flight, if and only if it does
      not collide. */
  lemma AdjustedIffNoCollision(k: Cluster, e: Event, max: nat)
    requires WellSeated(k) && Adjusted(k) && Enabled(k, e)
    ensures Adjusted(Next(k, e, max)) <==> !Collides(k, e)
  {
    if Collides(k, e) {
      CollisionUnbalances(k, e, max);
    } else {
      forall u ensures Balanced(AccountOf(Next(k, e, max), u)) {
        if e.Command? {
          CommandKeepsBalanced(k, e.node, max, u);
        } else {
          BeginKeepsAccount(k, e, max, u);
          assert Balanced(AccountOf(k, u));
        }
      }
    }
  }

  ghost predicate CollisionFree(nodes: set<NodeId>, trace: seq<Event>, max: nat)
    requires Run(nodes, trace, max).Some?
    decreases |trace|
  {
    trace == [] ||
    var before, e := trace[..|trace| - 1], trace[|trace| - 1];
    CollisionFree(nodes, before, max) && !Collides(Run(nodes, before, max).value, e)
  }

  ghost predicate AlwaysAdjusted(nodes: set<NodeId>, trace: seq<Event>, max: nat)
    requires Run(nodes, trace, max).Some?
    decreases |trace|
  {
    Adjusted(Run(nodes, trace, max).value) && (trace == [] || AlwaysAdjusted(nodes, trace[..|trace| - 1], max))
  }

  lemma StartIsAdjusted(nodes: set<NodeId>)
    ensures Adjusted(Start(nodes))
  {
    var k := Start(nodes);
    forall u ensures Balanced(AccountOf(k, u)) {
      assert P.HeldBy(k.seats, u) == {};
      NobodyHas(k.nodes, Storing(u));
      NobodyHas(k.nodes, Dropping(u));
      NobodyHas(k.nodes, Clearing(u));
      NobodyHas(k.nodes, Wiping);
    }
  }

  /** On any interleaving of single commands, the adjusted refcount holds throughout if
      and only if no command collides. */
  lemma {:induction false} RefcountHoldsIffNoCollision(nodes: set<NodeId>, trace: seq<Event>, max: nat)
    requires Run(nodes, trace, max).Some?
    ensures AlwaysAdjusted(nodes, trace, max) <==> CollisionFree(nodes, trace, max)
    ensures CollisionFree(nodes, trace, max) ==> Adjusted(Run(nodes, trace, max).value)
    decreases |trace|
  {
    if trace == [] {
      StartIsAdjusted(nodes);
    } else {
      var before := trace[..|trace| - 1];
      RefcountHoldsIffNoCollision(nodes, before, max);
      RunIsSeated(nodes, before, max);
      if AlwaysAdjusted(nodes, before, max) {
        AdjustedIffNoCollision(Run(nodes, before, max).value, trace[|trace| - 1], max);
      }
    }
  }

  /** When no command has collided and no call is in flight, every user's count is its
      number of sockets over all nodes, and exactly the users with one are listed. */
  lemma {:induction false} CollisionFreeIsExact(nodes: set<NodeId>, trace: seq<Event>, max: nat)
    requires Run(nodes, trace, max).Some? && CollisionFree(nodes, trace, max)
    requires AllIdle(Run(nodes, trace, max).value.nodes)
    ensures Exact(Run(nodes, trace, max).value)
  {
    RefcountHoldsIffNoCollision(nodes, trace, max);
    QuietIsExact(Run(nodes, trace, max).value);
  }

  /** A collision takes two calls in flight. */
  lemma CollisionTakesTwo(k: Cluster, e: Event)
    requires Collides(k, e)
    ensures exists m :: m in k.nodes && m != e.node && k.nodes[m] != Idle
  {
    var n := e.node;
    if k.nodes[n].Increment? {
      var u := k.nodes[n].user;
      var m :| m in k.nodes
            && (Has(k.nodes[m], Dropping(u)) || Has(k.nodes[m], Clearing(u)) || Has(k.nodes[m], Wiping));
      assert m != n && k.nodes[m] != Idle;
    } else {
      var m :| m in k.nodes && k.nodes[m].Store?;
      assert m != n && k.nodes[m] != Idle;
    }
  }

  /** No call begins before the one before it has ended. */
  ghost predicate Serial(nodes: set<NodeId>, trace: seq<Event>, max: nat)
    requires Run(nodes, trace, max).Some?
    decreases |trace|
  {
    trace == [] ||
    var before, e := trace[..|trace| - 1], trace[|trace| - 1];
    Serial(nodes, before, max) && (!e.Command? ==> AllIdle(Run(nodes, before, max).value.nodes))
  }

  ghost predicate OneBusyAtMost(nodes: map<NodeId, Pc>) {
    forall n, m :: n in nodes && m in nodes && nodes[n] != Idle && nodes[m] != Idle ==> n == m
  }

  /** Whole calls one after another never collide. */
  lemma {:induction false} SerialIsCollisionFree(nodes: set<NodeId>, trace: seq<Event>, max: nat)
    requires Run(nodes, trace, max).Some? && Serial(nodes, trace, max)
    ensures CollisionFree(nodes, trace, max) && OneBusyAtMost(Run(nodes, trace, max).value.nodes)
    decreases |trace|
  {
    if trace != [] {
      var before := trace[..|trace| - 1];
      SerialIsCollisionFree(nodes, before, max);
      if Collides(Run(nodes, before, max).value, trace[|trace| - 1]) {
        CollisionTakesTwo(Run(nodes, before, max).value, trace[|trace| - 1]);
      }
    }
  }

  lemma {:induction false} OneNodeIsSerial(n: NodeId, trace: seq<Event>, max: nat)
    requires Run({n}, trace, max).Some?
    ensures Serial({n}, trace, max)
    decreases |trace|
  {
    if trace != [] {
      OneNodeIsSerial(n, trace[..|trace| - 1], max);
      RunIsSeated({n}, trace[..|trace| - 1], max);
    }
  }

  /** A single node is always exact between its calls. */
  lemma {:induction false} OneNodeIsExact(n: NodeId, trace: seq<Event>, max: nat)
    requires Run({n}, trace, max).Some? && AllIdle(Run({n}, trace, max).value.nodes)
    ensures Exact(Run({n}, trace, max).value)
  {
    OneNodeIsSerial(n, trace, max);
    SerialIsCollisionFree({n}, trace, max);
    CollisionFreeIsExact({n}, trace, max);
  }

  // -- a collision is the point of no return ------------------------------------------------------------

  /** `longer` goes on from `trace` until no call is in flight, beginning no other. */
  ghost predicate Finishes(nodes: set<NodeId>, trace: seq<Event>, longer: seq<Event>, max: nat) {
    && trace <= longer && Run(nodes, longer, max).Some?
    && AllIdle(Run(nodes, longer, max).value.nodes)
    && forall i :: |trace| <= i < |longer| ==> longer[i].Command?
  }

  lemma {:induction false} LostStays(nodes: set<NodeId>, trace: seq<Event>, longer: seq<Event>, max: nat, seat: P.Seat)
    requires trace <= longer && Run(nodes, longer, max).Some?
    requires forall i :: |trace| <= i < |longer| ==> longer[i].Command?
    requires Run(nodes, trace, max).Some? && Lost(Run(nodes, trace, max).value, seat)
    ensures Lost(Run(nodes, longer, max).value, seat)
    decreases |longer|
  {
    if |longer| == |trace| {
      assert longer == trace;
    } else {
      var before := longer[..|longer| - 1];
      LostStays(nodes, trace, before, max, seat);
      RunIsSeated(nodes, before, max);
      CommandKeepsLost(Run(nodes, before, max).value, longer[|longer| - 1].node, max, seat);
    }
  }

  predicate Deletes(pc: Pc) { pc.DropUser? || pc.DropCount? || Has(pc, Wiping) }

  /** Has begun to take a user out and lists nobody any more. */
  predicate Leaving(pc: Pc) { Deletes(pc) || pc.AskRest? }

  /** The call of `n` may be run to its end without meeting another: it has only to list
      its user, or nobody else has and, unless it is leaving itself, nobody else deletes. */
  ghost predicate Clear(k: Cluster, n: NodeId) {
    && n in k.nodes
    && (k.nodes[n].Store? || forall m :: m in k.nodes && m != n ==>
         !k.nodes[m].Store? && (Leaving(k.nodes[n]) || !Deletes(k.nodes[m])))
  }

  lemma ClearStepIsSafe(k: Cluster, n: NodeId, max: nat)
    requires WellSeated(k) && Adjusted(k) && Clear(k, n) && k.nodes[n] != Idle
    ensures var k' := Next(k, Command(n), max);
            && WellSeated(k') && Adjusted(k')
            && n in k'.nodes && (k'.nodes[n] == Idle || Clear(k', n))
            && k'.nodes[n := Idle] == k.nodes[n := Idle]
            && Remaining(k'.nodes[n]) < Remaining(k.nodes[n])
  {
    assert Next(k, Command(n), max).nodes[n := Idle] == k.nodes[n := Idle];
    hide Adjusted, WellSeated, Reseat, Recount;
    StepKeepsSeated(k, Command(n), max);
    AdjustedIffNoCollision(k, Command(n), max);
  }

  lemma {:induction false} ClearCallEndsAdjusted(k: Cluster, n: NodeId, max: nat)
    requires WellSeated(k) && Adjusted(k) && n in k.nodes && (k.nodes[n] == Idle || Clear(k, n))
    ensures WellSeated(Finished(k, n, max)) && Adjusted(Finished(k, n, max))
    ensures Finished(k, n, max).nodes == k.nodes[n := Idle]
    decreases Remaining(k.nodes[n])
  {
    hide Adjusted, WellSeated, Clear, Next, Remaining;
    if k.nodes[n] == Idle {
      assert k.nodes[n := Idle] == k.nodes;
    } else {
      ClearStepIsSafe(k, n, max);
      ClearCallEndsAdjusted(Next(k, Command(n), max), n, max);
    }
  }

  ghost function Busy(nodes: map<NodeId, Pc>): set<NodeId> { set n | n in nodes && nodes[n] != Idle }

  /** Some call in flight may be run to its end: one that is still to list a user, else
      one that is leaving, else any. */
  lemma SomeCallIsClear(k: Cluster) returns (n: NodeId)
    requires Busy(k.nodes) != {}
    ensures n in Busy(k.nodes) && Clear(k, n)
  {
    if m :| m in k.nodes && k.nodes[m].Store? {
      n := m;
    } else if m :| m in k.nodes && Leaving(k.nodes[m]) {
      n := m;
    } else {
      n :| n in Busy(k.nodes);
    }
  }

  /** From any adjusted state the calls in flight can be ended with everything exact. */
  lemma {:induction false} CanFinishExactly(nodes: set<NodeId>, trace: seq<Event>, max: nat)
    returns (longer: seq<Event>)
    requires Run(nodes, trace, max).Some? && Adjusted(Run(nodes, trace, max).value)
    ensures Finishes(nodes, trace, longer, max) && Exact(Run(nodes, longer, max).value)
    decreases Busy(Run(nodes, trace, max).value.nodes)
  {
    var k := Run(nodes, trace, max).value;
    RunIsSeated(nodes, trace, max);
    if Busy(k.nodes) == {} {
      longer := trace;
      forall n | n in k.nodes ensures k.nodes[n] == Idle { assert n !in Busy(k.nodes); }
      QuietIsExact(k);
    } else {
      var n := SomeCallIsClear(k);
      var further := RunAll(nodes, trace, n, max);
      ClearCallEndsAdjusted(k, n, max);
      assert Busy(k.nodes[n := Idle]) == Busy(k.nodes) - {n};
      longer := CanFinishExactly(nodes, further, max);
      FinishesSooner(nodes, trace, further, longer, n, max);
    }
  }

  lemma FinishesSooner(nodes: set<NodeId>, trace: seq<Event>, further: seq<Event>, longer: seq<Event>, n: NodeId,
                       max: nat)
    requires ContinuesOn(trace, further, n) && Finishes(nodes, further, longer, max)
    ensures Finishes(nodes, trace, longer, max)
  {
    forall i | |trace| <= i < |longer| ensures longer[i].Command? {
      if i < |further| { assert longer[i] == further[i]; }
    }
  }

  /** In a run without a collision so far: if the next step collides, then however the
      calls in flight are ended, some user's count comes out wrong; if it does not, they
      can be ended with everything exact. */
  lemma {:induction false} CollisionIsPointOfNoReturn(nodes: set<NodeId>, trace: seq<Event>, e: Event, max: nat)
    requires Run(nodes, trace, max).Some? && CollisionFree(nodes, trace, max)
    requires Enabled(Run(nodes, trace, max).value, e)
    ensures Run(nodes, trace + [e], max).Some?
    ensures Collides(Run(nodes, trace, max).value, e) <==>
              forall longer :: Finishes(nodes, trace + [e], longer, max) ==> !Exact(Run(nodes, longer, max).value)
  {
    var k := Run(nodes, trace, max).value;
    RefcountHoldsIffNoCollision(nodes, trace, max);
    RunIsSeated(nodes, trace, max);
    OneMore(nodes, trace, e, max);
    if Collides(k, e) {
      var seat := LostSeat(k, e, max);
      forall longer | Finishes(nodes, trace + [e], longer, max) ensures !Exact(Run(nodes, longer, max).value) {
        LostStays(nodes, trace + [e], longer, max, seat);
        LostIsInexact(Run(nodes, longer, max).value, seat);
      }
    } else {
      AdjustedIffNoCollision(k, e, max);
      var longer := CanFinishExactly(nodes, trace + [e], max);
      assert Finishes(nodes, trace + [e], longer, max);
    }
  }

  // -- two runs that lose a user ----------------------------------------------------------------------------

  /** The cluster of the two runs, with "a" at `pc` and "b" idle. */
  ghost function Pair(h: Hashes, pc: Pc, seats: map<P.Seat, UserId>): Cluster {
    Cluster(h, map["a" := pc, "b" := Idle], seats)
  }

  lemma StartIsPair()
    ensures Start({"a", "b"}) == Pair(NO_HASHES, Idle, map[])
  {
  }

  /** Node "a" has let its socket in as `u`, the only one. */
  lemma OnlyOneJoined(max: nat, u: UserId) returns (trace: seq<Event>)
    requires max >= 1
    ensures Run({"a", "b"}, trace, max) == Some(Pair(Hashes(map[u := ""], map[u := 1]), Idle, map[("a", "s") := u]))
  {
    StartIsPair();
    trace := UndisturbedJoin({"a", "b"}, [], "a", "s", u, "", max);
  }

  /** And out again, up to the point where the count is down and nothing is deleted. */
  lemma LeaveHalfDone(max: nat, u: UserId) returns (trace: seq<Event>)
    requires max >= 1
    ensures Run({"a", "b"}, trace, max) == Some(Pair(Hashes(map[u := ""], map[u := 0]), DropUser(u), map[]))
  {
    hide Run;
    var before := OnlyOneJoined(max, u);
    OneMore({"a", "b"}, before, BeginRemove("a", "s"), max);
    OneMore({"a", "b"}, before + [BeginRemove("a", "s")], Command("a"), max);
    trace := before + [BeginRemove("a", "s")] + [Command("a")];
    assert map[u := 1][u := 0] == map[u := 0];
    assert map[("a", "s") := u] - {("a", "s")} == map[];
    var joined := Pair(Hashes(map[u := ""], map[u := 1]), Idle, map[("a", "s") := u]);
    assert joined.nodes["a" := Decrement("s", u)]["a" := DropUser(u)] == map["a" := DropUser(u), "b" := Idle];
  }

  /** If `u` joins on the other node now, the deletes that follow take it off the list
      although it has a socket. */
  lemma InterleavedLeaveDropsUser(max: nat, u: UserId) returns (trace: seq<Event>)
    requires max >= 1
    ensures Run({"a", "b"}, trace, max) == Some(Pair(NO_HASHES, Idle, map[("b", "t") := u]))
  {
    hide Run, Finished;
    var before := LeaveHalfDone(max, u);
    before := UndisturbedJoin({"a", "b"}, before, "b", "t", u, "", max);
    var rest := Pair(Added(Hashes(map[u := ""], map[u := 0]), u, ""), Idle, map[("b", "t") := u]);
    assert Run({"a", "b"}, before, max).value == At(rest, "a", DropUser(u));
    trace := RunAll({"a", "b"}, before, "a", max);
    DropFinished(rest, "a", u, max);
  }

  /** The leaving call has found nobody listed. */
  lemma LeaveFoundNobody(max: nat, u: UserId) returns (trace: seq<Event>)
    requires max >= 1
    ensures Run({"a", "b"}, trace, max) == Some(Pair(NO_HASHES, DropPresence, map[]))
  {
    hide Run;
    var t0 := LeaveHalfDone(max, u);
    OneMore({"a", "b"}, t0, Command("a"), max);
    var t1 := t0 + [Command("a")];
    assert Run({"a", "b"}, t1, max).value == Pair(Hashes(map[], map[u := 0]), DropCount(u), map[]);
    OneMore({"a", "b"}, t1, Command("a"), max);
    var t2 := t1 + [Command("a")];
    assert Run({"a", "b"}, t2, max).value == Pair(NO_HASHES, AskRest, map[]);
    OneMore({"a", "b"}, t2, Command("a"), max);
    trace := t2 + [Command("a")];
    assert Run({"a", "b"}, trace, max).value == Pair(NO_HASHES, DropPresence, map[]);
  }

  /** The same happens to a user that has nothing to do with `u`. */
  lemma InterleavedLeaveDropsAnother(max: nat, u: UserId, v: UserId) returns (trace: seq<Event>)
    requires max >= 1 && u != v
    ensures Run({"a", "b"}, trace, max) == Some(Pair(NO_HASHES, Idle, map[("b", "t") := v]))
  {
    hide Run, Finished;
    var before := LeaveFoundNobody(max, u);
    before := UndisturbedJoin({"a", "b"}, before, "b", "t", v, "", max);
    var rest := Pair(Added(NO_HASHES, v, ""), Idle, map[("b", "t") := v]);
    assert Run({"a", "b"}, before, max).value == At(rest, "a", DropPresence);
    trace := RunAll({"a", "b"}, before, "a", max);
    FinishOne(rest, "a", DropPresence, max);
    FinishOne(rest.(hashes := rest.hashes.(presence := map[])), "a", DropPsock, max);
    FinishIdle(rest.(hashes := NO_HASHES), "a", max);
  }
}
