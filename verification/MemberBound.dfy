/** How many users a presence channel lists at most when the commands of a cluster's
    nodes interleave freely. */
module MemberBound {
  import opened Protocol
  import opened RedisStore
  import opened Commands

  // -- the bound --------------------------------------------------------------------------

  /** Calls past their limit check that may still store their user. */
  predicate Admitted(pc: Pc) { pc.Increment? || pc.Store? }

  /** Calls that saw room and have yet to look for their user. */
  predicate SawRoom(pc: Pc, max: nat) { pc.AskExists? && pc.len < max }

  ghost function AdmittedNodes(nodes: map<NodeId, Pc>): set<NodeId> { set n | n in nodes && Admitted(nodes[n]) }

  ghost function RoomNodes(nodes: map<NodeId, Pc>, max: nat): set<NodeId> {
    set n | n in nodes && SawRoom(nodes[n], max)
  }

  ghost function AdmittedUsers(nodes: map<NodeId, Pc>): set<UserId> {
    set n | n in nodes && Admitted(nodes[n]) :: nodes[n].user
  }

  /** Users listed or about to be. */
  ghost function Claimed(k: Cluster): set<UserId> { k.hashes.presence.Keys + AdmittedUsers(k.nodes) }

  ghost predicate Bounded(k: Cluster, max: nat) {
    |Claimed(k)| + |RoomNodes(k.nodes, max)| <= max + |k.nodes| - 1
  }

  lemma SubsetIsSmaller<T>(a: set<T>, b: set<T>)
    requires a <= b
    ensures |a| <= |b|
  {
    assert b == a + (b - a);
  }

  /** A set has no more images than members. */
  lemma {:induction false} FewerUsersThanNodes(nodes: map<NodeId, Pc>, some: set<NodeId>)
    requires forall n :: n in some ==> n in nodes && Admitted(nodes[n])
    ensures |set n | n in some && n in nodes && Admitted(nodes[n]) :: nodes[n].user| <= |some|
    decreases |some|
  {
    var users := set n | n in some && n in nodes && Admitted(nodes[n]) :: nodes[n].user;
    if some != {} {
      var n :| n in some;
      var fewer := set m | m in some - {n} && m in nodes && Admitted(nodes[m]) :: nodes[m].user;
      FewerUsersThanNodes(nodes, some - {n});
      assert users == fewer + {nodes[n].user};
    }
  }

  /** At most one pending claim or admission per node. */
  lemma ClaimsPerNode(nodes: map<NodeId, Pc>, max: nat, idle: set<NodeId>)
    requires idle <= nodes.Keys
    requires forall n :: n in idle ==> !Admitted(nodes[n]) && !SawRoom(nodes[n], max)
    ensures |AdmittedUsers(nodes)| + |RoomNodes(nodes, max)| + |idle| <= |nodes|
  {
    var a, r := AdmittedNodes(nodes), RoomNodes(nodes, max);
    FewerUsersThanNodes(nodes, a);
    assert AdmittedUsers(nodes) == set n | n in a && n in nodes && Admitted(nodes[n]) :: nodes[n].user;
    assert a !! r && (a + r) !! idle;
    SubsetIsSmaller(a + r + idle, nodes.Keys);
    assert |nodes| == |nodes.Keys|;
  }

  /** Reading a length below the limit re-establishes the bound from scratch. */
  lemma ReadingRoomIsBounded(k: Cluster, n: NodeId, max: nat)
    requires n in k.nodes && k.nodes[n].AskLen? && |k.hashes.presence| < max
    ensures Bounded(Next(k, Command(n), max), max)
  {
    var k' := Next(k, Command(n), max);
    ClaimsPerNode(k'.nodes, max, {});
    UnionIsSmaller(k.hashes.presence.Keys, AdmittedUsers(k'.nodes));
    assert |k.hashes.presence| == |k.hashes.presence.Keys|;
    assert |k'.nodes| >= 1;
    assert Claimed(k') == k.hashes.presence.Keys + AdmittedUsers(k'.nodes);
  }

  lemma UnionIsSmaller<T>(a: set<T>, b: set<T>)
    ensures |a + b| <= |a| + |b|
  {
    assert |a + b| == |a| + |b| - |a * b|;
  }

  /** The room a node saw turns into the user it admits, or into nothing. */
  lemma OthersUnmoved(nodes: map<NodeId, Pc>, n: NodeId, pc: Pc, max: nat)
    requires n in nodes
    ensures RoomNodes(nodes[n := pc], max) == RoomNodes(nodes, max) - {n} + if SawRoom(pc, max) then {n} else {}
    ensures AdmittedUsers(nodes[n := pc]) <= AdmittedUsers(nodes) + if Admitted(pc) then {pc.user} else {}
    ensures Admitted(nodes[n]) ==> nodes[n].user in AdmittedUsers(nodes)
    ensures nodes[n := pc].Keys == nodes.Keys
  {
  }

  /** What a step means for the node that takes it: it lists only a user it had
      admitted, admits only a user it has room for or finds listed, and sees room only
      by reading a length below the limit. */
  lemma StepClaims(k: Cluster, e: Event, max: nat)
    requires Enabled(k, e)
    ensures var k' := Next(k, e, max);
            && e.node in k'.nodes
            && k'.nodes == k.nodes[e.node := k'.nodes[e.node]]
            && var pc, pc' := k.nodes[e.node], k'.nodes[e.node];
               && k'.hashes.presence.Keys <= k.hashes.presence.Keys + (if Admitted(pc) then {pc.user} else {})
               && (Admitted(pc') ==>
                     SawRoom(pc, max) || pc'.user in k.hashes.presence || (Admitted(pc) && pc'.user == pc.user))
               && (SawRoom(pc, max) && Admitted(pc') ==> k'.hashes == k.hashes && !Admitted(pc))
               && (SawRoom(pc', max) ==> e.Command? && pc.AskLen? && |k.hashes.presence| < max)
  {
    if e.Command? {
      hide Execute;
      CommandClaims(k.hashes, k.nodes[e.node], max);
    }
  }

  lemma CommandClaims(h: Hashes, pc: Pc, max: nat)
    requires pc != Idle
    ensures var (h', pc') := Execute(h, pc, max);
            && h'.presence.Keys <= h.presence.Keys + (if Admitted(pc) then {pc.user} else {})
            && (Admitted(pc') ==> SawRoom(pc, max) || pc'.user in h.presence || (Admitted(pc) && pc'.user == pc.user))
            && (SawRoom(pc, max) && Admitted(pc') ==> h' == h && !Admitted(pc))
            && (SawRoom(pc', max) ==> pc.AskLen? && |h.presence| < max)
  {
  }

  /** Every step but reading a length below the limit spends room or gives users up. */
  lemma OtherStepsKeepBounded(k: Cluster, e: Event, max: nat)
    requires Bounded(k, max) && Enabled(k, e)
    requires !(e.Command? && k.nodes[e.node].AskLen? && |k.hashes.presence| < max)
    ensures Bounded(Next(k, e, max), max)
  {
    hide Next, Execute, RoomNodes, AdmittedUsers;
    var k' := Next(k, e, max);
    StepClaims(k, e, max);
    OthersUnmoved(k.nodes, e.node, k'.nodes[e.node], max);
    assert |k'.nodes| == |k'.nodes.Keys| && |k.nodes| == |k.nodes.Keys|;
    if SawRoom(k.nodes[e.node], max) && Admitted(k'.nodes[e.node]) {
      RoomBecomesUser(k, k', e.node, max);
    } else {
      ClaimsOnlyShrink(k, e, max);
      SubsetIsSmaller(Claimed(k'), Claimed(k));
      SubsetIsSmaller(RoomNodes(k'.nodes, max), RoomNodes(k.nodes, max));
    }
  }

  lemma RoomBecomesUser(k: Cluster, k': Cluster, n: NodeId, max: nat)
    requires n in k.nodes && SawRoom(k.nodes[n], max) && n in k'.nodes && Admitted(k'.nodes[n])
    requires k'.hashes == k.hashes && k'.nodes == k.nodes[n := k'.nodes[n]]
    ensures |Claimed(k')| + |RoomNodes(k'.nodes, max)| <= |Claimed(k)| + |RoomNodes(k.nodes, max)|
  {
    OthersUnmoved(k.nodes, n, k'.nodes[n], max);
    assert n in RoomNodes(k.nodes, max);
    hide RoomNodes, AdmittedUsers;
    SubsetIsSmaller(Claimed(k'), Claimed(k) + {k'.nodes[n].user});
    UnionIsSmaller(Claimed(k), {k'.nodes[n].user});
  }

  lemma ClaimsOnlyShrink(k: Cluster, e: Event, max: nat)
    requires Enabled(k, e)
    requires !(SawRoom(k.nodes[e.node], max) && Admitted(Next(k, e, max).nodes[e.node]))
    ensures Claimed(Next(k, e, max)) <= Claimed(k)
  {
    hide Next, Execute, RoomNodes, AdmittedUsers;
    StepClaims(k, e, max);
    OthersUnmoved(k.nodes, e.node, Next(k, e, max).nodes[e.node], max);
  }

  lemma {:induction false} RunIsBounded(nodes: set<NodeId>, trace: seq<Event>, max: nat)
    requires nodes != {} && Run(nodes, trace, max).Some?
    ensures Bounded(Run(nodes, trace, max).value, max)
    ensures Run(nodes, trace, max).value.nodes.Keys == nodes
    decreases |trace|
  {
    if trace == [] {
      assert Claimed(Start(nodes)) == {} && RoomNodes(Start(nodes).nodes, max) == {};
      assert |Start(nodes).nodes| == |Start(nodes).nodes.Keys|;
    } else {
      var before, e := Run(nodes, trace[..|trace| - 1], max).value, trace[|trace| - 1];
      RunIsBounded(nodes, trace[..|trace| - 1], max);
      if e.Command? && before.nodes[e.node].AskLen? && |before.hashes.presence| < max {
        ReadingRoomIsBounded(before, e.node, max);
      } else {
        OtherStepsKeepBounded(before, e, max);
      }
    }
  }

  /** However the commands of N nodes interleave, at most max + N - 1 users are listed
      or about to be: the limit exactly on one node, one more per further node. */
  lemma {:induction false} MembersAtMostLimitPlusOthers(nodes: set<NodeId>, trace: seq<Event>, max: nat)
    requires nodes != {} && Run(nodes, trace, max).Some?
    ensures var k := Run(nodes, trace, max).value;
            && |Claimed(k)| <= max + |nodes| - 1
            && |k.hashes.presence| <= max + |nodes| - 1
  {
    RunIsBounded(nodes, trace, max);
    var k := Run(nodes, trace, max).value;
    SubsetIsSmaller(k.hashes.presence.Keys, Claimed(k));
    assert |k.hashes.presence| == |k.hashes.presence.Keys| && |k.nodes| == |k.nodes.Keys|;
  }

  /** A limit of zero lists nobody, ever. */
  lemma {:induction false} ZeroLimitListsNobody(nodes: set<NodeId>, trace: seq<Event>)
    requires Run(nodes, trace, 0).Some?
    ensures Claimed(Run(nodes, trace, 0).value) == {}
    decreases |trace|
  {
    if trace != [] {
      var before := trace[..|trace| - 1];
      ZeroLimitListsNobody(nodes, before);
      ClaimsOnlyShrink(Run(nodes, before, 0).value, trace[|trace| - 1], 0);
    }
  }

  // -- the bound is met ------------------------------------------------------------------

  /** A different new user for every node. */
  ghost predicate Assigns(who: map<NodeId, UserId>, used: nat) {
    && (forall n :: n in who ==> who[n] !in Names(used))
    && (forall n, m :: n in who && m in who && n != m ==> who[n] != who[m])
  }

  lemma {:induction false} AssignUsers(nodes: set<NodeId>, used: nat) returns (who: map<NodeId, UserId>)
    ensures who.Keys == nodes && Assigns(who, used) && who.Values <= Names(used + |nodes|)
    decreases |nodes|
  {
    if nodes == {} {
      who := map[];
    } else {
      var n :| n in nodes;
      var rest := AssignUsers(nodes - {n}, used);
      NamesDiffer(used + |nodes| - 1);
      NamesDiffer(used);
      who := rest[n := Name(used + |nodes| - 1)];
      assert Name(used + |nodes| - 1) in Names(used + |nodes|);
      forall m | m in rest ensures rest[m] in Names(used + |nodes| - 1) && rest[m] in Names(used + |nodes|) {
        assert rest[m] in rest.Values;
      }
      assert Names(used) <= Names(used + |nodes| - 1);
    }
  }

  /** What the nodes stand at once those in `waiting` have read a length of `len`. */
  ghost function Waiting(nodes: set<NodeId>, waiting: set<NodeId>, who: map<NodeId, UserId>, len: nat): map<NodeId, Pc>
    requires nodes <= who.Keys
  {
    map n | n in nodes :: if n in waiting then AskExists(who[n], who[n], "", len) else Idle
  }

  /** The users listed each came in through one socket, of the same name. */
  ghost predicate Lists(k: Cluster, users: set<UserId>) {
    && k.hashes.presence.Keys == users && k.hashes.psock.Keys == users
    && forall seat :: seat in k.seats ==> seat.1 in users
  }

  /** One node admits users in turn, up to the limit. */
  lemma {:induction false} Fill(nodes: set<NodeId>, n: NodeId, users: nat, max: nat) returns (trace: seq<Event>)
    requires n in nodes && users <= max
    ensures Run(nodes, trace, max).Some?
    ensures var k := Run(nodes, trace, max).value;
            k.nodes == Start(nodes).nodes && Lists(k, Names(users))
  {
    if users == 0 {
      trace := [];
      assert Names(0) == {};
    } else {
      trace := Fill(nodes, n, users - 1, max);
      trace := FillNext(nodes, trace, n, users - 1, max);
    }
  }

  lemma FillNext(nodes: set<NodeId>, trace: seq<Event>, n: NodeId, users: nat, max: nat) returns (longer: seq<Event>)
    requires n in nodes && users < max && Run(nodes, trace, max).Some?
    requires Run(nodes, trace, max).value.nodes == Start(nodes).nodes
    requires Lists(Run(nodes, trace, max).value, Names(users))
    ensures Run(nodes, longer, max).Some?
    ensures Run(nodes, longer, max).value.nodes == Start(nodes).nodes
    ensures Lists(Run(nodes, longer, max).value, Names(users + 1))
  {
    hide Run, Name;
    var k := Run(nodes, trace, max).value;
    NamesDiffer(users);
    assert |k.hashes.presence| == |k.hashes.presence.Keys|;
    longer := Begin(nodes, trace, n, Name(users), max);
    longer := Admit(nodes, longer, n, Name(users), users, max);
    assert Names(users + 1) == Names(users) + {Name(users)};
  }

  /** A node reads how many are listed. */
  lemma Begin(nodes: set<NodeId>, trace: seq<Event>, n: NodeId, u: UserId, max: nat) returns (longer: seq<Event>)
    requires Run(nodes, trace, max).Some? && n in Run(nodes, trace, max).value.nodes
    requires Run(nodes, trace, max).value.nodes[n] == Idle && (n, u) !in Run(nodes, trace, max).value.seats
    ensures var k := Run(nodes, trace, max).value;
            Run(nodes, longer, max) == Some(k.(nodes := k.nodes[n := AskExists(u, u, "", |k.hashes.presence|)]))
  {
    OneMore(nodes, trace, BeginAdd(n, u, u, ""), max);
    OneMore(nodes, trace + [BeginAdd(n, u, u, "")], Command(n), max);
    longer := trace + [BeginAdd(n, u, u, "")] + [Command(n)];
    var k := Run(nodes, trace, max).value;
    var asked := AskExists(u, u, "", |k.hashes.presence|);
    assert k.nodes[n := AskLen(u, u, "")][n := asked] == k.nodes[n := asked];
  }

  /** A node that saw room admits a new user, whatever has happened since. */
  lemma Admit(nodes: set<NodeId>, trace: seq<Event>, n: NodeId, u: UserId, len: nat, max: nat)
    returns (longer: seq<Event>)
    requires Run(nodes, trace, max).Some? && n in Run(nodes, trace, max).value.nodes
    requires Run(nodes, trace, max).value.nodes[n] == AskExists(u, u, "", len) && len < max
    requires u !in Run(nodes, trace, max).value.hashes.psock
    ensures var k := Run(nodes, trace, max).value;
            Run(nodes, longer, max) ==
              Some(Cluster(Hashes(k.hashes.presence[u := ""], k.hashes.psock[u := 1]), k.nodes[n := Idle],
                           k.seats[(n, u) := u]))
  {
    var k := Run(nodes, trace, max).value;
    OneMore(nodes, trace, Command(n), max);
    OneMore(nodes, trace + [Command(n)], Command(n), max);
    OneMore(nodes, trace + [Command(n)] + [Command(n)], Command(n), max);
    longer := trace + [Command(n)] + [Command(n)] + [Command(n)];
    assert k.nodes[n := Increment(u, u, "")][n := Store(u, u, "")][n := Idle] == k.nodes[n := Idle];
  }

  lemma {:induction false} AllSeeRoom(nodes: set<NodeId>, first: seq<Event>, waiting: set<NodeId>,
                                      who: map<NodeId, UserId>, max: nat)
    returns (trace: seq<Event>)
    requires who.Keys == nodes && waiting <= nodes
    requires Run(nodes, first, max).Some? && Run(nodes, first, max).value.nodes == Start(nodes).nodes
    requires forall n :: n in nodes ==> (n, who[n]) !in Run(nodes, first, max).value.seats
    ensures var k := Run(nodes, first, max).value;
            Run(nodes, trace, max) == Some(k.(nodes := Waiting(nodes, waiting, who, |k.hashes.presence|)))
    decreases |waiting|
  {
    hide *;
    var k := Run(nodes, first, max).value;
    if waiting == {} {
      trace := first;
      NobodyIsWaiting(nodes, who, |k.hashes.presence|);
    } else {
      var n :| n in waiting;
      trace := AllSeeRoom(nodes, first, waiting - {n}, who, max);
      OneMoreWaits(nodes, waiting, n, who, |k.hashes.presence|);
      trace := Begin(nodes, trace, n, who[n], max);
    }
  }

  lemma NobodyIsWaiting(nodes: set<NodeId>, who: map<NodeId, UserId>, len: nat)
    requires nodes <= who.Keys
    ensures Waiting(nodes, {}, who, len) == Start(nodes).nodes
  {
  }

  lemma OneMoreWaits(nodes: set<NodeId>, waiting: set<NodeId>, n: NodeId, who: map<NodeId, UserId>, len: nat)
    requires nodes <= who.Keys && n in waiting && waiting <= nodes
    ensures var before := Waiting(nodes, waiting - {n}, who, len);
            && n in before && before[n] == Idle
            && before[n := AskExists(who[n], who[n], "", len)] == Waiting(nodes, waiting, who, len)
  {
  }

  ghost function Users(who: map<NodeId, UserId>, some: set<NodeId>): set<UserId> {
    set n | n in some && n in who :: who[n]
  }

  lemma {:induction false} AllAdmit(nodes: set<NodeId>, first: seq<Event>, done: set<NodeId>,
                                    who: map<NodeId, UserId>, max: nat)
    returns (trace: seq<Event>)
    requires who.Keys == nodes && done <= nodes && max >= 1 && Assigns(who, max - 1)
    requires Run(nodes, first, max).Some? && Run(nodes, first, max).value.nodes == Waiting(nodes, nodes, who, max - 1)
    requires Lists(Run(nodes, first, max).value, Names(max - 1))
    ensures Run(nodes, trace, max).Some?
    ensures Run(nodes, trace, max).value.nodes == Waiting(nodes, nodes - done, who, max - 1)
    ensures Lists(Run(nodes, trace, max).value, Names(max - 1) + Users(who, done))
    decreases |done|
  {
    hide *;
    if done == {} {
      trace := first;
      NobodyYet(nodes, who, Names(max - 1));
    } else {
      var n :| n in done;
      trace := AllAdmit(nodes, first, done - {n}, who, max);
      trace := AdmitNext(nodes, trace, done, n, who, max);
    }
  }

  lemma NobodyYet(nodes: set<NodeId>, who: map<NodeId, UserId>, names: set<UserId>)
    ensures nodes - {} == nodes && names + Users(who, {}) == names
  {
  }

  lemma AdmitNext(nodes: set<NodeId>, trace: seq<Event>, done: set<NodeId>, n: NodeId, who: map<NodeId, UserId>,
                  max: nat)
    returns (longer: seq<Event>)
    requires who.Keys == nodes && done <= nodes && n in done && max >= 1 && Assigns(who, max - 1)
    requires Run(nodes, trace, max).Some?
    requires Run(nodes, trace, max).value.nodes == Waiting(nodes, nodes - (done - {n}), who, max - 1)
    requires Lists(Run(nodes, trace, max).value, Names(max - 1) + Users(who, done - {n}))
    ensures Run(nodes, longer, max).Some?
    ensures Run(nodes, longer, max).value.nodes == Waiting(nodes, nodes - done, who, max - 1)
    ensures Lists(Run(nodes, longer, max).value, Names(max - 1) + Users(who, done))
  {
    hide Waiting, Users, Names, Run, Assigns, Start;
    OneUserMore(nodes, done, who, n, max - 1);
    longer := Admit(nodes, trace, n, who[n], max - 1, max);
  }

  lemma OneUserMore(nodes: set<NodeId>, done: set<NodeId>, who: map<NodeId, UserId>, n: NodeId, used: nat)
    requires who.Keys == nodes && done <= nodes && n in done && Assigns(who, used)
    ensures who[n] !in Names(used) && who[n] !in Users(who, done - {n})
    ensures var waiting := Waiting(nodes, nodes - (done - {n}), who, used);
            && n in waiting && waiting[n] == AskExists(who[n], who[n], "", used)
            && waiting[n := Idle] == Waiting(nodes, nodes - done, who, used)
    ensures Users(who, done) == Users(who, done - {n}) + {who[n]}
  {
  }

  lemma {:induction false} AsManyUsers(who: map<NodeId, UserId>, some: set<NodeId>, used: nat)
    requires Assigns(who, used) && some <= who.Keys
    ensures |Users(who, some)| == |some|
    decreases |some|
  {
    if some == {} {
      assert Users(who, some) == {};
    } else {
      var n :| n in some;
      AsManyUsers(who, some - {n}, used);
      assert Users(who, some) == Users(who, some - {n}) + {who[n]};
    }
  }

  /** No smaller bound holds: whatever the nodes and the limit, some interleaving lists
      exactly limit + N - 1 users, with no call left in flight. */
  lemma BoundIsTight(nodes: set<NodeId>, max: nat) returns (trace: seq<Event>)
    requires nodes != {} && max >= 1
    ensures Run(nodes, trace, max).Some?
    ensures Run(nodes, trace, max).value.nodes == Start(nodes).nodes
    ensures |Run(nodes, trace, max).value.hashes.presence| == max + |nodes| - 1
  {
    hide Run, Name, Names, Users, Start, Waiting, Assigns;
    var n :| n in nodes;
    var who := AssignUsers(nodes, max - 1);
    trace := Fill(nodes, n, max - 1, max);
    NewUsersNotSeated(Run(nodes, trace, max).value, who, max - 1);
    trace := AllSeeRoom(nodes, trace, nodes, who, max);
    trace := AllAdmit(nodes, trace, nodes, who, max);
    assert nodes - nodes == {};
    NobodyIsWaiting(nodes, who, max - 1);
    AllListed(Run(nodes, trace, max).value, nodes, who, max - 1);
  }

  lemma NewUsersNotSeated(k: Cluster, who: map<NodeId, UserId>, used: nat)
    requires Lists(k, Names(used)) && Assigns(who, used)
    ensures |k.hashes.presence| == used
    ensures forall n :: n in who ==> (n, who[n]) !in k.seats
  {
    NamesDiffer(used);
    assert |k.hashes.presence| == |k.hashes.presence.Keys|;
    forall n | n in who ensures (n, who[n]) !in k.seats {
      assert who[n] !in Names(used) && (n, who[n]).1 == who[n];
    }
  }

  lemma AllListed(k: Cluster, nodes: set<NodeId>, who: map<NodeId, UserId>, used: nat)
    requires who.Keys == nodes && Assigns(who, used) && Lists(k, Names(used) + Users(who, nodes))
    ensures |k.hashes.presence| == used + |nodes|
  {
    NamesDiffer(used);
    AsManyUsers(who, nodes, used);
    assert Names(used) !! Users(who, nodes);
    assert |k.hashes.presence| == |k.hashes.presence.Keys| == |Names(used) + Users(who, nodes)|;
  }
}
