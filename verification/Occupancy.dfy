/** The occupancy of one channel over all nodes of a cluster, a join or a leave and its
    Redis check uninterrupted. Channels share no key, so one channel is the general case. */
module Occupancy {
  import opened Protocol
  import opened Tables
  import opened RedisStore
  import opened Alternation
  import opened Namespaces
  import Subscriptions

  datatype Report = Occupied | Vacated

  /** Who is subscribed on each node, who claimed the channel, and what was reported. */
  datatype Occ = Occ(subs: map<NodeId, set<SocketId>>, key: Option<NodeId>, reports: seq<Report>)

  const EMPTY: Occ := Occ(map[], None, [])

  /** `heard` are the peers whose count a leave got an answer from. */
  datatype Step = Join(node: NodeId, s: SocketId) | Leave(node: NodeId, s: SocketId, heard: seq<NodeId>)

  ghost predicate Possible(k: Occ, step: Step) {
    match step
    case Join(n, s) => s !in At(k.subs, n)
    case Leave(n, s, heard) => s in At(k.subs, n) && n !in heard
  }

  ghost function Counts(subs: map<NodeId, set<SocketId>>, heard: seq<NodeId>): seq<nat> {
    seq(|heard|, i requires 0 <= i < |heard| => |At(subs, heard[i])|)
  }

  ghost function Next(k: Occ, step: Step): Occ {
    match step
    case Join(n, s) =>
      var joined := k.subs[n := At(k.subs, n) + {s}];
      if At(k.subs, n) == {} && k.key == None then Occ(joined, Some(n), k.reports + [Occupied]) else k.(subs := joined)
    case Leave(n, s, heard) =>
      var left := k.subs[n := At(k.subs, n) - {s}];
      if left[n] == {} && Sum(Counts(left, heard)) == 0 then Occ(left, None, k.reports + [Vacated])
      else k.(subs := left)
  }

  ghost function Run(trace: seq<Step>): Option<Occ>
    decreases |trace|
  {
    if trace == [] then Some(EMPTY)
    else
      var before, step := Run(trace[..|trace| - 1]), trace[|trace| - 1];
      if before.Some? && Possible(before.value, step) then Some(Next(before.value, step)) else None
  }

  /** Some node has a subscriber. */
  ghost predicate Subscribed(k: Occ) { exists n :: n in k.subs && k.subs[n] != {} }

  ghost predicate SubscribedElsewhere(k: Occ, n: NodeId) { exists m :: m in k.subs && m != n && k.subs[m] != {} }

  ghost predicate HeardOfOne(k: Occ, heard: seq<NodeId>) { exists i :: 0 <= i < |heard| && At(k.subs, heard[i]) != {} }

  /** The key is set exactly while somebody is subscribed. */
  ghost predicate Agrees(k: Occ) { k.key.Some? <==> Subscribed(k) }

  lemma {:induction false} SumIsZero(xs: seq<nat>)
    ensures Sum(xs) == 0 <==> forall i :: 0 <= i < |xs| ==> xs[i] == 0
  {
    if xs != [] {
      SumIsZero(xs[..|xs| - 1]);
      assert forall i :: 0 <= i < |xs| - 1 ==> xs[..|xs| - 1][i] == xs[i];
    }
  }

  /** A leave deletes the key exactly when its node has nobody left and no node it
      heard from has anybody. */
  lemma LeaveVerdict(k: Occ, n: NodeId, s: SocketId, heard: seq<NodeId>)
    requires Possible(k, Leave(n, s, heard))
    ensures var k' := Next(k, Leave(n, s, heard));
            if At(k.subs, n) == {s} && !HeardOfOne(k, heard) then k'.key == None && k'.reports == k.reports + [Vacated]
            else k'.key == k.key && k'.reports == k.reports
  {
    var left := k.subs[n := At(k.subs, n) - {s}];
    var counts := Counts(left, heard);
    SumIsZero(counts);
    if HeardOfOne(k, heard) {
      var i :| 0 <= i < |heard| && At(k.subs, heard[i]) != {};
      assert heard[i] in heard && counts[i] > 0;
    } else {
      forall i | 0 <= i < |counts| ensures counts[i] == 0 {
        assert heard[i] in heard && At(k.subs, heard[i]) == {};
      }
    }
    assert left[n] == {} <==> At(k.subs, n) == {s};
  }

  /** Exactly when a leave is safe: its node keeps a subscriber, or no other node has
      one, or it heard of one. An unanswered request makes a false vacate otherwise. */
  lemma LeaveIsSafeIff(k: Occ, n: NodeId, s: SocketId, heard: seq<NodeId>)
    requires Agrees(k) && Possible(k, Leave(n, s, heard))
    ensures Agrees(Next(k, Leave(n, s, heard))) <==>
            (At(k.subs, n) != {s} || !SubscribedElsewhere(k, n) || HeardOfOne(k, heard))
  {
    var k' := Next(k, Leave(n, s, heard));
    LeaveVerdict(k, n, s, heard);
    HeardMeansElsewhere(k, n, heard);
    assert n in k.subs && k.subs[n] != {};
    assert forall m :: m in k'.subs && m != n ==> k'.subs[m] == k.subs[m];
    if SubscribedElsewhere(k, n) {
      var m :| m in k.subs && m != n && k.subs[m] != {};
      assert k'.subs[m] != {};
    } else {
      assert Subscribed(k') <==> k'.subs[n] != {};
    }
  }

  lemma HeardMeansElsewhere(k: Occ, n: NodeId, heard: seq<NodeId>)
    requires n !in heard
    ensures HeardOfOne(k, heard) ==> SubscribedElsewhere(k, n)
  {
  }

  lemma JoinKeepsAgrees(k: Occ, n: NodeId, s: SocketId)
    requires Agrees(k)
    ensures Agrees(Next(k, Join(n, s)))
  {
    var k' := Next(k, Join(n, s));
    assert n in k'.subs && s in k'.subs[n];
  }

  /** A leave that empties its node heard of whoever is subscribed elsewhere, if anybody
      is. One that does not empty it asks nobody. */
  ghost predicate Safe(k: Occ, step: Step) {
    step.Leave? && At(k.subs, step.node) == {step.s} && SubscribedElsewhere(k, step.node) ==> HeardOfOne(k, step.heard)
  }

  ghost predicate Answered(trace: seq<Step>)
    requires Run(trace).Some?
    decreases |trace|
  {
    trace == [] ||
    var before, step := trace[..|trace| - 1], trace[|trace| - 1];
    Answered(before) && Safe(Run(before).value, step)
  }

  /** Every peer answers: then in particular every leave is answered. */
  lemma FullAnswersSuffice(k: Occ, n: NodeId, heard: seq<NodeId>)
    requires forall m :: m in k.subs && m != n ==> m in heard
    ensures SubscribedElsewhere(k, n) ==> HeardOfOne(k, heard)
  {
  }

  /** A request yields either nothing or as many responses as there are known peers. If
      each known peer answers once, yielding anything means having heard of them all. */
  lemma CollectedAnswersSuffice(k: Occ, n: NodeId, s: SocketId, heard: seq<NodeId>, known: set<NodeId>)
    requires Subscriptions.Distinct(heard) && (forall m :: m in heard ==> m in known) && |heard| == |known|
    requires forall m :: m in k.subs && m != n && k.subs[m] != {} ==> m in known
    ensures Safe(k, Leave(n, s, heard))
  {
    AllHeard(heard, known);
    if SubscribedElsewhere(k, n) {
      var m :| m in k.subs && m != n && k.subs[m] != {};
      var i :| 0 <= i < |heard| && heard[i] == m;
    }
  }

  lemma {:induction false} AllHeard(heard: seq<NodeId>, known: set<NodeId>)
    requires Subscriptions.Distinct(heard) && (forall m :: m in heard ==> m in known) && |heard| == |known|
    ensures forall m :: m in known ==> m in heard
    decreases |heard|
  {
    if heard == [] {
      assert known == {};
    } else {
      var rest, last := heard[..|heard| - 1], heard[|heard| - 1];
      assert heard == rest + [last] && last in heard;
      AllHeard(rest, known - {last});
    }
  }

  /** What has been reported is in turn, and the last report is true. */
  ghost predicate Truthful(k: Occ) { Toggle(k.reports, Occupied, Vacated) == Some(Subscribed(k)) }

  ghost predicate AlwaysTruthful(trace: seq<Step>)
    requires Run(trace).Some?
    decreases |trace|
  {
    Truthful(Run(trace).value) && (trace == [] || AlwaysTruthful(trace[..|trace| - 1]))
  }

  lemma TruthfulIffSafe(k: Occ, step: Step)
    requires Agrees(k) && Truthful(k) && Possible(k, step)
    ensures Truthful(Next(k, step)) <==> Safe(k, step)
    ensures Agrees(Next(k, step)) <==> Safe(k, step)
  {
    match step
    case Join(n, s) =>
      JoinKeepsAgrees(k, n, s);
      ToggleOne(k.reports, Occupied, Occupied, Vacated);
    case Leave(n, s, heard) =>
      LeaveIsSafeIff(k, n, s, heard);
      LeaveVerdict(k, n, s, heard);
      assert n in k.subs && k.subs[n] != {};
      ToggleOne(k.reports, Vacated, Occupied, Vacated);
  }

  /** Over every run: occupied and vacated alternate over the whole cluster, the last one
      telling at every point whether any node has a subscriber, if and only if every
      leave that empties its node hears of whoever is subscribed elsewhere. Then the key
      is set exactly while somebody is. */
  lemma {:induction false} OccupancyAlternatesIff(trace: seq<Step>)
    requires Run(trace).Some?
    ensures AlwaysTruthful(trace) <==> Answered(trace)
    ensures Answered(trace) ==> Truthful(Run(trace).value) && Agrees(Run(trace).value)
    decreases |trace|
  {
    if trace != [] {
      var before := trace[..|trace| - 1];
      OccupancyAlternatesIff(before);
      if Answered(before) {
        TruthfulIffSafe(Run(before).value, trace[|trace| - 1]);
      }
    }
  }

  lemma RunOne(trace: seq<Step>, step: Step)
    requires Run(trace).Some? && Possible(Run(trace).value, step)
    ensures Run(trace + [step]) == Some(Next(Run(trace).value, step))
  {
    assert (trace + [step])[..|trace + [step]| - 1] == trace;
  }

  /** Silent peers break it: the second subscriber's node never answers, so the channel
      is reported vacated twice, the first time with a subscriber still there. */
  lemma SilenceVacatesTwice(a: NodeId, b: NodeId, s: SocketId, t: SocketId)
    requires a != b
    ensures var trace := [Join(a, s), Join(b, t), Leave(a, s, []), Leave(b, t, [])];
            && Run(trace[..3]).Some? && Subscribed(Run(trace[..3]).value)
            && Run(trace[..3]).value.reports == [Occupied, Vacated]
            && Run(trace).Some? && Toggle(Run(trace).value.reports, Occupied, Vacated) == None
  {
    var j1, j2, l1, l2 := Join(a, s), Join(b, t), Leave(a, s, []), Leave(b, t, []);
    var trace := [j1, j2, l1, l2];
    RunOne([], j1);
    RunOne([] + [j1], j2);
    RunOne([] + [j1] + [j2], l1);
    LeaveVerdict(Run([] + [j1] + [j2]).value, a, s, []);
    assert trace[..3] == [] + [j1] + [j2] + [l1];
    var k := Run(trace[..3]).value;
    assert k.subs[b] == {t};
    RunOne(trace[..3], l2);
    LeaveVerdict(k, b, t, []);
    assert trace == trace[..3] + [l2];
    ToggleOne([], Occupied, Occupied, Vacated);
    ToggleOne([Occupied], Vacated, Occupied, Vacated);
    ToggleOne([Occupied, Vacated], Vacated, Occupied, Vacated);
    assert [] + [Occupied] == [Occupied] && [Occupied] + [Vacated] == [Occupied, Vacated];
  }

  // -- presence channels ----------------------------------------------------------------------

  /** A presence channel is reported occupied by every node whose table was empty, without
      asking for the key; vacated as any other. */
  ghost function NextPresence(k: Occ, step: Step): Occ {
    match step
    case Join(n, s) =>
      k.(subs := k.subs[n := At(k.subs, n) + {s}],
         reports := k.reports + if At(k.subs, n) == {} then [Occupied] else [])
    case Leave(_, _, _) => Next(k, step)
  }

  ghost function RunPresence(trace: seq<Step>): Option<Occ>
    decreases |trace|
  {
    if trace == [] then Some(EMPTY)
    else
      var before, step := RunPresence(trace[..|trace| - 1]), trace[|trace| - 1];
      if before.Some? && Possible(before.value, step) then Some(NextPresence(before.value, step)) else None
  }

  /** Nor is the step a subscription that finds its own node empty and another not. */
  ghost predicate SafePresence(k: Occ, step: Step) {
    && Safe(k, step)
    && !(step.Join? && At(k.subs, step.node) == {} && SubscribedElsewhere(k, step.node))
  }

  lemma PresenceTruthfulIffSafe(k: Occ, step: Step)
    requires Truthful(k) && Possible(k, step)
    ensures Truthful(NextPresence(k, step)) <==> SafePresence(k, step)
  {
    var k' := NextPresence(k, step);
    match step
    case Join(n, s) =>
      assert n in k'.subs && s in k'.subs[n];
      assert k.reports + [] == k.reports;
      assert Subscribed(k) <==> At(k.subs, n) != {} || SubscribedElsewhere(k, n);
      ToggleOne(k.reports, Occupied, Occupied, Vacated);
    case Leave(n, s, heard) =>
      var keyed := k.(key := if Subscribed(k) then Some(n) else None);
      assert Agrees(keyed) && Truthful(keyed);
      TruthfulIffSafe(keyed, step);
      assert Safe(keyed, step) <==> Safe(k, step);
      assert Subscribed(Next(keyed, step)) <==> Subscribed(k');
  }

  ghost predicate AlwaysTruthfulPresence(trace: seq<Step>)
    requires RunPresence(trace).Some?
    decreases |trace|
  {
    Truthful(RunPresence(trace).value) && (trace == [] || AlwaysTruthfulPresence(trace[..|trace| - 1]))
  }

  ghost predicate NeverMisjudges(trace: seq<Step>)
    requires RunPresence(trace).Some?
    decreases |trace|
  {
    trace == [] ||
    var before, step := trace[..|trace| - 1], trace[|trace| - 1];
    NeverMisjudges(before) && SafePresence(RunPresence(before).value, step)
  }

  /** Over every run the webhooks of a presence channel alternate over the whole cluster
      and tell the truth if and only if no subscription is its node's first while another
      node has subscribers, and every leave that empties its node hears of them. */
  lemma {:induction false} PresenceOccupancyAlternatesIff(trace: seq<Step>)
    requires RunPresence(trace).Some?
    ensures AlwaysTruthfulPresence(trace) <==> NeverMisjudges(trace)
    ensures NeverMisjudges(trace) ==> Truthful(RunPresence(trace).value)
    decreases |trace|
  {
    if trace != [] {
      var before := trace[..|trace| - 1];
      PresenceOccupancyAlternatesIff(before);
      if NeverMisjudges(before) {
        PresenceTruthfulIffSafe(RunPresence(before).value, trace[|trace| - 1]);
      }
    }
  }

  // -- the adapter takes these steps ----------------------------------------------------------

  /** The channel as one node and Redis see it; `others` are the other nodes. */
  ghost function Seen(a: RedisAdapter, channel: Channel, others: map<NodeId, set<SocketId>>, reports: seq<Report>): Occ
    reads a.local`channels, a.redis`occupied
  {
    Occ(others[a.nodeId := At(a.local.channels, channel)],
        if channel in a.redis.occupied then Some(a.redis.occupied[channel]) else None, reports)
  }

  method JoinChannel(a: RedisAdapter, channel: Channel, s: SocketId, ghost others: map<NodeId, set<SocketId>>,
                     ghost reports: seq<Report>)
    returns (occupied: bool)
    requires a.local.Valid()
    modifies a.local`channels, a.local`socketChannels, a.redis`occupied
    ensures a.local.Valid()
    ensures Seen(a, channel, others, reports + if occupied then [Occupied] else [])
         == Next(old(Seen(a, channel, others, reports)), Join(a.nodeId, s))
    ensures forall d :: d != channel ==> Seen(a, d, others, reports) == old(Seen(a, d, others, reports))
  {
    hide Namespace.Valid, After;
    JoinSeen(a, channel, s, others, reports);
    var first := a.local.AddToChannel(s, channel);
    occupied := a.IsChannelGloballyOccupied(channel, first);
  }

  method LeaveChannel(a: RedisAdapter, channel: Channel, s: SocketId, counts: seq<nat>, ghost heard: seq<NodeId>,
                      ghost others: map<NodeId, set<SocketId>>, ghost reports: seq<Report>)
    returns (vacated: bool)
    requires a.local.Valid() && Possible(Seen(a, channel, others, reports), Leave(a.nodeId, s, heard))
    requires counts == Counts(others, heard)
    modifies a.local`channels, a.local`socketChannels, a.redis`occupied
    ensures a.local.Valid()
    ensures Seen(a, channel, others, reports + if vacated then [Vacated] else [])
         == Next(old(Seen(a, channel, others, reports)), Leave(a.nodeId, s, heard))
    ensures forall d :: d != channel ==> Seen(a, d, others, reports) == old(Seen(a, d, others, reports))
  {
    hide Namespace.Valid, After;
    LeaveSeen(a, channel, s, heard, others, reports);
    var last := a.local.RemoveFromChannel(s, channel);
    vacated := a.IsChannelGloballyVacated(channel, last, counts);
  }

  /** What the two tables involved will hold, and what that amounts to. */
  lemma JoinSeen(a: RedisAdapter, channel: Channel, s: SocketId, others: map<NodeId, set<SocketId>>,
                 reports: seq<Report>)
    ensures var k, after := Seen(a, channel, others, reports), After(a.local.View(), AddToChannel(s, channel)).channels;
            && Next(k, Join(a.nodeId, s)).subs == others[a.nodeId := At(after, channel)]
            && (forall d :: d != channel ==> At(after, d) == At(a.local.channels, d))
    ensures reports + [] == reports
  {
  }

  lemma LeaveSeen(a: RedisAdapter, channel: Channel, s: SocketId, heard: seq<NodeId>,
                  others: map<NodeId, set<SocketId>>, reports: seq<Report>)
    requires a.nodeId !in heard
    ensures var k := Seen(a, channel, others, reports);
            var after := After(a.local.View(), RemoveFromChannel(s, channel)).channels;
            && Next(k, Leave(a.nodeId, s, heard)).subs == others[a.nodeId := At(after, channel)]
            && Counts(others[a.nodeId := At(after, channel)], heard) == Counts(others, heard)
            && (forall d :: d != channel ==> At(after, d) == At(a.local.channels, d))
    ensures reports + [] == reports
  {
    var after := After(a.local.View(), RemoveFromChannel(s, channel)).channels;
    var left := At(a.local.channels, channel) - {s};
    assert At(after, channel) == left;
    assert others[a.nodeId := At(a.local.channels, channel)][a.nodeId := left] == others[a.nodeId := left];
    assert forall i :: 0 <= i < |heard| ==> heard[i] in heard;
    assert Counts(others[a.nodeId := At(after, channel)], heard) == Counts(others, heard);
  }
}
