/** Requests to the other nodes and the collection of their responses, with any number
    of requests and peer discoveries outstanding at once. */
module Collector {
  import opened Protocol
  import opened RedisStore

  type RequestId = string
  type Payload = string

  /** The expected count of a discovery: never reached, so it always waits in full. */
  const USIZE_MAX: nat := 0xFFFF_FFFF_FFFF_FFFF

  /** `sent` is what the one-shot sender has sent; it is gone once it has. */
  datatype Pending = Pending(responses: seq<Payload>, expected: nat, sent: Option<seq<Payload>>)

  /** How a request ended, for the caller that made it. */
  datatype Outcome = PublishFailed | Collected(responses: seq<Payload>)

  datatype Arrival = Arrival(id: RequestId, payload: Payload)

  /** What is known of a request besides its pending entry: how much had arrived when it
      was registered, how many responses it wants, and how it ended. */
  datatype Made = Made(from: nat, expected: nat, outcome: Option<Outcome>)

  /** `log` is every response ever received, `fires` every use of a one-shot sender. */
  datatype Desk = Desk(
    pending: map<RequestId, Pending>,
    known: set<NodeId>,
    made: map<RequestId, Made>,
    log: seq<Arrival>,
    fires: multiset<RequestId>)

  const CLEAR: Desk := Desk(map[], {}, map[], [], multiset{})

  datatype Event =
    | Request(id: RequestId, stale: set<NodeId>, published: bool)
    | Discover(id: RequestId, published: bool)
    | Message(sender: NodeId, response: Option<Arrival>)
    | Resolve(id: RequestId)

  /** Request ids are fresh; a task wakes up only for a request it is waiting for. */
  ghost predicate Possible(k: Desk, e: Event) {
    match e
    case Request(id, _, _) => id !in k.made && id !in k.pending
    case Discover(id, _) => id !in k.made && id !in k.pending
    case Message(_, _) => true
    case Resolve(id) => id in k.made && k.made[id].outcome == None && id in k.pending
  }

  ghost function Register(k: Desk, id: RequestId, expected: nat, outcome: Option<Outcome>): Desk {
    k.(pending := k.pending[id := Pending([], expected, None)], made := k.made[id := Made(|k.log|, expected, outcome)])
  }

  ghost function Respond(k: Desk, a: Arrival): Desk {
    var logged := k.(log := k.log + [a]);
    if a.id !in k.pending then logged
    else
      var p := k.pending[a.id];
      var responses := p.responses + [a.payload];
      if |responses| >= p.expected && p.sent == None
      then logged.(pending := k.pending[a.id := Pending(responses, p.expected, Some(responses))],
                   fires := k.fires + multiset{a.id})
      else logged.(pending := k.pending[a.id := p.(responses := responses)])
  }

  ghost function Next(self: NodeId, k: Desk, e: Event): Desk
    requires Possible(k, e)
  {
    match e
    case Request(id, stale, published) =>
      var counted := k.(known := k.known - stale);
      if counted.known == {} then counted.(made := k.made[id := Made(|k.log|, 0, Some(Collected([])))])
      else Register(counted, id, |counted.known|, if published then None else Some(PublishFailed))
    case Discover(id, published) =>
      if published then Register(k, id, USIZE_MAX, None)
      else k.(made := k.made[id := Made(|k.log|, USIZE_MAX, Some(PublishFailed))])
    case Message(sender, response) =>
      if sender == self then k
      else
        var heard := k.(known := k.known + {sender});
        if response.Some? then Respond(heard, response.value) else heard
    case Resolve(id) =>
      var sent := k.pending[id].sent;
      k.(pending := k.pending - {id},
         made := k.made[id := k.made[id].(outcome := Some(Collected(if sent.Some? then sent.value else [])))])
  }

  ghost function Run(self: NodeId, trace: seq<Event>): Option<Desk>
    decreases |trace|
  {
    if trace == [] then Some(CLEAR)
    else
      var before, e := Run(self, trace[..|trace| - 1]), trace[|trace| - 1];
      if before.Some? && Possible(before.value, e) then Some(Next(self, before.value, e)) else None
  }

  // -- all or nothing -------------------------------------------------------------------------

  /** The payloads that carry `id`, in the order they came. */
  ghost function Carrying(log: seq<Arrival>, id: RequestId): seq<Payload>
    decreases |log|
  {
    if log == [] then []
    else
      var last := log[|log| - 1];
      Carrying(log[..|log| - 1], id) + if last.id == id then [last.payload] else []
  }

  lemma CarryingOneMore(log: seq<Arrival>, from: nat, a: Arrival, id: RequestId)
    requires from <= |log|
    ensures Carrying((log + [a])[from..], id) == Carrying(log[from..], id) + if a.id == id then [a.payload] else []
  {
    assert (log + [a])[from..] == log[from..] + [a];
    assert (log[from..] + [a])[..|log[from..] + [a]| - 1] == log[from..];
  }

  /** What a request's task is to be given: the first `expected` answers, once there are
      that many, and nothing before. */
  ghost function Due(answers: seq<Payload>, expected: nat): Option<seq<Payload>> {
    if |answers| >= expected then Some(answers[..expected]) else None
  }

  /** A pending entry holds what has arrived for it since it was registered. */
  ghost predicate Waits(k: Desk, id: RequestId) {
    && id in k.pending && id in k.made
    && var p, m := k.pending[id], k.made[id];
       && (m.outcome == None || m.outcome == Some(PublishFailed))
       && m.from <= |k.log|
       && 0 < m.expected == p.expected
       && p.responses == Carrying(k.log[m.from..], id)
       && p.sent == Due(p.responses, p.expected)
       && k.fires[id] == One(p.sent.Some?)
  }

  /** A request that is over was given its due as of some moment since. */
  ghost predicate Over(k: Desk, id: RequestId) {
    && id in k.made && id !in k.pending && k.made[id].outcome.Some?
    && k.fires[id] <= 1
    && var m := k.made[id];
       m.outcome == Some(PublishFailed) || exists until: nat :: GivenDue(k.log, id, m, until)
  }

  ghost predicate GivenDue(log: seq<Arrival>, id: RequestId, m: Made, until: nat) {
    && m.from <= until <= |log|
    && m.outcome == Some(Collected(
         if Due(Carrying(log[m.from..until], id), m.expected).Some?
         then Due(Carrying(log[m.from..until], id), m.expected).value else []))
  }

  ghost predicate Unmade(k: Desk, id: RequestId) { id !in k.made && id !in k.pending && k.fires[id] == 0 }

  ghost predicate Orderly(k: Desk, id: RequestId) { Unmade(k, id) || Waits(k, id) || Over(k, id) }

  lemma RespondKeepsOrderly(k: Desk, a: Arrival, id: RequestId)
    requires Orderly(k, id)
    ensures Orderly(Respond(k, a), id)
    ensures Over(k, id) ==> Over(Respond(k, a), id)
    ensures Waits(k, id) ==> Waits(Respond(k, a), id)
  {
    if Waits(k, id) {
      CarryingOneMore(k.log, k.made[id].from, a, id);
      DueStays(k.pending[id].responses, a.payload, k.pending[id].expected);
    } else if Over(k, id) {
      OverStays(k, Respond(k, a), id);
    }
  }

  /** Once due, later answers change nothing; the one that makes it due is the last. */
  lemma DueStays(answers: seq<Payload>, next: Payload, expected: nat)
    ensures Due(answers, expected).Some? ==> Due(answers + [next], expected) == Due(answers, expected)
    ensures var due := Due(answers + [next], expected);
            Due(answers, expected) == None && due.Some? ==> due.value == answers + [next]
    ensures answers + [] == answers
  {
    if |answers| >= expected {
      assert (answers + [next])[..expected] == answers[..expected];
    }
  }

  lemma OverStays(k: Desk, k': Desk, id: RequestId)
    requires Over(k, id) && k.log <= k'.log
    requires id in k'.made && k'.made[id] == k.made[id] && id !in k'.pending && k'.fires[id] == k.fires[id]
    ensures Over(k', id)
  {
    var m := k.made[id];
    if m.outcome != Some(PublishFailed) {
      var until: nat :| GivenDue(k.log, id, m, until);
      assert k'.log[m.from..until] == k.log[m.from..until];
      assert GivenDue(k'.log, id, m, until);
    }
  }

  lemma StepKeepsOrderly(self: NodeId, k: Desk, e: Event, id: RequestId)
    requires Orderly(k, id) && Possible(k, e)
    ensures Orderly(Next(self, k, e), id)
  {
    var k' := Next(self, k, e);
    match e
    case Message(sender, response) =>
      if sender != self {
        var heard := k.(known := k.known + {sender});
        if Over(k, id) { OverStays(k, heard, id); }
        if response.Some? { RespondKeepsOrderly(heard, response.value, id); }
      }
    case Resolve(r) => ResolveKeepsOrderly(self, k, r, id);
    case Request(r, stale, _) =>
      NothingYet(k.log, r);
      if Over(k, id) { OverStays(k, k', id); }
      if r == id && k'.known == {} { assert GivenDue(k'.log, id, k'.made[id], |k.log|); }
    case Discover(r, _) =>
      NothingYet(k.log, r);
      if Over(k, id) { OverStays(k, k', id); }
  }

  lemma NothingYet(log: seq<Arrival>, id: RequestId)
    ensures Carrying(log[|log|..], id) == [] && Carrying(log[|log|..|log|], id) == []
  {
  }

  lemma ResolveKeepsOrderly(self: NodeId, k: Desk, r: RequestId, id: RequestId)
    requires Orderly(k, id) && Possible(k, Resolve(r))
    ensures Orderly(Next(self, k, Resolve(r)), id)
  {
    var k' := Next(self, k, Resolve(r));
    if r == id {
      assert k.log[k.made[id].from..|k.log|] == k.log[k.made[id].from..];
      assert GivenDue(k'.log, id, k'.made[id], |k.log|);
    } else if Over(k, id) {
      OverStays(k, k', id);
    }
  }

  lemma {:induction false} RunIsOrderly(self: NodeId, trace: seq<Event>, id: RequestId)
    requires Run(self, trace).Some?
    ensures Orderly(Run(self, trace).value, id)
    decreases |trace|
  {
    if trace != [] {
      RunIsOrderly(self, trace[..|trace| - 1], id);
      StepKeepsOrderly(self, Run(self, trace[..|trace| - 1]).value, trace[|trace| - 1], id);
    }
  }

  /** Whatever arrives, in whatever order, late or for other requests: the caller that
      wakes up for a request gets nothing, or exactly the first `expected` payloads
      carrying its id, and the latter exactly if that many have come since it asked. */
  lemma {:induction false} ResponsesAllOrNothing(self: NodeId, trace: seq<Event>, id: RequestId)
    requires Run(self, trace).Some? && Possible(Run(self, trace).value, Resolve(id))
    ensures var k := Run(self, trace).value;
            var m := k.made[id];
            && m.from <= |k.log|
            && var answers := Carrying(k.log[m.from..], id);
               && k.pending[id].responses == answers
               && Next(self, k, Resolve(id)).made[id].outcome
                  == Some(Collected(if |answers| >= m.expected then answers[..m.expected] else []))
  {
    RunIsOrderly(self, trace, id);
  }

  /** No one-shot sender is used twice, and none before as many answers have come as
      the request expects: for a discovery 2^64 - 1, so it ends by its timeout. */
  lemma {:induction false} SenderFiresOnce(self: NodeId, trace: seq<Event>, id: RequestId)
    requires Run(self, trace).Some?
    ensures var k := Run(self, trace).value;
            && k.fires[id] <= 1
            && (id in k.pending ==> id in k.made && k.made[id].from <= |k.log|)
            && (id in k.pending ==>
                  var answers := Carrying(k.log[k.made[id].from..], id);
                  (k.fires[id] == 1 <==> |answers| >= k.made[id].expected))
  {
    RunIsOrderly(self, trace, id);
  }

  /** A request that has ended with a failed publish, its entry still there. */
  ghost predicate Leaked(k: Desk, id: RequestId) {
    id in k.pending && id in k.made && k.made[id].outcome == Some(PublishFailed)
  }

  lemma StepKeepsLeaked(self: NodeId, k: Desk, e: Event, id: RequestId)
    requires Leaked(k, id) && Possible(k, e)
    ensures Leaked(Next(self, k, e), id)
  {
  }

  lemma {:induction false} LeakedStays(self: NodeId, trace: seq<Event>, longer: seq<Event>, id: RequestId)
    requires trace <= longer && Run(self, longer).Some? && Run(self, trace).Some?
    requires Leaked(Run(self, trace).value, id)
    ensures Leaked(Run(self, longer).value, id)
    decreases |longer|
  {
    if |longer| == |trace| {
      assert longer == trace;
    } else {
      LeakedStays(self, trace, longer[..|longer| - 1], id);
      StepKeepsLeaked(self, Run(self, longer[..|longer| - 1]).value, longer[|longer| - 1], id);
    }
  }

  /** Whatever happens from now on, the entry is there. */
  ghost predicate StaysPending(self: NodeId, trace: seq<Event>, id: RequestId) {
    forall longer :: trace <= longer && Run(self, longer).Some? ==> id in Run(self, longer).value.pending
  }

  /** An entry stays whatever happens from now on if and only if it belongs to a request
      whose publish failed. */
  lemma {:induction false} LeakedIffPublishFailed(self: NodeId, trace: seq<Event>, id: RequestId)
    requires Run(self, trace).Some? && id in Run(self, trace).value.pending
    ensures StaysPending(self, trace, id) <==>
              id in Run(self, trace).value.made && Run(self, trace).value.made[id].outcome == Some(PublishFailed)
  {
    var k := Run(self, trace).value;
    RunIsOrderly(self, trace, id);
    if Leaked(k, id) {
      forall longer | trace <= longer && Run(self, longer).Some? ensures id in Run(self, longer).value.pending {
        LeakedStays(self, trace, longer, id);
      }
    } else {
      var longer := trace + [Resolve(id)];
      assert longer[..|longer| - 1] == trace;
      assert Possible(k, Resolve(id));
      assert trace <= longer && Run(self, longer) == Some(Next(self, k, Resolve(id)));
      assert id !in Run(self, longer).value.pending;
      assert !StaysPending(self, trace, id);
    }
  }

  /** A failed publish leaves an entry exactly for a request that had a peer to ask, and
      none for a discovery. */
  lemma FailedPublishLeaks(self: NodeId, k: Desk, e: Event)
    requires Possible(k, e) && (e.Request? || e.Discover?) && !e.published
    ensures Leaked(Next(self, k, e), e.id) <==> e.Request? && k.known - e.stale != {}
    ensures e.Discover? ==> e.id !in Next(self, k, e).pending
  {
  }

  // -- whom a request asks, and what it hears: the history alone -------------------------------------

  /** The nodes, other than this one, some message of which has come since a request last
      found them stale. */
  ghost function Peers(self: NodeId, trace: seq<Event>): set<NodeId> {
    set i | 0 <= i < |trace| && trace[i].Message? && trace[i].sender != self
            && (forall j :: i < j < |trace| && trace[j].Request? ==> trace[i].sender !in trace[j].stale)
      :: trace[i].sender
  }

  /** The responses other nodes have sent. */
  ghost function Answers(self: NodeId, trace: seq<Event>): seq<Arrival>
    decreases |trace|
  {
    if trace == [] then []
    else
      var e := trace[|trace| - 1];
      Answers(self, trace[..|trace| - 1])
      + if e.Message? && e.sender != self && e.response.Some? then [e.response.value] else []
  }

  lemma PeersOneMore(self: NodeId, trace: seq<Event>, e: Event)
    ensures Peers(self, trace + [e]) == Peers(self, trace) - (if e.Request? then e.stale else {})
                                                           + (if e.Message? && e.sender != self then {e.sender} else {})
  {
    var longer := trace + [e];
    assert longer[|trace|] == e && forall j :: 0 <= j < |trace| ==> longer[j] == trace[j];
    forall n | n in Peers(self, longer)
      ensures n in Peers(self, trace) - (if e.Request? then e.stale else {})
                                      + (if e.Message? && e.sender != self then {e.sender} else {})
    {
      var i :| 0 <= i < |longer| && longer[i].Message? && longer[i].sender == n != self
        && forall j :: i < j < |longer| && longer[j].Request? ==> n !in longer[j].stale;
      if i < |trace| {
        assert forall j :: i < j < |trace| && trace[j].Request? ==> n !in trace[j].stale;
        assert n in Peers(self, trace);
      }
    }
    forall n | n in Peers(self, trace) && !(e.Request? && n in e.stale) ensures n in Peers(self, longer) {
      var i :| 0 <= i < |trace| && trace[i].Message? && trace[i].sender == n != self
        && forall j :: i < j < |trace| && trace[j].Request? ==> n !in trace[j].stale;
      assert longer[i].Message? && longer[i].sender == n;
    }
  }

  lemma StepHears(self: NodeId, k: Desk, e: Event)
    requires Possible(k, e)
    ensures Next(self, k, e).known == k.known - (if e.Request? then e.stale else {})
                                              + (if e.Message? && e.sender != self then {e.sender} else {})
    ensures Next(self, k, e).log
         == k.log + if e.Message? && e.sender != self && e.response.Some? then [e.response.value] else []
  {
    assert k.log + [] == k.log && k.known - {} + {} == k.known;
  }

  /** Over every run: the known nodes are exactly those, and the log exactly these. */
  lemma {:induction false} KnownArePeers(self: NodeId, trace: seq<Event>)
    requires Run(self, trace).Some?
    ensures Run(self, trace).value.known == Peers(self, trace)
    ensures Run(self, trace).value.log == Answers(self, trace)
    decreases |trace|
  {
    if trace == [] {
      assert Peers(self, []) == {};
    } else {
      var rest, e := trace[..|trace| - 1], trace[|trace| - 1];
      KnownArePeers(self, rest);
      StepHears(self, Run(self, rest).value, e);
      assert rest + [e] == trace;
      PeersOneMore(self, rest, e);
      hide Peers, Next, Possible;
    }
  }

  lemma RunLast(self: NodeId, trace: seq<Event>, e: Event)
    requires Run(self, trace).Some? && Run(self, trace + [e]).Some?
    ensures Possible(Run(self, trace).value, e) && Run(self, trace + [e]) == Some(Next(self, Run(self, trace).value, e))
  {
    assert (trace + [e])[..|trace|] == trace;
  }

  /** A request wants one response from each of those it does not find stale; it is
      answered at once if and only if there are none, and else waits if it was published. */
  lemma RequestAsksPeers(self: NodeId, trace: seq<Event>, id: RequestId, stale: set<NodeId>, published: bool)
    requires Run(self, trace).Some? && Run(self, trace + [Request(id, stale, published)]).Some?
    ensures var k', asked := Run(self, trace + [Request(id, stale, published)]).value, Peers(self, trace) - stale;
            && id in k'.made && k'.made[id].expected == |asked| && k'.made[id].from == |Answers(self, trace)|
            && (k'.made[id].outcome == Some(Collected([])) <==> asked == {})
            && (k'.made[id].outcome == None <==> asked != {} && published)
            && (id in k'.pending <==> asked != {})
  {
    KnownArePeers(self, trace);
    assert (trace + [Request(id, stale, published)])[..|trace|] == trace;
    if Peers(self, trace) - stale == {} {
      assert |Peers(self, trace) - stale| == 0;
    }
  }

  lemma StepKeepsMade(self: NodeId, k: Desk, e: Event, id: RequestId)
    requires Possible(k, e) && id in k.made
    ensures var k' := Next(self, k, e);
            id in k'.made && k'.made[id].from == k.made[id].from && k'.made[id].expected == k.made[id].expected
  {
  }

  lemma {:induction false} MadeStays(self: NodeId, trace: seq<Event>, from: nat, id: RequestId)
    requires Run(self, trace).Some? && from <= |trace| && Run(self, trace[..from]).Some?
    requires id in Run(self, trace[..from]).value.made
    ensures var m, k := Run(self, trace[..from]).value.made[id], Run(self, trace).value;
            id in k.made && k.made[id].from == m.from && k.made[id].expected == m.expected
    decreases |trace|
  {
    if from == |trace| {
      assert trace[..from] == trace;
    } else {
      var rest := trace[..|trace| - 1];
      assert rest[..from] == trace[..from];
      MadeStays(self, rest, from, id);
      StepKeepsMade(self, Run(self, rest).value, trace[|trace| - 1], id);
    }
  }

  lemma {:induction false} PrefixRuns(self: NodeId, trace: seq<Event>, i: nat)
    requires Run(self, trace).Some? && i <= |trace|
    ensures Run(self, trace[..i]).Some?
    decreases |trace|
  {
    if i == |trace| {
      assert trace[..i] == trace;
    } else {
      assert trace[..|trace| - 1][..i] == trace[..i];
      PrefixRuns(self, trace[..|trace| - 1], i);
    }
  }

  /** From the history alone: when the task of a request wakes up, its caller gets the first
      responses with its id that other nodes have sent since, as many as it asked peers, if
      that many have come, and else nothing. */
  lemma {:induction false} RequestYields(self: NodeId, trace: seq<Event>, i: nat, id: RequestId, stale: set<NodeId>)
    requires i < |trace| && trace[i] == Request(id, stale, true)
    requires Run(self, trace).Some? && Run(self, trace + [Resolve(id)]).Some?
    ensures |Answers(self, trace[..i])| <= |Answers(self, trace)|
    ensures var heard := Carrying(Answers(self, trace)[|Answers(self, trace[..i])|..], id);
            var wanted, k := |Peers(self, trace[..i]) - stale|, Run(self, trace + [Resolve(id)]).value;
            id in k.made && k.made[id].outcome == Some(Collected(if |heard| >= wanted then heard[..wanted] else []))
  {
    RequestRemembered(self, trace, i, id, stale);
    KnownArePeers(self, trace);
    RunLast(self, trace, Resolve(id));
    hide Run, Peers, Answers, Next, Possible, Carrying;
    ResponsesAllOrNothing(self, trace, id);
    StepKeepsMade(self, Run(self, trace).value, Resolve(id), id);
  }

  lemma RequestRemembered(self: NodeId, trace: seq<Event>, i: nat, id: RequestId, stale: set<NodeId>)
    requires i < |trace| && trace[i] == Request(id, stale, true) && Run(self, trace).Some?
    ensures var k := Run(self, trace).value;
            && id in k.made && k.made[id].expected == |Peers(self, trace[..i]) - stale|
            && k.made[id].from == |Answers(self, trace[..i])|
  {
    hide Peers, Answers;
    assert trace[..i + 1] == trace[..i] + [trace[i]];
    PrefixRuns(self, trace, i);
    PrefixRuns(self, trace, i + 1);
    RequestAsksPeers(self, trace[..i], id, stale, true);
    MadeStays(self, trace, i + 1, id);
  }

  /** A discovery waits for more responses than can come, from whenever it is made. */
  lemma DiscoveryWaits(self: NodeId, trace: seq<Event>, id: RequestId, published: bool)
    requires Run(self, trace).Some? && Run(self, trace + [Discover(id, published)]).Some?
    ensures var k' := Run(self, trace + [Discover(id, published)]).value;
            && id in k'.made && k'.made[id].expected == 0xFFFF_FFFF_FFFF_FFFF
            && k'.made[id].from == |Answers(self, trace)|
            && (k'.made[id].outcome == None <==> published) && (id in k'.pending <==> published)
  {
    KnownArePeers(self, trace);
    assert (trace + [Discover(id, published)])[..|trace|] == trace;
  }

  // -- the object -------------------------------------------------------------------------------

  class RedisPubSub {
    const nodeId: NodeId
    var pending: map<RequestId, Pending>
    var knownNodes: set<NodeId>
    ghost var made: map<RequestId, Made>
    ghost var log: seq<Arrival>
    ghost var fires: multiset<RequestId>

    ghost function View(): Desk
      reads this
    {
      Desk(pending, knownNodes, made, log, fires)
    }

    constructor (nodeId: NodeId)
      ensures this.nodeId == nodeId && View() == CLEAR
    {
      this.nodeId := nodeId;
      pending, knownNodes, made, log, fires := map[], {}, map[], [], multiset{};
    }

    /** Peers not heard of for too long are dropped before counting. */
    method GetPeerCount(stale: set<NodeId>) returns (n: nat)
      modifies this`knownNodes
      ensures View() == old(View()).(known := old(knownNodes) - stale) && n == |knownNodes|
    {
      knownNodes := knownNodes - stale;
      n := |knownNodes|;
    }

    /** The first half of a request: what it returns at once, if it does not wait. */
    method BeginRequest(id: RequestId, stale: set<NodeId>, published: bool) returns (r: Option<Outcome>)
      requires Possible(View(), Event.Request(id, stale, published))
      modifies this
      ensures View() == Next(nodeId, old(View()), Event.Request(id, stale, published))
      ensures r == View().made[id].outcome
      ensures knownNodes == old(knownNodes) - stale && (r == Some(Collected([])) <==> knownNodes == {})
      ensures knownNodes != {} ==> pending == old(pending)[id := Pending([], |knownNodes|, None)]
      ensures knownNodes != {} ==> r == if published then None else Some(PublishFailed)
    {
      ghost var fewer := knownNodes - stale;
      assert |fewer| == 0 <==> fewer == {};
      var expected := GetPeerCount(stale);
      if expected == 0 {
        made := made[id := Made(|log|, 0, Some(Collected([])))];
        return Some(Collected([]));
      }
      pending := pending[id := Pending([], expected, None)];
      r := if published then None else Some(PublishFailed);
      made := made[id := Made(|log|, expected, r)];
    }

    method BeginDiscovery(id: RequestId, published: bool) returns (r: Option<Outcome>)
      requires Possible(View(), Event.Discover(id, published))
      modifies this
      ensures View() == Next(nodeId, old(View()), Event.Discover(id, published))
      ensures r == View().made[id].outcome
    {
      pending := pending[id := Pending([], USIZE_MAX, None)];
      if !published {
        pending := pending - {id};
        r := Some(PublishFailed);
      } else {
        r := None;
      }
      made := made[id := Made(|log|, USIZE_MAX, r)];
      assert old(pending)[id := Pending([], USIZE_MAX, None)] - {id} == old(pending);
    }

    /** Own messages are skipped; any other marks its sender as alive. */
    method HandleMessage(sender: NodeId, response: Option<Arrival>)
      modifies this
      ensures View() == Next(nodeId, old(View()), Event.Message(sender, response))
      ensures knownNodes == old(knownNodes) + if sender == nodeId then {} else {sender}
      ensures sender == nodeId ==> pending == old(pending) && log == old(log)
      ensures sender != nodeId ==> log == old(log) + if response.Some? then [response.value] else []
    {
      if sender == nodeId {
        return;
      }
      knownNodes := knownNodes + {sender};
      if response.Some? {
        HandleResponse(response.value);
      }
    }

    method HandleResponse(a: Arrival)
      modifies this`pending, this`log, this`fires
      ensures View() == Respond(old(View()), a)
    {
      log := log + [a];
      if a.id in pending {
        var state := pending[a.id];
        state := state.(responses := state.responses + [a.payload]);
        if |state.responses| >= state.expected {
          if state.sent == None {
            state := state.(sent := Some(state.responses));
            fires := fires + multiset{a.id};
          }
        }
        pending := pending[a.id := state];
      }
    }

    /** The waiting task wakes up, with what was sent to it or because of its timeout. */
    method FinishRequest(id: RequestId) returns (responses: seq<Payload>)
      requires Possible(View(), Event.Resolve(id))
      modifies this
      ensures View() == Next(nodeId, old(View()), Event.Resolve(id))
      ensures View().made[id].outcome == Some(Collected(responses))
    {
      var state := pending[id];
      pending := pending - {id};
      responses := if state.sent.Some? then state.sent.value else [];
      made := made[id := made[id].(outcome := Some(Collected(responses)))];
    }

    /** A discovery waits its timeout out and counts whatever has come. */
    method FinishDiscovery(id: RequestId) returns (count: nat)
      requires Possible(View(), Event.Resolve(id))
      modifies this
      ensures View() == Next(nodeId, old(View()), Event.Resolve(id))
      ensures count == |old(pending[id].responses)|
    {
      var state := pending[id];
      var _ := FinishRequest(id);
      count := |state.responses|;
    }
  }
}
