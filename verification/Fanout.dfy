/** Channel messages between the nodes of a cluster: any number of publishes in flight,
    each node working through what Redis distributes in its own time, sockets opening,
    joining, leaving, reading their mail and closing meanwhile. */
module Fanout {
  import opened Protocol
  import opened Connection
  import opened RedisStore
  import opened Tables
  import Mail
  import Subscriptions

  /** What a node did with one envelope: which sockets it sent it to. */
  datatype Handling = Handling(index: nat, to: set<SocketId>)

  /** `cursor` is how far the node has read the broadcast channel; `owed` are its own
      envelopes that it has published but not yet delivered itself; `closed` are the
      sockets it once had. */
  datatype Node = Node(
    conns: ConnTable, closed: set<SocketId>, cursor: nat, owed: set<nat>, handled: seq<Handling>)

  datatype Cluster = Cluster(published: seq<Envelope>, nodes: map<NodeId, Node>)

  datatype Step =
    | Publish(node: NodeId, channel: Channel, message: Message, except: Option<SocketId>)
    | DeliverOwn(node: NodeId, index: nat)
    | Receive(node: NodeId)
    | Open(node: NodeId, s: SocketId)
    | Close(node: NodeId, s: SocketId)
    | Join(node: NodeId, s: SocketId, channel: Channel)
    | Leave(node: NodeId, s: SocketId, channel: Channel)
    | Read(node: NodeId, s: SocketId)

  ghost predicate Possible(k: Cluster, step: Step) {
    && step.node in k.nodes
    && match step
       case Publish(_, _, _, _) => true
       case DeliverOwn(n, i) => i in k.nodes[n].owed && i < |k.published|
       case Receive(n) => k.nodes[n].cursor < |k.published|
       case Open(n, s) => s !in k.nodes[n].conns && s !in k.nodes[n].closed
       case _ => step.s in k.nodes[step.node].conns
  }

  ghost function Recipients(conns: ConnTable, e: Envelope): set<SocketId> {
    set s | s in Subscriptions.Subscribers(conns, e.channel) && Some(s) != e.except
  }

  ghost function Handle(node: Node, e: Envelope, index: nat): Node {
    var subscribers := Subscriptions.Subscribers(node.conns, e.channel);
    node.(conns := Subscriptions.FanOut(node.conns, subscribers, e.message, e.except),
          handled := node.handled + [Handling(index, Recipients(node.conns, e))])
  }

  ghost function With(node: Node, s: SocketId, c: Conn): Node { node.(conns := node.conns[s := c]) }

  /** What a step does to the node it happens on. */
  ghost function NodeNext(node: Node, published: seq<Envelope>, step: Step): Node
    requires step.DeliverOwn? ==> step.index < |published|
    requires step.Receive? ==> node.cursor < |published|
    requires step.Close? || step.Join? || step.Leave? || step.Read? ==> step.s in node.conns
  {
    match step
    case Publish(_, _, _, _) => node.(owed := node.owed + {|published|})
    case DeliverOwn(_, i) => Handle(node, published[i], i).(owed := node.owed - {i})
    case Receive(n) =>
      var e := published[node.cursor];
      (if e.sender == n then node else Handle(node, e, node.cursor)).(cursor := node.cursor + 1)
    case Open(_, s) => With(node, s, FRESH)
    case Close(_, s) => node.(conns := node.conns - {s}, closed := node.closed + {s})
    case Join(_, s, c) => With(node, s, WithChannel(node.conns[s], c))
    case Leave(_, s, c) => With(node, s, Without(node.conns[s], c))
    case Read(_, s) => With(node, s, Delivered(node.conns[s]))
  }

  ghost function Next(k: Cluster, step: Step): Cluster
    requires Possible(k, step)
  {
    Cluster(
      if step.Publish? then k.published + [Envelope(step.node, step.channel, step.message, step.except)]
      else k.published,
      k.nodes[step.node := NodeNext(k.nodes[step.node], k.published, step)])
  }

  ghost function Start(nodes: set<NodeId>): Cluster { Cluster([], map n | n in nodes :: Node(map[], {}, 0, {}, [])) }

  ghost function Run(nodes: set<NodeId>, trace: seq<Step>): Option<Cluster>
    decreases |trace|
  {
    if trace == [] then Some(Start(nodes))
    else
      var before, step := Run(nodes, trace[..|trace| - 1]), trace[|trace| - 1];
      if before.Some? && Possible(before.value, step) then Some(Next(before.value, step)) else None
  }

  // -- every node handles every envelope once -----------------------------------------------

  ghost function Times(handled: seq<Handling>, index: nat): nat
    decreases |handled|
  {
    if handled == [] then 0 else Times(handled[..|handled| - 1], index) + One(handled[|handled| - 1].index == index)
  }

  ghost predicate Indexed(handled: seq<Handling>, published: seq<Envelope>) {
    forall j :: 0 <= j < |handled| ==> handled[j].index < |published|
  }

  /** An envelope the node has dealt with: its own once delivered, the others' once read. */
  ghost predicate Due(n: NodeId, node: Node, published: seq<Envelope>, i: nat) {
    && i < |published|
    && if published[i].sender == n then i !in node.owed else i < node.cursor
  }

  ghost predicate Tracks(n: NodeId, node: Node, published: seq<Envelope>) {
    && node.cursor <= |published|
    && (forall i :: i in node.owed ==> i < |published| && published[i].sender == n)
    && (forall i: nat :: Times(node.handled, i) == One(Due(n, node, published, i)))
    && Indexed(node.handled, published)
    && (forall j :: 0 <= j < |node.handled| ==> node.handled[j].to <= node.conns.Keys + node.closed)
  }

  // -- and so does every socket it was addressed to --------------------------------------------

  /** The messages a node has handed to `s`. */
  ghost function Handed(handled: seq<Handling>, published: seq<Envelope>, s: SocketId): multiset<Message>
    requires Indexed(handled, published)
    decreases |handled|
  {
    if handled == [] then multiset{}
    else
      var last := handled[|handled| - 1];
      Handed(handled[..|handled| - 1], published, s)
        + if s in last.to then multiset{published[last.index].message} else multiset{}
  }

  /** All of them are in its log, or some are missing and it is flagged for closing. */
  ghost predicate Served(c: Conn, handed: multiset<Message>) {
    && multiset(c.log) <= handed
    && (c.forceClose <==> multiset(c.log) != handed)
  }

  ghost predicate Exact(n: NodeId, node: Node, published: seq<Envelope>) {
    && Tracks(n, node, published)
    && forall s :: s in node.conns ==> Served(node.conns[s], Handed(node.handled, published, s))
  }

  lemma EnqueueServes(c: Conn, handed: multiset<Message>, m: Message)
    requires Served(c, handed)
    ensures Served(Enqueue(c, m), handed + multiset{m})
  {
    assert multiset(c.log + [m]) == multiset(c.log) + multiset{m};
    assert (multiset(c.log) + multiset{m}) - multiset{m} == multiset(c.log);
    assert (handed + multiset{m}) - multiset{m} == handed;
    if |c.queue| >= OUTBOUND_CAPACITY {
      assert (handed + multiset{m})[m] == handed[m] + 1 && multiset(c.log)[m] <= handed[m];
    }
  }

  lemma HandledOneMore(handled: seq<Handling>, h: Handling, published: seq<Envelope>, s: SocketId, i: nat)
    requires Indexed(handled, published)
    requires h.index < |published|
    ensures Times(handled + [h], i) == Times(handled, i) + One(h.index == i)
    ensures Handed(handled + [h], published, s)
         == Handed(handled, published, s) + if s in h.to then multiset{published[h.index].message} else multiset{}
  {
    assert (handled + [h])[..|handled + [h]| - 1] == handled;
  }

  /** Handling an envelope hands it to every recipient's log, or flags the recipient. */
  lemma HandleServes(node: Node, published: seq<Envelope>, index: nat, s: SocketId)
    requires Indexed(node.handled, published)
    requires index < |published| && s in node.conns
    requires Served(node.conns[s], Handed(node.handled, published, s))
    ensures s in Handle(node, published[index], index).conns
    ensures var node' := Handle(node, published[index], index);
            Indexed(node'.handled, published) && Served(node'.conns[s], Handed(node'.handled, published, s))
  {
    hide Served, Handed, Times, Handle, Recipients;
    var e := published[index];
    HandleOneSocket(node, e, index, s);
    HandledOneMore(node.handled, Handling(index, Recipients(node.conns, e)), published, s, 0);
    if s in Recipients(node.conns, e) {
      EnqueueServes(node.conns[s], Handed(node.handled, published, s), e.message);
    } else {
      assert Handed(node.handled, published, s) + multiset{} == Handed(node.handled, published, s);
    }
  }

  lemma HandleOneSocket(node: Node, e: Envelope, index: nat, s: SocketId)
    requires s in node.conns
    ensures s in Handle(node, e, index).conns
    ensures Handle(node, e, index).conns[s]
         == if s in Recipients(node.conns, e) then Enqueue(node.conns[s], e.message) else node.conns[s]
    ensures Handle(node, e, index).handled == node.handled + [Handling(index, Recipients(node.conns, e))]
  {
  }

  /** Later publishes change nothing about what has been handed over. */
  lemma {:induction false} HandedStays(handled: seq<Handling>, published: seq<Envelope>, longer: seq<Envelope>,
                                       s: SocketId)
    requires published <= longer && Indexed(handled, published)
    ensures Handed(handled, longer, s) == Handed(handled, published, s)
    decreases |handled|
  {
    if handled != [] {
      HandedStays(handled[..|handled| - 1], published, longer, s);
    }
  }

  lemma {:induction false} NeverHanded(handled: seq<Handling>, published: seq<Envelope>, s: SocketId)
    requires forall j :: 0 <= j < |handled| ==> handled[j].index < |published| && s !in handled[j].to
    ensures Handed(handled, published, s) == multiset{}
    decreases |handled|
  {
    if handled != [] {
      NeverHanded(handled[..|handled| - 1], published, s);
    }
  }

  lemma PublishKeepsExact(n: NodeId, node: Node, published: seq<Envelope>, e: Envelope)
    requires Exact(n, node, published)
    ensures Exact(n, if e.sender == n then node.(owed := node.owed + {|published|}) else node, published + [e])
  {
    var node' := if e.sender == n then node.(owed := node.owed + {|published|}) else node;
    forall i: nat ensures Times(node'.handled, i) == One(Due(n, node', published + [e], i)) {
      assert Due(n, node', published + [e], i) <==> Due(n, node, published, i);
    }
    forall s | s in node.conns ensures Served(node.conns[s], Handed(node.handled, published + [e], s)) {
      HandedStays(node.handled, published, published + [e], s);
    }
  }

  lemma DeliverOwnKeepsExact(n: NodeId, node: Node, published: seq<Envelope>, index: nat)
    requires Exact(n, node, published) && index in node.owed
    ensures Exact(n, Handle(node, published[index], index).(owed := node.owed - {index}), published)
  {
    var node' := Handle(node, published[index], index).(owed := node.owed - {index});
    forall i: nat ensures Times(node'.handled, i) == One(Due(n, node', published, i)) {
      HandledOneMore(node.handled, Handling(index, Recipients(node.conns, published[index])), published, "", i);
    }
    forall s | s in node'.conns ensures Served(node'.conns[s], Handed(node'.handled, published, s)) {
      HandleServes(node, published, index, s);
    }
  }

  lemma ReceiveKeepsExact(n: NodeId, node: Node, published: seq<Envelope>)
    requires Exact(n, node, published) && node.cursor < |published|
    ensures Exact(n, NodeNext(node, published, Receive(n)), published)
  {
    hide Served, Handed, Times;
    var node' := NodeNext(node, published, Receive(n));
    forall i: nat ensures Times(node'.handled, i) == One(Due(n, node', published, i)) {
      var h := Handling(node.cursor, Recipients(node.conns, published[node.cursor]));
      HandledOneMore(node.handled, h, published, "", i);
    }
    forall s | s in node'.conns ensures Served(node'.conns[s], Handed(node'.handled, published, s)) {
      if published[node.cursor].sender != n {
        HandleServes(node, published, node.cursor, s);
      }
    }
  }

  ghost predicate AllExact(k: Cluster) { forall n :: n in k.nodes ==> Exact(n, k.nodes[n], k.published) }

  lemma StepKeepsExact(k: Cluster, step: Step)
    requires AllExact(k) && Possible(k, step)
    ensures AllExact(Next(k, step))
  {
    var k' := Next(k, step);
    forall o | o in k'.nodes ensures Exact(o, k'.nodes[o], k'.published) {
      assert Exact(o, k.nodes[o], k.published);
      if step.Publish? {
        PublishKeepsExact(o, k.nodes[o], k.published, Envelope(step.node, step.channel, step.message, step.except));
      } else if o == step.node {
        OwnStepKeepsExact(k, step);
      }
    }
  }

  lemma OwnStepKeepsExact(k: Cluster, step: Step)
    requires Possible(k, step) && !step.Publish? && Exact(step.node, k.nodes[step.node], k.published)
    ensures Exact(step.node, NodeNext(k.nodes[step.node], k.published, step), k.published)
  {
    hide Exact, Handle;
    var n, node := step.node, k.nodes[step.node];
    if step.DeliverOwn? {
      DeliverOwnKeepsExact(n, node, k.published, step.index);
    } else if step.Receive? {
      ReceiveKeepsExact(n, node, k.published);
    } else if step.Open? {
      OpenKeepsExact(n, node, k.published, step.s);
    } else if step.Close? {
      CloseKeepsExact(n, node, k.published, step.s);
    } else {
      SameLogKeepsExact(n, node, k.published, step.s, NodeNext(node, k.published, step).conns[step.s]);
    }
  }

  lemma OpenKeepsExact(n: NodeId, node: Node, published: seq<Envelope>, s: SocketId)
    requires Exact(n, node, published) && s !in node.conns && s !in node.closed
    ensures Exact(n, With(node, s, FRESH), published)
  {
    var node' := With(node, s, FRESH);
    assert forall i: nat :: Due(n, node', published, i) <==> Due(n, node, published, i);
    NeverHanded(node.handled, published, s);
    forall t | t in node'.conns ensures Served(node'.conns[t], Handed(node'.handled, published, t)) {
      if t != s { assert Served(node.conns[t], Handed(node.handled, published, t)); }
    }
  }

  lemma CloseKeepsExact(n: NodeId, node: Node, published: seq<Envelope>, s: SocketId)
    requires Exact(n, node, published) && s in node.conns
    ensures Exact(n, node.(conns := node.conns - {s}, closed := node.closed + {s}), published)
  {
    var node' := node.(conns := node.conns - {s}, closed := node.closed + {s});
    assert forall i: nat :: Due(n, node', published, i) <==> Due(n, node, published, i);
    assert node'.conns.Keys + node'.closed == node.conns.Keys + node.closed;
  }

  /** Joining, leaving and reading touch no log. */
  lemma SameLogKeepsExact(n: NodeId, node: Node, published: seq<Envelope>, s: SocketId, c: Conn)
    requires Exact(n, node, published) && s in node.conns
    requires c.log == node.conns[s].log && c.forceClose == node.conns[s].forceClose
    ensures Exact(n, With(node, s, c), published)
  {
  }

  lemma StartIsExact(nodes: set<NodeId>)
    ensures AllExact(Start(nodes)) && Start(nodes).nodes.Keys == nodes
  {
  }

  lemma {:induction false} RunIsExact(nodes: set<NodeId>, trace: seq<Step>)
    requires Run(nodes, trace).Some?
    ensures AllExact(Run(nodes, trace).value)
    ensures Run(nodes, trace).value.nodes.Keys == nodes
    decreases |trace|
  {
    if trace == [] {
      StartIsExact(nodes);
    } else {
      RunIsExact(nodes, trace[..|trace| - 1]);
      StepKeepsExact(Run(nodes, trace[..|trace| - 1]).value, trace[|trace| - 1]);
    }
  }

  /** Everything published has been read and delivered everywhere. */
  ghost predicate Quiet(k: Cluster) {
    forall n :: n in k.nodes ==> k.nodes[n].cursor == |k.published| && k.nodes[n].owed == {}
  }

  /** Once the cluster is quiet every node, the publisher included, has handled every
      envelope exactly once, and every socket has in its log exactly what its node
      handed it, unless it is flagged for closing. */
  lemma {:induction false} ExactlyOnce(nodes: set<NodeId>, trace: seq<Step>, n: NodeId, s: SocketId, i: nat)
    requires Run(nodes, trace).Some? && Quiet(Run(nodes, trace).value)
    requires n in nodes && i < |Run(nodes, trace).value.published|
    ensures var k := Run(nodes, trace).value;
            && n in k.nodes
            && Times(k.nodes[n].handled, i) == 1
            && Tracks(n, k.nodes[n], k.published)
            && (s in k.nodes[n].conns ==> Served(k.nodes[n].conns[s], Handed(k.nodes[n].handled, k.published, s)))
  {
    RunIsExact(nodes, trace);
    assert Exact(n, Run(nodes, trace).value.nodes[n], Run(nodes, trace).value.published);
  }

  // -- a socket that stays where it is ---------------------------------------------------------

  predicate Eligible(e: Envelope, s: SocketId, channels: set<Channel>) { e.channel in channels && Some(s) != e.except }

  ghost function Share(e: Envelope, s: SocketId, channels: set<Channel>): multiset<Message> {
    if Eligible(e, s, channels) then multiset{e.message} else multiset{}
  }

  /** The messages, of the envelopes in `which`, that are meant for `s`. */
  ghost function Selected(published: seq<Envelope>, which: set<nat>, s: SocketId, channels: set<Channel>)
    : multiset<Message>
    decreases |published|
  {
    if published == [] then multiset{}
    else
      var i := |published| - 1;
      Selected(published[..i], which, s, channels)
        + if i in which then Share(published[i], s, channels) else multiset{}
  }

  lemma {:induction false} SelectOneMore(published: seq<Envelope>, which: set<nat>, s: SocketId,
                                         channels: set<Channel>, i: nat)
    requires i !in which
    ensures Selected(published, which + {i}, s, channels)
         == Selected(published, which, s, channels)
          + if i < |published| then Share(published[i], s, channels) else multiset{}
    decreases |published|
  {
    hide Share;
    if published != [] {
      var last := |published| - 1;
      SelectOneMore(published[..last], which, s, channels, i);
      if i < last {
        Swap(Selected(published[..last], which, s, channels), Share(published[i], s, channels),
             if last in which then Share(published[last], s, channels) else multiset{});
      }
    }
  }

  lemma Swap<T>(a: multiset<T>, x: multiset<T>, y: multiset<T>)
    ensures a + x + y == a + y + x
  {
  }

  ghost function Indices(handled: seq<Handling>): set<nat> { set j | 0 <= j < |handled| :: handled[j].index }

  lemma {:induction false} TimesCounts(handled: seq<Handling>, i: nat)
    ensures Times(handled, i) > 0 <==> i in Indices(handled)
    decreases |handled|
  {
    if handled != [] {
      IndicesGrow(handled);
      TimesCounts(handled[..|handled| - 1], i);
    }
  }

  lemma IndicesGrow(handled: seq<Handling>)
    requires handled != []
    ensures Indices(handled) == Indices(handled[..|handled| - 1]) + {handled[|handled| - 1].index}
  {
  }

  ghost predicate Once(handled: seq<Handling>) { forall i: nat :: Times(handled, i) <= 1 }

  /** Sent to `s` exactly if it is meant for `s`. */
  ghost predicate Meant(handled: seq<Handling>, published: seq<Envelope>, s: SocketId, channels: set<Channel>) {
    forall j :: 0 <= j < |handled| ==>
      && handled[j].index < |published|
      && (s in handled[j].to <==> Eligible(published[handled[j].index], s, channels))
  }

  /** Handed over since are, once each, the envelopes handled since and meant for `s`. */
  lemma {:induction false} HandedSince(older: seq<Handling>, newer: seq<Handling>, published: seq<Envelope>,
                                       s: SocketId,
                                       channels: set<Channel>)
    requires Indexed(older, published) && Meant(newer, published, s, channels) && Once(newer)
    ensures Handed(older + newer, published, s)
         == Handed(older, published, s) + Selected(published, Indices(newer), s, channels)
    decreases |newer|
  {
    hide *;
    if newer == [] {
      SelectedNone(published, s, channels);
      assert older + newer == older;
      assert Indices(newer) == Indices([]);
      assert Handed(older, published, s) + multiset{} == Handed(older, published, s);
    } else {
      var rest, last := newer[..|newer| - 1], newer[|newer| - 1];
      assert newer == rest + [last];
      SplitLast(newer, rest, last, published, s, channels);
      HandedSince(older, rest, published, s, channels);
      HandedSinceStep(older, rest, last, published, s, channels);
    }
  }

  lemma SplitLast(newer: seq<Handling>, rest: seq<Handling>, last: Handling, published: seq<Envelope>, s: SocketId,
                  channels: set<Channel>)
    requires newer == rest + [last] && Meant(newer, published, s, channels) && Once(newer)
    ensures Meant(rest, published, s, channels) && Indexed(rest, published) && Once(rest)
    ensures last.index < |published| && (s in last.to <==> Eligible(published[last.index], s, channels))
    ensures last.index !in Indices(rest)
  {
    assert newer[..|newer| - 1] == rest && newer[|newer| - 1] == last;
    assert forall j :: 0 <= j < |rest| ==> newer[j] == rest[j];
    OneMoreOfEach(newer);
  }

  lemma OneMoreOfEach(newer: seq<Handling>)
    requires newer != [] && Once(newer)
    ensures Once(newer[..|newer| - 1])
    ensures newer[|newer| - 1].index !in Indices(newer[..|newer| - 1])
  {
    var rest, last := newer[..|newer| - 1], newer[|newer| - 1];
    forall i: nat ensures Times(rest, i) <= 1 { assert Times(newer, i) <= 1; }
    assert Times(newer, last.index) <= 1;
    TimesCounts(rest, last.index);
  }

  lemma HandedSinceStep(older: seq<Handling>, rest: seq<Handling>, last: Handling, published: seq<Envelope>,
                        s: SocketId,
                        channels: set<Channel>)
    requires Indexed(older, published) && Indexed(rest, published)
    requires last.index < |published| && (s in last.to <==> Eligible(published[last.index], s, channels))
    requires last.index !in Indices(rest)
    requires Handed(older + rest, published, s)
          == Handed(older, published, s) + Selected(published, Indices(rest), s, channels)
    ensures Handed(older + (rest + [last]), published, s)
         == Handed(older, published, s) + Selected(published, Indices(rest + [last]), s, channels)
  {
    hide Handed, Selected, Times, Indices;
    IndicesGrow(rest + [last]);
    assert (rest + [last])[..|rest + [last]| - 1] == rest;
    SelectOneMore(published, Indices(rest), s, channels, last.index);
    assert older + (rest + [last]) == (older + rest) + [last];
    HandledOneMore(older + rest, last, published, s, 0);
  }

  lemma {:induction false} SelectedNone(published: seq<Envelope>, s: SocketId, channels: set<Channel>)
    ensures Selected(published, Indices([]), s, channels) == multiset{}
    decreases |published|
  {
    if published != [] {
      SelectedNone(published[..|published| - 1], s, channels);
    }
  }

  /** From step `from` on, `s` neither joins nor leaves a channel nor closes. */
  ghost predicate Stays(trace: seq<Step>, from: nat, n: NodeId, s: SocketId) {
    forall i :: from <= i < |trace| && (trace[i].Join? || trace[i].Leave? || trace[i].Close?) ==>
      trace[i].node != n || trace[i].s != s
  }

  /** What the node did since it stood at `was`, it did for `s` as a holder of its channels. */
  ghost predicate FairSince(was: Node, node: Node, published: seq<Envelope>, s: SocketId) {
    && s in was.conns && s in node.conns && node.conns[s].channels == was.conns[s].channels
    && was.handled <= node.handled
    && forall j :: |was.handled| <= j < |node.handled| ==>
         && node.handled[j].index < |published|
         && (s in node.handled[j].to <==> Eligible(published[node.handled[j].index], s, was.conns[s].channels))
  }

  lemma StepKeepsFair(was: Node, k: Cluster, step: Step, n: NodeId, s: SocketId)
    requires Possible(k, step) && n in k.nodes && FairSince(was, k.nodes[n], k.published, s) && Stays([step], 0, n, s)
    ensures FairSince(was, Next(k, step).nodes[n], Next(k, step).published, s)
  {
    assert [step][0] == step;
    assert forall j :: 0 <= j < |k.published| ==> Next(k, step).published[j] == k.published[j];
  }

  lemma {:induction false} RunIsFair(nodes: set<NodeId>, trace: seq<Step>, from: nat, n: NodeId, s: SocketId)
    requires Run(nodes, trace).Some? && from <= |trace| && n in nodes && Stays(trace, from, n, s)
    requires Run(nodes, trace[..from]).Some? && n in Run(nodes, trace[..from]).value.nodes
    requires s in Run(nodes, trace[..from]).value.nodes[n].conns
    ensures var k0, k := Run(nodes, trace[..from]).value, Run(nodes, trace).value;
            n in k.nodes && FairSince(k0.nodes[n], k.nodes[n], k.published, s) && k0.published <= k.published
    decreases |trace|
  {
    if from == |trace| {
      assert trace[..from] == trace;
    } else {
      var rest, last := trace[..|trace| - 1], trace[|trace| - 1];
      assert rest[..from] == trace[..from];
      RunIsFair(nodes, rest, from, n, s);
      StepKeepsFair(Run(nodes, trace[..from]).value.nodes[n], Run(nodes, rest).value, last, n, s);
    }
  }

  /** The envelopes published by the end that `n` had not dealt with when it stood at `was`. */
  ghost function Outstanding(n: NodeId, was: Node, before: seq<Envelope>, published: seq<Envelope>): set<nat> {
    set i: nat | i < |published| && !Due(n, was, before, i)
  }

  /** Take any socket at any moment from which on it stays. Once the cluster is quiet it
      has got, besides what it had been handed by then, exactly the messages published
      anywhere to a channel it holds and not excepting it that its node had not dealt
      with, each once, and no other; or it misses some and is flagged for closing. */
  lemma {:induction false} EverySubscriberOnce(nodes: set<NodeId>, trace: seq<Step>, from: nat, n: NodeId, s: SocketId)
    requires Run(nodes, trace).Some? && Quiet(Run(nodes, trace).value) && from <= |trace| && n in nodes
    requires Run(nodes, trace[..from]).Some? && n in Run(nodes, trace[..from]).value.nodes
    requires s in Run(nodes, trace[..from]).value.nodes[n].conns && Stays(trace, from, n, s)
    ensures var k0, k := Run(nodes, trace[..from]).value, Run(nodes, trace).value;
            var was := k0.nodes[n];
            && n in k.nodes && s in k.nodes[n].conns && Tracks(n, was, k0.published)
            && Served(k.nodes[n].conns[s],
                 Handed(was.handled, k0.published, s)
                   + Selected(k.published, Outstanding(n, was, k0.published, k.published), s, was.conns[s].channels))
  {
    RunIsExact(nodes, trace);
    RunIsExact(nodes, trace[..from]);
    RunIsFair(nodes, trace, from, n, s);
    hide Run, Stays, Handed, Tracks, FairSince, Served, Selected;
    var k0, k := Run(nodes, trace[..from]).value, Run(nodes, trace).value;
    assert Exact(n, k.nodes[n], k.published) && Exact(n, k0.nodes[n], k0.published);
    FairIsSelected(n, k0.nodes[n], k0.published, k.nodes[n], k.published, s);
  }

  lemma FairIsSelected(n: NodeId, was: Node, before: seq<Envelope>, node: Node, published: seq<Envelope>, s: SocketId)
    requires Tracks(n, was, before) && Tracks(n, node, published) && before <= published
    requires FairSince(was, node, published, s)
    requires node.cursor == |published| && node.owed == {}
    ensures s in node.conns && s in was.conns
    ensures Handed(node.handled, published, s)
         == Handed(was.handled, before, s)
          + Selected(published, Outstanding(n, was, before, published), s, was.conns[s].channels)
  {
    var newer := node.handled[|was.handled|..];
    assert node.handled == was.handled + newer;
    forall i: nat ensures Times(newer, i) == One(Due(n, node, published, i)) - One(Due(n, was, before, i)) {
      TimesAdd(was.handled, newer, i);
    }
    assert Once(newer) && Meant(newer, published, s, was.conns[s].channels);
    HandedSince(was.handled, newer, published, s, was.conns[s].channels);
    HandedStays(was.handled, before, published, s);
    forall i: nat ensures i in Indices(newer) <==> i in Outstanding(n, was, before, published) {
      TimesCounts(newer, i);
    }
    assert Indices(newer) == Outstanding(n, was, before, published);
  }

  lemma {:induction false} TimesAdd(older: seq<Handling>, newer: seq<Handling>, i: nat)
    ensures Times(older + newer, i) == Times(older, i) + Times(newer, i)
    decreases |newer|
  {
    if newer == [] {
      assert older + newer == older;
    } else {
      assert (older + newer)[..|older + newer| - 1] == older + newer[..|newer| - 1];
      TimesAdd(older, newer[..|newer| - 1], i);
    }
  }

  // -- what the history says ---------------------------------------------------------------------

  /** The envelopes of all publishes, in order. */
  ghost function Publications(trace: seq<Step>): seq<Envelope>
    decreases |trace|
  {
    if trace == [] then []
    else
      var step := trace[|trace| - 1];
      Publications(trace[..|trace| - 1])
      + if step.Publish? then [Envelope(step.node, step.channel, step.message, step.except)] else []
  }

  lemma {:induction false} PublishedInOrder(nodes: set<NodeId>, trace: seq<Step>)
    requires Run(nodes, trace).Some?
    ensures Run(nodes, trace).value.published == Publications(trace)
    decreases |trace|
  {
    if trace != [] {
      PublishedInOrder(nodes, trace[..|trace| - 1]);
    }
  }

  ghost predicate IsOpen(k: Cluster, n: NodeId, s: SocketId) { n in k.nodes && s in k.nodes[n].conns }

  ghost predicate WasClosed(k: Cluster, n: NodeId, s: SocketId) { n in k.nodes && s in k.nodes[n].closed }

  /** The socket has been opened and not closed since. */
  ghost predicate Opened(trace: seq<Step>, n: NodeId, s: SocketId)
    decreases |trace|
  {
    trace != [] &&
    var step := trace[|trace| - 1];
    step == Open(n, s) || (step != Close(n, s) && Opened(trace[..|trace| - 1], n, s))
  }

  lemma OpenMoves(k: Cluster, step: Step, n: NodeId, s: SocketId)
    requires Possible(k, step)
    ensures IsOpen(Next(k, step), n, s) <==> step == Open(n, s) || (step != Close(n, s) && IsOpen(k, n, s))
  {
  }

  /** Over every run the sockets there are those opened and not closed since. */
  lemma {:induction false} OpenIffOpened(nodes: set<NodeId>, trace: seq<Step>, n: NodeId, s: SocketId)
    requires Run(nodes, trace).Some?
    ensures IsOpen(Run(nodes, trace).value, n, s) <==> Opened(trace, n, s)
    decreases |trace|
  {
    if trace != [] {
      var rest := trace[..|trace| - 1];
      OpenIffOpened(nodes, rest, n, s);
      OpenMoves(Run(nodes, rest).value, trace[|trace| - 1], n, s);
    }
  }

  /** The last that happened between `s` and the channel is a join. */
  ghost predicate Joined(trace: seq<Step>, n: NodeId, s: SocketId, c: Channel)
    decreases |trace|
  {
    trace != [] &&
    var step := trace[|trace| - 1];
    step == Join(n, s, c) || (step != Leave(n, s, c) && Joined(trace[..|trace| - 1], n, s, c))
  }

  lemma HoldMoves(k: Cluster, step: Step, n: NodeId, s: SocketId, c: Channel)
    requires Possible(k, step) && IsOpen(Next(k, step), n, s)
    ensures c in Next(k, step).nodes[n].conns[s].channels <==>
              step == Join(n, s, c) || (step != Leave(n, s, c) && IsOpen(k, n, s) && c in k.nodes[n].conns[s].channels)
    ensures !IsOpen(k, n, s) ==> step == Open(n, s) && !WasClosed(k, n, s)
  {
    hide Subscriptions.Subscribers;
  }

  lemma {:induction false} NotThereNotJoined(nodes: set<NodeId>, trace: seq<Step>, n: NodeId, s: SocketId, c: Channel)
    requires Run(nodes, trace).Some?
    requires !IsOpen(Run(nodes, trace).value, n, s) && !WasClosed(Run(nodes, trace).value, n, s)
    ensures !Joined(trace, n, s, c)
    decreases |trace|
  {
    if trace != [] {
      StillNotThere(Run(nodes, trace[..|trace| - 1]).value, trace[|trace| - 1], n, s);
      NotThereNotJoined(nodes, trace[..|trace| - 1], n, s, c);
    }
  }

  lemma StillNotThere(k: Cluster, step: Step, n: NodeId, s: SocketId)
    requires Possible(k, step) && !IsOpen(Next(k, step), n, s) && !WasClosed(Next(k, step), n, s)
    ensures !IsOpen(k, n, s) && !WasClosed(k, n, s) && !(step.Join? && step.node == n && step.s == s)
  {
    hide Enqueue, Subscriptions.Subscribers;
  }

  /** Over every run an open socket holds exactly the channels it has joined and not left
      since. */
  lemma {:induction false} HoldsWhatItJoined(nodes: set<NodeId>, trace: seq<Step>, n: NodeId, s: SocketId, c: Channel)
    requires Run(nodes, trace).Some? && IsOpen(Run(nodes, trace).value, n, s)
    ensures c in Run(nodes, trace).value.nodes[n].conns[s].channels <==> Joined(trace, n, s, c)
    decreases |trace|
  {
    if trace != [] {
      var rest, step := trace[..|trace| - 1], trace[|trace| - 1];
      HoldMoves(Run(nodes, rest).value, step, n, s, c);
      if IsOpen(Run(nodes, rest).value, n, s) {
        HoldsWhatItJoined(nodes, rest, n, s, c);
      } else {
        NotThereNotJoined(nodes, rest, n, s, c);
      }
    }
  }

  /** A client that reads gets its oldest message, if there is one, and nobody else notices. */
  lemma ReadingGetsOldest(k: Cluster, n: NodeId, s: SocketId)
    requires Possible(k, Read(n, s))
    ensures var k', conn := Next(k, Read(n, s)), k.nodes[n].conns[s];
            && IsOpen(k', n, s)
            && var conn' := k'.nodes[n].conns[s];
            && (conn.queue == [] ==> k' == k)
            && (conn.queue != [] ==>
                  conn'.read == conn.read + [conn.queue[0]] && [conn.queue[0]] + conn'.queue == conn.queue)
            && conn'.log == conn.log && conn'.forceClose == conn.forceClose && conn'.channels == conn.channels
            && (forall t :: t in k.nodes[n].conns && t != s ==> k'.nodes[n].conns[t] == k.nodes[n].conns[t])
  {
    var node, conn := k.nodes[n], k.nodes[n].conns[s];
    if conn.queue == [] {
      assert node.conns[s := conn] == node.conns;
      assert k.nodes[n := node] == k.nodes;
    }
  }

  lemma StepConserves(k: Cluster, step: Step, n: NodeId, s: SocketId)
    requires Possible(k, step) && IsOpen(Next(k, step), n, s)
    requires IsOpen(k, n, s) ==> Mail.Conserved(k.nodes[n].conns[s])
    ensures Mail.Conserved(Next(k, step).nodes[n].conns[s])
  {
    if IsOpen(k, n, s) {
      var conn := k.nodes[n].conns[s];
      forall m ensures Mail.Conserved(Enqueue(conn, m)) {
        Mail.SentOne(conn, m);
        Mail.SentKeepsConserved(conn, [m], Enqueue(conn, m));
      }
      if conn.queue != [] {
        assert [conn.queue[0]] + conn.queue[1..] == conn.queue;
        assert conn.read + ([conn.queue[0]] + conn.queue[1..]) == conn.read + [conn.queue[0]] + conn.queue[1..];
      }
      hide Enqueue, Subscriptions.Subscribers;
    }
  }

  /** Over every run, what a client has read and what is queued for it are, in order,
      exactly what its node has put into its log. */
  lemma {:induction false} ReadThenQueued(nodes: set<NodeId>, trace: seq<Step>, n: NodeId, s: SocketId)
    requires Run(nodes, trace).Some? && IsOpen(Run(nodes, trace).value, n, s)
    ensures var conn := Run(nodes, trace).value.nodes[n].conns[s];
            conn.read + conn.queue == conn.log && |conn.queue| <= 512
    decreases |trace|
  {
    if trace != [] {
      var rest := trace[..|trace| - 1];
      if IsOpen(Run(nodes, rest).value, n, s) {
        ReadThenQueued(nodes, rest, n, s);
      }
      StepConserves(Run(nodes, rest).value, trace[|trace| - 1], n, s);
    }
  }

  // -- the adapter takes these steps ----------------------------------------------------------

  /** The channel table lists each channel's subscribers. */
  ghost predicate Listed(a: RedisAdapter)
    reads a.local, a.local.sockets.Values
  {
    a.local.Keyed() && forall c :: At(a.local.channels, c) == Subscriptions.Subscribers(a.local.Conns(), c)
  }

  /** Publishing and then delivering locally are one call; other steps may come in
      between on the wire, none on this node's sockets. */
  method PublishOn(a: RedisAdapter, channel: Channel, m: Message, except: Option<SocketId>, ghost node: Node,
                   ghost published: seq<Envelope>)
    returns (e: Envelope)
    requires Listed(a) && node.conns == a.local.Conns()
    modifies a.local.sockets.Values`queue, a.local.sockets.Values`forceClose, a.local.sockets.Values`log
    ensures e == Envelope(a.nodeId, channel, m, except)
    ensures var sent := NodeNext(node, published, Publish(a.nodeId, channel, m, except));
            a.local.Conns() == NodeNext(sent, published + [e], DeliverOwn(a.nodeId, |published|)).conns
  {
    e := a.SendToChannel(channel, m, except);
  }

  method ReceiveOn(a: RedisAdapter, ghost node: Node, published: seq<Envelope>, cursor: nat)
    requires Listed(a) && node.conns == a.local.Conns() && node.cursor == cursor < |published|
    modifies a.local.sockets.Values`queue, a.local.sockets.Values`forceClose, a.local.sockets.Values`log
    ensures a.local.Conns() == NodeNext(node, published, Receive(a.nodeId)).conns
  {
    a.HandleBroadcast(published[cursor]);
  }
}
