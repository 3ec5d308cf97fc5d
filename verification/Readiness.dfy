/** When a node calls itself ready: the subscriber loop of the Redis listener and any
    number of outstanding peer-discovery tasks, at the grain of single atomic
    operations on `subscribed` and `generation`. */
module Readiness {
  import opened Protocol

  /** What the listener does next. `Live` is the message loop of one connection. */
  datatype Listener = Clearing | Bumping | Connecting | Live | Rebumping

  datatype Stage = Asking | Answered | Matched | Done

  /** A discovery task and the generation it was started in. */
  datatype Task = Task(generation: nat, stage: Stage)

  datatype Node = Node(subscribed: bool, generation: nat, listener: Listener, tasks: seq<Task>)

  const START: Node := Node(false, 0, Clearing, [])

  datatype Event =
    | Clear            // subscribed.store(false), before connecting
    | Bump             // generation.fetch_add(1)
    | Enter            // subscriptions live: load the generation, spawn its discovery
    | Invalidate       // connecting failed or the message loop did: subscribed.store(false)
    | Rebump           // generation.fetch_add(1)
    | Answer(t: nat)   // a discovery's wait is over
    | Compare(t: nat)  // it loads the generation and compares
    | Publish(t: nat)  // subscribed.store(true)

  ghost predicate Enabled(n: Node, e: Event) {
    match e
    case Clear => n.listener == Clearing
    case Bump => n.listener == Bumping
    case Enter => n.listener == Connecting
    case Invalidate => n.listener == Connecting || n.listener == Live
    case Rebump => n.listener == Rebumping
    case Answer(t) => t < |n.tasks| && n.tasks[t].stage == Asking
    case Compare(t) => t < |n.tasks| && n.tasks[t].stage == Answered
    case Publish(t) => t < |n.tasks| && n.tasks[t].stage == Matched
  }

  ghost function Moved(n: Node, t: nat, stage: Stage): Node
    requires t < |n.tasks|
  {
    n.(tasks := n.tasks[t := n.tasks[t].(stage := stage)])
  }

  ghost function Next(n: Node, e: Event): Node
    requires Enabled(n, e)
  {
    match e
    case Clear => n.(subscribed := false, listener := Bumping)
    case Bump => n.(generation := n.generation + 1, listener := Connecting)
    case Enter => n.(tasks := n.tasks + [Task(n.generation, Asking)], listener := Live)
    case Invalidate => n.(subscribed := false, listener := Rebumping)
    case Rebump => n.(generation := n.generation + 1, listener := Clearing)
    case Answer(t) => Moved(n, t, Answered)
    case Compare(t) => Moved(n, t, if n.tasks[t].generation == n.generation then Matched else Done)
    case Publish(t) => Moved(n, t, Done).(subscribed := true)
  }

  ghost function Run(trace: seq<Event>): Option<Node>
    decreases |trace|
  {
    if trace == [] then Some(START)
    else
      var before, e := Run(trace[..|trace| - 1]), trace[|trace| - 1];
      if before.Some? && Enabled(before.value, e) then Some(Next(before.value, e)) else None
  }

  lemma RunOne(trace: seq<Event>, e: Event)
    requires Run(trace).Some? && Enabled(Run(trace).value, e)
    ensures Run(trace + [e]) == Some(Next(Run(trace).value, e))
  {
    assert (trace + [e])[..|trace + [e]| - 1] == trace;
  }

  // -- what being ready should mean ------------------------------------------------------------

  /** The current generation's own discovery, if it has one: the last task started. */
  ghost predicate OwnDiscoveryDone(n: Node) {
    n.tasks != [] && n.tasks[|n.tasks| - 1] == Task(n.generation, Done)
  }

  /** Ready only in the message loop of the current connection, whose own discovery
      has finished. */
  ghost predicate Honest(n: Node) { n.subscribed ==> n.listener == Live && OwnDiscoveryDone(n) }

  /** The publishing task belongs to the connection the listener is serving, or has
      nothing left to publish. */
  ghost predicate Timely(n: Node, e: Event) {
    e.Publish? && e.t < |n.tasks| ==> n.listener == Live && (n.tasks[e.t].generation == n.generation || n.subscribed)
  }

  // -- what every run keeps ----------------------------------------------------------------------

  /** A generation has at most one task, started last; none in between connections. */
  ghost predicate Ordered(n: Node) {
    && (forall t :: 0 <= t < |n.tasks| ==> n.tasks[t].generation <= n.generation)
    && (forall t, u :: 0 <= t < u < |n.tasks| ==> n.tasks[t].generation < n.tasks[u].generation)
    && (n.listener != Live && n.listener != Rebumping ==>
          forall t :: 0 <= t < |n.tasks| ==> n.tasks[t].generation < n.generation)
    && (n.listener == Live ==> n.tasks != [] && n.tasks[|n.tasks| - 1].generation == n.generation)
    && (n.listener == Live && OwnDiscoveryDone(n) ==> n.subscribed)
  }

  /** A task moves on; the others and all generations stay. */
  lemma MovingKeepsOrdered(n: Node, t: nat, stage: Stage)
    requires Ordered(n) && t < |n.tasks|
    requires stage == Done && n.tasks[t].generation == n.generation && n.listener == Live ==> n.subscribed
    ensures Ordered(Moved(n, t, stage))
  {
    var n' := Moved(n, t, stage);
    assert |n'.tasks| == |n.tasks|;
    assert forall i :: 0 <= i < |n.tasks| ==> n'.tasks[i].generation == n.tasks[i].generation;
  }

  lemma EnteringKeepsOrdered(n: Node)
    requires Ordered(n) && Enabled(n, Enter)
    ensures Ordered(Next(n, Enter))
  {
  }

  lemma StepKeepsOrdered(n: Node, e: Event)
    requires Ordered(n) && Enabled(n, e)
    ensures Ordered(Next(n, e))
  {
    match e
    case Enter => EnteringKeepsOrdered(n);
    case Answer(t) => MovingKeepsOrdered(n, t, Answered);
    case Compare(t) => MovingKeepsOrdered(n, t, Next(n, e).tasks[t].stage);
    case Publish(t) => MovingKeepsOrdered(n.(subscribed := true), t, Done);
    case _ =>
  }

  /** Exactly which steps keep readiness honest: all of them, but for a publish that
      makes the node ready for a connection that is no longer the one being served. */
  lemma HonestIffTimely(n: Node, e: Event)
    requires Ordered(n) && Honest(n) && Enabled(n, e)
    ensures Honest(Next(n, e)) <==> Timely(n, e)
  {
  }

  ghost predicate AllTimely(trace: seq<Event>)
    requires Run(trace).Some?
    decreases |trace|
  {
    trace == [] || (AllTimely(trace[..|trace| - 1]) && Timely(Run(trace[..|trace| - 1]).value, trace[|trace| - 1]))
  }

  ghost predicate AlwaysHonest(trace: seq<Event>)
    requires Run(trace).Some?
    decreases |trace|
  {
    Honest(Run(trace).value) && (trace == [] || AlwaysHonest(trace[..|trace| - 1]))
  }

  lemma {:induction false} RunIsOrdered(trace: seq<Event>)
    requires Run(trace).Some?
    ensures Ordered(Run(trace).value)
    decreases |trace|
  {
    if trace != [] {
      RunIsOrdered(trace[..|trace| - 1]);
      StepKeepsOrdered(Run(trace[..|trace| - 1]).value, trace[|trace| - 1]);
    }
  }

  /** On any interleaving of single operations, readiness is honest throughout if and
      only if every publish is by the connection being served or comes when ready. */
  lemma {:induction false} ReadinessIsHonestIff(trace: seq<Event>)
    requires Run(trace).Some?
    ensures AlwaysHonest(trace) <==> AllTimely(trace)
    decreases |trace|
  {
    if trace != [] {
      var rest := trace[..|trace| - 1];
      ReadinessIsHonestIff(rest);
      RunIsOrdered(rest);
      if AlwaysHonest(rest) {
        HonestIffTimely(Run(rest).value, trace[|trace| - 1]);
      }
    }
  }

  // -- the two pairs as one step each --------------------------------------------------------------

  /** As above, but compare-and-publish is one step and so is a failure's invalidation. */
  datatype Step = Begin | Raise | Open | Fail | Finish(t: nat) | Decide(t: nat)

  /** The operations a step consists of. */
  ghost function Events(n: Node, step: Step): seq<Event> {
    match step
    case Begin => [Clear]
    case Raise => [Bump]
    case Open => [Enter]
    case Fail => [Invalidate, Rebump]
    case Finish(t) => [Answer(t)]
    case Decide(t) =>
      if t < |n.tasks| && n.tasks[t].generation == n.generation then [Compare(t), Publish(t)] else [Compare(t)]
  }

  /** The run the steps amount to, if each is possible in its turn. */
  ghost function Expand(steps: seq<Step>): Option<seq<Event>>
    decreases |steps|
  {
    if steps == [] then Some([])
    else
      var before, step := Expand(steps[..|steps| - 1]), steps[|steps| - 1];
      if before.None? || Run(before.value).None? then None
      else
        var trace := before.value + Events(Run(before.value).value, step);
        if Run(trace).Some? then Some(trace) else None
  }

  ghost predicate Settled(n: Node) {
    n.listener != Rebumping && forall t :: 0 <= t < |n.tasks| ==> n.tasks[t].stage != Matched
  }

  lemma RunPrefix(trace: seq<Event>, e: Event)
    requires Run(trace + [e]).Some?
    ensures Run(trace).Some? && Enabled(Run(trace).value, e) && Run(trace + [e]).value == Next(Run(trace).value, e)
  {
    assert (trace + [e])[..|trace + [e]| - 1] == trace;
  }

  lemma {:induction false} StepsAreTimely(steps: seq<Step>)
    requires Expand(steps).Some?
    ensures var trace := Expand(steps).value;
            Run(trace).Some? && AllTimely(trace) && Settled(Run(trace).value)
    decreases |steps|
  {
    if steps != [] {
      var rest, step := steps[..|steps| - 1], steps[|steps| - 1];
      StepsAreTimely(rest);
      StepIsTimely(Expand(rest).value, step);
    }
  }

  lemma SingleOperation(trace: seq<Event>, e: Event)
    requires Run(trace).Some? && Run(trace + [e]).Some?
    ensures Enabled(Run(trace).value, e) && Run(trace + [e]).value == Next(Run(trace).value, e)
    ensures AllTimely(trace + [e]) <==> AllTimely(trace) && Timely(Run(trace).value, e)
  {
  }

  lemma PairOfOperations(trace: seq<Event>, a: Event, b: Event)
    requires Run(trace).Some? && Run(trace + [a, b]).Some?
    ensures Enabled(Run(trace).value, a) && Enabled(Next(Run(trace).value, a), b)
    ensures Run(trace + [a, b]).value == Next(Next(Run(trace).value, a), b)
    ensures var n := Run(trace).value;
            AllTimely(trace + [a, b]) <==> AllTimely(trace) && Timely(n, a) && Timely(Next(n, a), b)
  {
    hide *;
    assert trace + [a, b] == trace + [a] + [b];
    RunPrefix(trace + [a], b);
    SingleOperation(trace, a);
    SingleOperation(trace + [a], b);
  }

  lemma StepIsTimely(trace: seq<Event>, step: Step)
    requires Run(trace).Some? && AllTimely(trace) && Settled(Run(trace).value)
    requires Run(trace + Events(Run(trace).value, step)).Some?
    ensures var longer := trace + Events(Run(trace).value, step);
            AllTimely(longer) && Settled(Run(longer).value)
  {
    hide Run, AllTimely, Honest, Ordered, OwnDiscoveryDone;
    var events := Events(Run(trace).value, step);
    if |events| == 1 {
      assert events == [events[0]];
      SingleOperation(trace, events[0]);
    } else {
      NoOtherSteps(Run(trace).value, step);
      PairOfOperations(trace, events[0], events[1]);
      CurrentOnlyWhenLive(trace);
    }
  }

  lemma NoOtherSteps(n: Node, step: Step)
    requires |Events(n, step)| != 1
    ensures Events(n, step) == [Events(n, step)[0], Events(n, step)[1]]
  {
  }

  lemma CurrentOnlyWhenLive(trace: seq<Event>)
    requires Run(trace).Some?
    ensures var n := Run(trace).value;
            n.listener != Live && n.listener != Rebumping ==>
              forall t :: 0 <= t < |n.tasks| ==> n.tasks[t].generation < n.generation
  {
    RunIsOrdered(trace);
  }

  /** With both pairs uninterrupted, being ready always means that the listener serves
      its current connection and that connection's own discovery has finished,
      however many discoveries of earlier connections are still outstanding. */
  lemma {:induction false} ReadyMeansLive(steps: seq<Step>)
    requires Expand(steps).Some?
    ensures var n := Run(Expand(steps).value).value;
            n.subscribed ==> n.listener == Live && OwnDiscoveryDone(n)
  {
    StepsAreTimely(steps);
    ReadinessIsHonestIff(Expand(steps).value);
  }

  /** A discovery of an earlier connection never changes readiness; the current one's
      sets it. */
  lemma {:induction false} OnlyOwnDiscoveryDecides(steps: seq<Step>, t: nat)
    requires Expand(steps).Some? && Expand(steps + [Decide(t)]).Some?
    ensures var n, n' := Run(Expand(steps).value).value, Run(Expand(steps + [Decide(t)]).value).value;
            && t < |n.tasks|
            && n'.subscribed == (n.subscribed || n.tasks[t].generation == n.generation)
            && n'.generation == n.generation && n'.listener == n.listener
  {
    assert (steps + [Decide(t)])[..|steps + [Decide(t)]| - 1] == steps;
    StepsAreTimely(steps);
    hide Run, AllTimely, Settled, Events;
    DecisionOutcome(Expand(steps).value, t);
  }

  lemma DecisionOutcome(trace: seq<Event>, t: nat)
    requires Run(trace).Some? && Run(trace + Events(Run(trace).value, Decide(t))).Some?
    ensures var n, n' := Run(trace).value, Run(trace + Events(Run(trace).value, Decide(t))).value;
            && t < |n.tasks|
            && n'.subscribed == (n.subscribed || n.tasks[t].generation == n.generation)
            && n'.generation == n.generation && n'.listener == n.listener
  {
    hide Run, AllTimely;
    var n := Run(trace).value;
    if t < |n.tasks| && n.tasks[t].generation == n.generation {
      PairOfOperations(trace, Compare(t), Publish(t));
    } else {
      SingleOperation(trace, Compare(t));
    }
  }

  // -- interrupted, either pair fails -----------------------------------------------------------------

  lemma Connected()
    ensures Run([Clear, Bump, Enter, Answer(0)]) == Some(Node(false, 1, Live, [Task(1, Answered)]))
  {
    assert [] + [Clear] == [Clear] && [Clear] + [Bump] == [Clear, Bump];
    assert [Clear, Bump] + [Enter] == [Clear, Bump, Enter];
    assert [Clear, Bump, Enter] + [Answer(0)] == [Clear, Bump, Enter, Answer(0)];
    RunOne([], Clear);
    assert Run([Clear]).value == Node(false, 0, Bumping, []);
    RunOne([Clear], Bump);
    assert Run([Clear, Bump]).value == Node(false, 1, Connecting, []);
    RunOne([Clear, Bump], Enter);
    assert [] + [Task(1, Asking)] == [Task(1, Asking)];
    RunOne([Clear, Bump, Enter], Answer(0));
    assert [Task(1, Asking)][0 := Task(1, Answered)] == [Task(1, Answered)];
  }

  /** The connection fails between a task's compare and its publish: ready, and down. */
  lemma FailureInsideDecision()
    ensures var trace := [Clear, Bump, Enter, Answer(0)] + [Compare(0)] + [Invalidate] + [Rebump] + [Publish(0)];
            Run(trace).Some? && Run(trace).value.subscribed && Run(trace).value.listener == Clearing
  {
    var trace := [Clear, Bump, Enter, Answer(0)];
    Connected();
    RunOne(trace, Compare(0));
    RunOne(trace + [Compare(0)], Invalidate);
    RunOne(trace + [Compare(0)] + [Invalidate], Rebump);
    RunOne(trace + [Compare(0)] + [Invalidate] + [Rebump], Publish(0));
  }

  /** A task compares and publishes between a failure's store and its increment: the
      same. */
  lemma DecisionInsideFailure()
    ensures var trace := [Clear, Bump, Enter, Answer(0)] + [Invalidate] + [Compare(0)] + [Publish(0)] + [Rebump];
            Run(trace).Some? && Run(trace).value.subscribed && Run(trace).value.listener == Clearing
  {
    var trace := [Clear, Bump, Enter, Answer(0)];
    Connected();
    RunOne(trace, Invalidate);
    RunOne(trace + [Invalidate], Compare(0));
    RunOne(trace + [Invalidate] + [Compare(0)], Publish(0));
    RunOne(trace + [Invalidate] + [Compare(0)] + [Publish(0)], Rebump);
  }
}
