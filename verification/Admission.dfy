/** Connection admission at the grain of single atomic operations: any number of
    connection tasks interleaving load, compare-exchange, insert, remove and decrement. */
module Admission {
  import opened Protocol

  /** Where one connection task is. `Open` covers its whole life in the table. */
  datatype Pc = Waiting | Loaded(seen: int) | Refused | Reserved | Open | Dropped | Gone

  datatype Gate = Gate(count: int, sockets: set<SocketId>, tasks: map<SocketId, Pc>)

  const CLOSED: Gate := Gate(0, {}, map[])

  datatype Event =
    | Spawn(s: SocketId)
    | Load(s: SocketId)
    | Exchange(s: SocketId)       // compare_exchange_weak found the value it had seen
    | ExchangeFails(s: SocketId)  // it found another value, or failed spuriously
    | Insert(s: SocketId)
    | Remove(s: SocketId)
    | Decrement(s: SocketId)

  ghost predicate Enabled(g: Gate, e: Event) {
    match e
    case Spawn(s) => s !in g.tasks
    case Load(s) => s in g.tasks && g.tasks[s] == Waiting
    case Exchange(s) => s in g.tasks && g.tasks[s] == Loaded(g.count)
    case ExchangeFails(s) => s in g.tasks && g.tasks[s].Loaded?
    case Insert(s) => s in g.tasks && g.tasks[s] == Reserved
    case Remove(s) => s in g.tasks && g.tasks[s] == Open
    case Decrement(s) => s in g.tasks && g.tasks[s] == Dropped
  }

  ghost function Next(g: Gate, e: Event, limit: nat): Gate
    requires Enabled(g, e)
  {
    match e
    case Spawn(s) => g.(tasks := g.tasks[s := Waiting])
    case Load(s) => g.(tasks := g.tasks[s := if g.count >= limit then Refused else Loaded(g.count)])
    case Exchange(s) => g.(count := g.count + 1, tasks := g.tasks[s := Reserved])
    case ExchangeFails(s) => g.(tasks := g.tasks[s := Waiting])
    case Insert(s) => g.(sockets := g.sockets + {s}, tasks := g.tasks[s := Open])
    case Remove(s) => g.(sockets := g.sockets - {s}, tasks := g.tasks[s := Dropped])
    case Decrement(s) => g.(count := g.count - 1, tasks := g.tasks[s := Gone])
  }

  ghost function Run(trace: seq<Event>, limit: nat): Option<Gate>
    decreases |trace|
  {
    if trace == [] then Some(CLOSED)
    else
      var before, e := Run(trace[..|trace| - 1], limit), trace[|trace| - 1];
      if before.Some? && Enabled(before.value, e) then Some(Next(before.value, e, limit)) else None
  }

  ghost function At(tasks: map<SocketId, Pc>, pc: Pc): set<SocketId> { set s | s in tasks && tasks[s] == pc }

  predicate Charges(pc: Pc) { pc == Reserved || pc == Open || pc == Dropped }

  /** Slots taken: reserved but not inserted, inserted, removed but not given back. */
  ghost function Charged(tasks: map<SocketId, Pc>): set<SocketId> { set s | s in tasks && Charges(tasks[s]) }

  ghost predicate Tallies(g: Gate) {
    g.sockets == At(g.tasks, Open) && g.count == |Charged(g.tasks)|
  }

  ghost predicate SawRoom(g: Gate, limit: nat) {
    forall s :: s in g.tasks && g.tasks[s].Loaded? ==> g.tasks[s].seen < limit
  }

  ghost predicate Balanced(g: Gate, limit: nat) { Tallies(g) && SawRoom(g, limit) && g.count <= limit }

  /** What one task changing does to the tally. */
  lemma TaskMoves(tasks: map<SocketId, Pc>, s: SocketId, pc: Pc)
    ensures |Charged(tasks[s := pc])| == |Charged(tasks)| + One(Charges(pc)) - One(s in tasks && Charges(tasks[s]))
  {
    var rest := Charged(tasks) - {s};
    assert Charged(tasks[s := pc]) == if Charges(pc) then rest + {s} else rest;
    if s in tasks && Charges(tasks[s]) {
      assert Charged(tasks) == rest + {s};
    } else {
      assert Charged(tasks) == rest;
    }
  }

  lemma SocketMoves(tasks: map<SocketId, Pc>, s: SocketId, pc: Pc)
    ensures At(tasks[s := pc], Open) == if pc == Open then At(tasks, Open) + {s} else At(tasks, Open) - {s}
    ensures (s in tasks ==> tasks[s] != Open) ==> At(tasks, Open) - {s} == At(tasks, Open)
  {
  }

  lemma StepKeepsBalanced(g: Gate, e: Event, limit: nat)
    requires Balanced(g, limit) && Enabled(g, e)
    ensures Balanced(Next(g, e, limit), limit)
    ensures e.Decrement? ==> g.count >= 1
  {
    hide At, Charged;
    var pc := Next(g, e, limit).tasks[e.s];
    TaskMoves(g.tasks, e.s, pc);
    SocketMoves(g.tasks, e.s, pc);
  }

  lemma ChargedSplits(tasks: map<SocketId, Pc>)
    ensures |Charged(tasks)| == |At(tasks, Open)| + |At(tasks, Reserved)| + |At(tasks, Dropped)|
  {
    assert Charged(tasks) == At(tasks, Reserved) + At(tasks, Open) + At(tasks, Dropped);
    assert At(tasks, Reserved) !! At(tasks, Open);
    assert (At(tasks, Reserved) + At(tasks, Open)) !! At(tasks, Dropped);
  }

  /** At every point of every interleaving the counter is the open sockets plus the
      reservations not yet inserted plus the removals not yet given back; neither it
      nor the number of sockets ever exceeds the limit. */
  lemma {:induction false} AdmissionIsRaceFree(trace: seq<Event>, limit: nat)
    requires Run(trace, limit).Some?
    ensures var g := Run(trace, limit).value;
            && g.count == |g.sockets| + |At(g.tasks, Reserved)| + |At(g.tasks, Dropped)|
            && |g.sockets| <= g.count <= limit
    ensures Balanced(Run(trace, limit).value, limit)
    decreases |trace|
  {
    if trace != [] {
      AdmissionIsRaceFree(trace[..|trace| - 1], limit);
      StepKeepsBalanced(Run(trace[..|trace| - 1], limit).value, trace[|trace| - 1], limit);
    } else {
      assert Charged(CLOSED.tasks) == {} && At(CLOSED.tasks, Open) == {};
    }
    ChargedSplits(Run(trace, limit).value.tasks);
  }

  /** The counter never goes below zero: whoever gives a slot back holds one. */
  lemma DecrementNeverUnderflows(trace: seq<Event>, limit: nat, s: SocketId)
    requires Run(trace, limit).Some? && Enabled(Run(trace, limit).value, Decrement(s))
    ensures Next(Run(trace, limit).value, Decrement(s), limit).count >= 0
  {
    AdmissionIsRaceFree(trace, limit);
    StepKeepsBalanced(Run(trace, limit).value, Decrement(s), limit);
  }

  /** With no task in between, an attempt is refused exactly when the limit is reached
      by open sockets: the verdict of the uninterrupted method. */
  lemma QuietVerdict(trace: seq<Event>, limit: nat, s: SocketId)
    requires Run(trace, limit).Some? && Enabled(Run(trace, limit).value, Load(s))
    requires At(Run(trace, limit).value.tasks, Reserved) == {} && At(Run(trace, limit).value.tasks, Dropped) == {}
    ensures var g := Run(trace, limit).value;
            Next(g, Load(s), limit).tasks[s] == Refused <==> |g.sockets| >= limit
  {
    AdmissionIsRaceFree(trace, limit);
  }

  /** Some attempt of the task has found the counter at the limit. */
  ghost predicate EverSawFull(trace: seq<Event>, limit: nat, s: SocketId)
    requires Run(trace, limit).Some?
    decreases |trace|
  {
    trace != [] &&
    var before, e := trace[..|trace| - 1], trace[|trace| - 1];
    EverSawFull(before, limit, s) || (e == Load(s) && Run(before, limit).value.count >= limit)
  }

  /** A task is refused if and only if it has looked and found the counter at the limit:
      no failed exchange refuses it. */
  lemma {:induction false} RefusedIffSawFull(trace: seq<Event>, limit: nat, s: SocketId)
    requires Run(trace, limit).Some?
    ensures var tasks := Run(trace, limit).value.tasks;
            s in tasks && tasks[s] == Refused <==> EverSawFull(trace, limit, s)
    decreases |trace|
  {
    if trace != [] {
      RefusedIffSawFull(trace[..|trace| - 1], limit, s);
    }
  }

  /** The socket has been put into the table and not taken out since. */
  ghost predicate Inserted(trace: seq<Event>, s: SocketId)
    decreases |trace|
  {
    trace != [] && var e := trace[|trace| - 1]; e == Insert(s) || (e != Remove(s) && Inserted(trace[..|trace| - 1], s))
  }

  /** Over every interleaving the table holds exactly these. */
  lemma {:induction false} SocketsAreInserted(trace: seq<Event>, limit: nat, s: SocketId)
    requires Run(trace, limit).Some?
    ensures s in Run(trace, limit).value.sockets <==> Inserted(trace, s)
    decreases |trace|
  {
    if trace != [] {
      SocketsAreInserted(trace[..|trace| - 1], limit, s);
    }
  }
}
