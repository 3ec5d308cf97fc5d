/** The occupancy of one channel again, at the grain of single operations: a change of a
    node's table, a command to Redis, one peer's answer. Any handlers, of one node or
    several, may interleave; the handlers of one socket follow each other. */
module OccupancyCommands {
  import opened Protocol
  import opened Tables
  import opened RedisStore
  import opened Alternation
  import O = Occupancy

  type Seat = (NodeId, SocketId)

  /** What the handler of a socket is about to do: claim the key, count its own node's
      subscribers, hear from peers and decide, delete the key. `found`: one had some. */
  datatype Phase = Claiming | Counting | Asking(found: bool) | Deleting

  datatype Cluster = Cluster(occ: O.Occ, phases: map<Seat, Phase>)

  const START: Cluster := Cluster(O.EMPTY, map[])

  datatype Step =
    | Add(seat: Seat) | Claim(seat: Seat)
    | Remove(seat: Seat) | Count(seat: Seat) | Answer(seat: Seat, peer: NodeId) | Decide(seat: Seat)
    | Delete(seat: Seat)

  ghost predicate In(occ: O.Occ, seat: Seat) { seat.1 in At(occ.subs, seat.0) }

  ghost predicate Stands(k: Cluster, seat: Seat, phase: Phase) { seat in k.phases && k.phases[seat] == phase }

  ghost predicate Possible(k: Cluster, step: Step) {
    match step
    case Add(seat) => seat !in k.phases && !In(k.occ, seat)
    case Claim(seat) => Stands(k, seat, Claiming)
    case Remove(seat) => seat !in k.phases && In(k.occ, seat)
    case Count(seat) => Stands(k, seat, Counting)
    case Answer(seat, peer) => seat in k.phases && k.phases[seat].Asking? && peer != seat.0
    case Decide(seat) => seat in k.phases && k.phases[seat].Asking?
    case Delete(seat) => Stands(k, seat, Deleting)
  }

  ghost function Next(k: Cluster, step: Step): Cluster
    requires Possible(k, step)
  {
    var occ, phases, seat := k.occ, k.phases, step.seat;
    match step
    case Add((n, s)) =>
      Cluster(occ.(subs := occ.subs[n := At(occ.subs, n) + {s}]),
              if At(occ.subs, n) == {} then phases[seat := Claiming] else phases)
    case Claim(_) =>
      Cluster(if occ.key == None then O.Occ(occ.subs, Some(seat.0), occ.reports + [O.Occupied]) else occ,
              phases - {seat})
    case Remove((n, s)) =>
      var left := At(occ.subs, n) - {s};
      Cluster(occ.(subs := occ.subs[n := left]), if left == {} then phases[seat := Counting] else phases)
    case Count(_) =>
      Cluster(occ, if At(occ.subs, seat.0) == {} then phases[seat := Asking(false)] else phases - {seat})
    case Answer(_, peer) =>
      Cluster(occ, if At(occ.subs, peer) == {} then phases else phases[seat := Asking(true)])
    case Decide(_) =>
      Cluster(occ, if phases[seat].found then phases - {seat} else phases[seat := Deleting])
    case Delete(_) =>
      Cluster(O.Occ(occ.subs, None, occ.reports + [O.Vacated]), phases - {seat})
  }

  ghost function RunFrom(k: Cluster, trace: seq<Step>): Option<Cluster>
    decreases |trace|
  {
    if trace == [] then Some(k)
    else
      var before, step := RunFrom(k, trace[..|trace| - 1]), trace[|trace| - 1];
      if before.Some? && Possible(before.value, step) then Some(Next(before.value, step)) else None
  }

  ghost function Run(trace: seq<Step>): Option<Cluster> { RunFrom(START, trace) }

  // -- keeping the account ------------------------------------------------------------------------

  ghost function Claims(k: Cluster): set<Seat> { set seat | seat in k.phases && k.phases[seat].Claiming? }

  /** A handler that cannot but delete the key, as things are. */
  ghost predicate IsDue(occ: O.Occ, seat: Seat, phase: Phase) {
    match phase
    case Claiming => false
    case Counting => !O.Subscribed(occ)
    case Asking(found) => !found && !O.SubscribedElsewhere(occ, seat.0)
    case Deleting => true
  }

  ghost function Due(k: Cluster): set<Seat> { set seat | seat in k.phases && IsDue(k.occ, seat, k.phases[seat]) }

  /** What is left over of the key and the pending claims after one for each delete that
      is due and one for the subscribers. */
  ghost function Spare(k: Cluster): int { |Claims(k)| + One(k.occ.key.Some?) - |Due(k)| - 1 }

  /** There are enough to end with the key set, if somebody is subscribed; or else one
      delete for the key, if it is set. */
  ghost predicate Balanced(k: Cluster) {
    if O.Subscribed(k.occ) then Spare(k) >= 0 else |Due(k)| == One(k.occ.key.Some?)
  }

  /** Occupied and vacated have been reported in turn, as the key went. */
  ghost predicate InTurn(k: Cluster) { Toggle(k.occ.reports, O.Occupied, O.Vacated) == Some(k.occ.key.Some?) }

  /** Whatever happens: claims are subscribers', and reports in turn went as the key did. */
  ghost predicate Tidy(k: Cluster) {
    && (forall seat :: seat in k.phases && k.phases[seat].Claiming? ==> In(k.occ, seat))
    && (Toggle(k.occ.reports, O.Occupied, O.Vacated) == None || InTurn(k))
  }

  ghost predicate Sound(k: Cluster) { Tidy(k) && InTurn(k) && Balanced(k) }

  // -- what a step does to the account ---------------------------------------------------------------

  lemma SubscribedIff(occ: O.Occ, n: NodeId)
    ensures O.Subscribed(occ) <==> At(occ.subs, n) != {} || O.SubscribedElsewhere(occ, n)
  {
  }

  lemma ElsewhereIff(occ: O.Occ, n: NodeId)
    ensures O.SubscribedElsewhere(occ, n) <==> exists m :: m != n && At(occ.subs, m) != {}
  {
    if m :| m != n && At(occ.subs, m) != {} {
      assert m in occ.subs;
    }
    if m :| m in occ.subs && m != n && occ.subs[m] != {} {
      assert At(occ.subs, m) != {};
    }
  }

  lemma StepKeepsTidy(k: Cluster, step: Step)
    requires Tidy(k) && Possible(k, step)
    ensures Tidy(Next(k, step))
  {
    ToggleOne(k.occ.reports, O.Occupied, O.Occupied, O.Vacated);
    ToggleOne(k.occ.reports, O.Vacated, O.Occupied, O.Vacated);
  }

  lemma InTurnIff(k: Cluster, step: Step)
    requires Tidy(k) && Possible(k, step)
    ensures InTurn(Next(k, step)) <==> InTurn(k) && !(step.Delete? && k.occ.key == None)
  {
    ToggleOne(k.occ.reports, O.Occupied, O.Occupied, O.Vacated);
    ToggleOne(k.occ.reports, O.Vacated, O.Occupied, O.Vacated);
  }

  lemma NoClaimUnlessSubscribed(k: Cluster)
    requires Tidy(k) && !O.Subscribed(k.occ)
    ensures Claims(k) == {}
  {
    forall seat | seat in Claims(k) ensures false {
      assert In(k.occ, seat);
      SubscribedIff(k.occ, seat.0);
    }
  }

  /** Handlers on their way change nobody's subscription, so only their own standing. */
  ghost predicate Ends(step: Step) { !step.Add? && !step.Remove? }

  lemma EndingMoves(k: Cluster, step: Step)
    requires Possible(k, step) && Ends(step)
    ensures var k' := Next(k, step);
            && (O.Subscribed(k'.occ) <==> O.Subscribed(k.occ))
            && Claims(k') == Claims(k) - (if step.Claim? then {step.seat} else {})
            && Due(k') == (if step.Delete? then Due(k) - {step.seat}
                           else if Wrongs(k, step) then Due(k) + {step.seat}
                           else Due(k))
            && (Wrongs(k, step) ==> step.seat !in Due(k))
            && (step.Delete? ==> step.seat in Due(k))
            && (step.Claim? ==> step.seat in Claims(k))
  {
    var k' := Next(k, step);
    assert k'.occ.subs == k.occ.subs;
    assert O.Subscribed(k'.occ) <==> O.Subscribed(k.occ);
    assert forall n :: O.SubscribedElsewhere(k'.occ, n) <==> O.SubscribedElsewhere(k.occ, n);
    SubscribedIff(k.occ, step.seat.0);
    ElsewhereIff(k.occ, step.seat.0);
    hide O.Subscribed, O.SubscribedElsewhere;
    assert forall seat :: seat != step.seat ==> (seat in k'.phases <==> seat in k.phases);
    assert forall seat :: seat != step.seat && seat in k.phases ==> k'.phases[seat] == k.phases[seat];
  }

  /** The handler is to delete the key, not having heard of another node's subscribers. */
  ghost predicate Wrongs(k: Cluster, step: Step)
    requires Possible(k, step)
  {
    step.Decide? && !k.phases[step.seat].found && O.SubscribedElsewhere(k.occ, step.seat.0)
  }

  lemma Minus<T>(xs: set<T>, x: T)
    ensures |xs - {x}| == |xs| - One(x in xs)
    ensures x !in xs ==> |xs + {x}| == |xs| + 1
  {
  }

  /** A handler on its way upsets the account if and only if it finds the key set with
      nothing to spare, or decides for want of an answer with nothing to spare. */
  lemma EndingBalancedIff(k: Cluster, step: Step)
    requires Tidy(k) && Balanced(k) && Possible(k, step) && Ends(step) && (step.Delete? ==> k.occ.key.Some?)
    ensures Balanced(Next(k, step)) <==>
              !(((step.Claim? && k.occ.key.Some?) || Wrongs(k, step)) && Spare(k) <= 0)
  {
    EndingMoves(k, step);
    Minus(Claims(k), step.seat);
    Minus(Due(k), step.seat);
    if !O.Subscribed(k.occ) {
      NoClaimUnlessSubscribed(k);
      SubscribedIff(k.occ, step.seat.0);
    }
    hide O.Subscribed, O.SubscribedElsewhere, Claims, Due;
  }

  /** And what is out of balance no handler on its way gets back. */
  lemma EndingKeepsUnbalanced(k: Cluster, step: Step)
    requires Tidy(k) && !Balanced(k) && Possible(k, step) && Ends(step) && (step.Delete? ==> k.occ.key.Some?)
    ensures !Balanced(Next(k, step))
  {
    EndingMoves(k, step);
    Minus(Claims(k), step.seat);
    Minus(Due(k), step.seat);
    if !O.Subscribed(k.occ) {
      NoClaimUnlessSubscribed(k);
      SubscribedIff(k.occ, step.seat.0);
    }
    hide O.Subscribed, O.SubscribedElsewhere, Claims, Due;
  }

  lemma AddMoves(k: Cluster, seat: Seat)
    requires Possible(k, Add(seat))
    ensures var k' := Next(k, Add(seat));
            && Claims(k') == Claims(k) + (if At(k.occ.subs, seat.0) == {} then {seat} else {})
            && seat !in Claims(k)
            && O.Subscribed(k'.occ)
            && (At(k.occ.subs, seat.0) != {} ==> O.Subscribed(k.occ))
  {
    SubscribedIff(k.occ, seat.0);
    SubscribedIff(Next(k, Add(seat)).occ, seat.0);
  }

  /** A new subscriber brings a claim if it is needed, and makes no delete due. */
  lemma AddKeepsBalanced(k: Cluster, seat: Seat)
    requires Tidy(k) && Balanced(k) && Possible(k, Add(seat))
    ensures Balanced(Next(k, Add(seat)))
  {
    hide O.Subscribed, Claims, Due, Possible, Tidy, In;
    AddMoves(k, seat);
    AddMakesNothingDue(k, seat);
    Smaller(Due(Next(k, Add(seat))), Due(k));
    Minus(Claims(k), seat);
    if !O.Subscribed(k.occ) {
      NoClaimUnlessSubscribed(k);
    }
  }

  lemma Smaller<T>(a: set<T>, b: set<T>)
    requires a <= b
    ensures |a| <= |b|
  {
    assert b == a + (b - a);
  }

  lemma AddMakesNothingDue(k: Cluster, seat: Seat)
    requires Possible(k, Add(seat))
    ensures Due(Next(k, Add(seat))) <= Due(k)
  {
    var k' := Next(k, Add(seat));
    forall t | t in Due(k') ensures t in Due(k) {
      ElsewhereIff(k.occ, t.0);
      ElsewhereIff(k'.occ, t.0);
      SubscribedIff(k.occ, t.0);
      SubscribedIff(k'.occ, t.0);
      assert forall m :: At(k.occ.subs, m) != {} ==> At(k'.occ.subs, m) != {};
    }
  }

  // -- leaving a node's table -----------------------------------------------------------------------------

  ghost function Undecided(k: Cluster): set<Seat> {
    set seat | seat in k.phases && (k.phases[seat].Counting? || k.phases[seat] == Asking(false))
  }

  /** Handlers of `n` that are asking and have heard of nobody. */
  ghost function Unheard(k: Cluster, n: NodeId): set<Seat> {
    set seat | seat in k.phases && seat.0 == n && k.phases[seat] == Asking(false)
  }

  /** Besides `n` only `m` has subscribers. */
  ghost predicate OnlyOther(occ: O.Occ, n: NodeId, m: NodeId) {
    && m != n && At(occ.subs, m) != {}
    && forall p :: p != n && At(occ.subs, p) != {} ==> p == m
  }

  /** With its node's last subscriber gone, either nobody is left while another handler
      has yet to decide, or only one node is left and too many of its own handlers are
      asking the others. */
  ghost predicate LeavesTooMuch(k: Cluster, seat: Seat) {
    && At(k.occ.subs, seat.0) == {seat.1}
    && (if !O.SubscribedElsewhere(k.occ, seat.0) then Undecided(k) != {}
        else exists m :: OnlyOther(k.occ, seat.0, m) && |Unheard(k, m)| > Spare(k))
  }

  lemma RemoveMoves(k: Cluster, seat: Seat)
    requires Possible(k, Remove(seat))
    ensures var k' := Next(k, Remove(seat));
            && Claims(k') == Claims(k)
            && (forall n :: At(k'.occ.subs, n) == At(k.occ.subs, n) - if n == seat.0 then {seat.1} else {})
            && (O.Subscribed(k'.occ) <==> At(k.occ.subs, seat.0) != {seat.1} || O.SubscribedElsewhere(k.occ, seat.0))
  {
    var k' := Next(k, Remove(seat));
    SubscribedIff(k'.occ, seat.0);
    ElsewhereIff(k.occ, seat.0);
    ElsewhereIff(k'.occ, seat.0);
    assert At(k'.occ.subs, seat.0) == {} <==> At(k.occ.subs, seat.0) == {seat.1};
  }

  lemma LastLeaves(k: Cluster, seat: Seat)
    requires Tidy(k) && Balanced(k) && Possible(k, Remove(seat))
    requires At(k.occ.subs, seat.0) == {seat.1} && !O.SubscribedElsewhere(k.occ, seat.0)
    ensures Balanced(Next(k, Remove(seat))) <==> Undecided(k) == {}
  {
    var k' := Next(k, Remove(seat));
    SubscribedIff(k.occ, seat.0);
    RemoveMoves(k, seat);
    NobodyClaims(k, seat);
    assert |Claims(k)| == 0 && |Due(k)| == 0 && k.occ.key.Some?;
    assert Due(k) == {};
    assert forall t :: t in k.phases ==> !O.SubscribedElsewhere(k'.occ, t.0) by {
      forall t | t in k.phases ensures !O.SubscribedElsewhere(k'.occ, t.0) { SubscribedIff(k'.occ, t.0); }
    }
    assert Due(k') == Undecided(k) + {seat} by {
      assert forall t :: t in k.phases ==> t in Due(k) || !k.phases[t].Deleting?;
    }
    assert seat !in Undecided(k);
    assert |Due(k')| == |Undecided(k)| + 1;
    hide O.Subscribed, O.SubscribedElsewhere, Claims, Due;
    if Undecided(k) != {} {
      assert |Undecided(k)| > 0;
    }
  }

  lemma NobodyClaims(k: Cluster, seat: Seat)
    requires Tidy(k) && Possible(k, Remove(seat))
    requires At(k.occ.subs, seat.0) == {seat.1} && !O.SubscribedElsewhere(k.occ, seat.0)
    ensures Claims(k) == {}
  {
    ElsewhereIff(k.occ, seat.0);
    assert forall t :: t in k.phases ==> t != seat && !In(k.occ, t);
  }

  lemma OthersAfterLast(k: Cluster, seat: Seat, n: NodeId)
    requires Possible(k, Remove(seat)) && At(k.occ.subs, seat.0) == {seat.1} && O.SubscribedElsewhere(k.occ, seat.0)
    ensures O.SubscribedElsewhere(k.occ, n)
    ensures O.SubscribedElsewhere(Next(k, Remove(seat)).occ, n) <==> !OnlyOther(k.occ, seat.0, n)
  {
    var k' := Next(k, Remove(seat));
    RemoveMoves(k, seat);
    ElsewhereIff(k.occ, seat.0);
    ElsewhereIff(k.occ, n);
    ElsewhereIff(k'.occ, n);
    hide O.SubscribedElsewhere, Claims, Possible;
    var q :| q != seat.0 && At(k.occ.subs, q) != {};
    assert At(k'.occ.subs, q) != {};
    assert forall m :: At(k'.occ.subs, m) != {} <==> m != seat.0 && At(k.occ.subs, m) != {};
  }

  /** What becomes due when a node loses its last subscriber but others have some: what
      the only other node's handlers have asked about in vain. */
  lemma DueAfterLast(k: Cluster, seat: Seat)
    requires Possible(k, Remove(seat)) && At(k.occ.subs, seat.0) == {seat.1} && O.SubscribedElsewhere(k.occ, seat.0)
    ensures forall m :: OnlyOther(k.occ, seat.0, m) ==>
              Due(Next(k, Remove(seat))) == Due(k) + Unheard(k, m) && Due(k) !! Unheard(k, m)
    ensures (forall m :: !OnlyOther(k.occ, seat.0, m)) ==> Due(Next(k, Remove(seat))) == Due(k)
  {
    var k' := Next(k, Remove(seat));
    RemoveMoves(k, seat);
    SubscribedIff(k.occ, seat.0);
    forall n: NodeId
      ensures O.SubscribedElsewhere(k.occ, n)
      ensures O.SubscribedElsewhere(k'.occ, n) <==> !OnlyOther(k.occ, seat.0, n)
    {
      OthersAfterLast(k, seat, n);
    }
    hide O.Subscribed, O.SubscribedElsewhere, Claims;
    forall m | OnlyOther(k.occ, seat.0, m)
      ensures Due(k') == Due(k) + Unheard(k, m) && Due(k) !! Unheard(k, m)
    {
      assert forall p :: OnlyOther(k.occ, seat.0, p) ==> p == m;
    }
  }

  lemma OneOfManyLeaves(k: Cluster, seat: Seat)
    requires Possible(k, Remove(seat)) && At(k.occ.subs, seat.0) != {seat.1}
    ensures Due(Next(k, Remove(seat))) == Due(k)
  {
    var k' := Next(k, Remove(seat));
    RemoveMoves(k, seat);
    SubscribedIff(k.occ, seat.0);
    forall n: NodeId ensures O.SubscribedElsewhere(k'.occ, n) <==> O.SubscribedElsewhere(k.occ, n) {
      ElsewhereIff(k.occ, n);
      ElsewhereIff(k'.occ, n);
      assert forall m :: At(k'.occ.subs, m) != {} <==> At(k.occ.subs, m) != {};
    }
    hide O.Subscribed, O.SubscribedElsewhere;
  }

  lemma RemoveBalancedIff(k: Cluster, seat: Seat)
    requires Tidy(k) && Balanced(k) && Possible(k, Remove(seat))
    ensures Balanced(Next(k, Remove(seat))) <==> !LeavesTooMuch(k, seat)
  {
    if At(k.occ.subs, seat.0) == {seat.1} && !O.SubscribedElsewhere(k.occ, seat.0) {
      LastLeaves(k, seat);
    } else {
      RemoveMoves(k, seat);
      SubscribedIff(k.occ, seat.0);
      hide O.Subscribed, O.SubscribedElsewhere, Claims, Due, Unheard, Undecided, Tidy;
      if At(k.occ.subs, seat.0) == {seat.1} {
        DueAfterLast(k, seat);
        if m :| OnlyOther(k.occ, seat.0, m) {
          assert |Due(k) + Unheard(k, m)| == |Due(k)| + |Unheard(k, m)|;
          assert forall p :: OnlyOther(k.occ, seat.0, p) ==> p == m;
        }
      } else {
        OneOfManyLeaves(k, seat);
      }
    }
  }

  // -- collisions ------------------------------------------------------------------------------------------

  /** A SETNX that finds the key, or a verdict for want of an answer, with nothing to
      spare; a leave from a table that leaves too much; a DEL that finds no key. */
  ghost predicate Collides(k: Cluster, step: Step)
    requires Possible(k, step)
  {
    match step
    case Claim(_) => k.occ.key.Some? && Spare(k) <= 0
    case Remove(seat) => LeavesTooMuch(k, seat)
    case Decide(seat) => Wrongs(k, step) && Spare(k) <= 0
    case Delete(_) => k.occ.key == None
    case _ => false
  }

  lemma SoundIffNoCollision(k: Cluster, step: Step)
    requires Sound(k) && Possible(k, step)
    ensures Sound(Next(k, step)) <==> !Collides(k, step)
  {
    StepKeepsTidy(k, step);
    InTurnIff(k, step);
    hide Tidy, InTurn, Balanced, Next, Possible, Claims, Due, Spare, LeavesTooMuch;
    match step
    case Add(seat) => AddKeepsBalanced(k, seat);
    case Remove(seat) => RemoveBalancedIff(k, seat);
    case Delete(_) => if k.occ.key.Some? { EndingBalancedIff(k, step); }
    case _ => EndingBalancedIff(k, step);
  }

  // -- how the handlers on their way can end -------------------------------------------------------------

  /** Nobody is on the way, the key is set exactly while somebody is subscribed, and the
      reports took turns, the last one true. */
  ghost predicate Exact(k: Cluster) {
    && k.phases == map[] && O.Agrees(k.occ) && O.Truthful(k.occ)
  }

  ghost predicate EndsExactly(k: Cluster, trace: seq<Step>) {
    && (forall i :: 0 <= i < |trace| ==> Ends(trace[i]))
    && RunFrom(k, trace).Some? && Exact(RunFrom(k, trace).value)
  }

  ghost predicate CanEndExactly(k: Cluster) { exists trace :: EndsExactly(k, trace) }

  lemma {:induction false} RunFirst(k: Cluster, step: Step, rest: seq<Step>)
    requires Possible(k, step)
    ensures RunFrom(k, [step] + rest) == RunFrom(Next(k, step), rest)
    decreases |rest|
  {
    if rest == [] {
      assert [step] + rest == [step] && [step][..0] == [];
      assert RunFrom(k, []) == Some(k);
    } else {
      assert ([step] + rest)[..|[step] + rest| - 1] == [step] + rest[..|rest| - 1];
      RunFirst(k, step, rest[..|rest| - 1]);
    }
  }

  lemma {:induction false} FirstIsPossible(k: Cluster, trace: seq<Step>)
    requires RunFrom(k, trace).Some? && trace != []
    ensures Possible(k, trace[0])
    decreases |trace|
  {
    if |trace| > 1 {
      FirstIsPossible(k, trace[..|trace| - 1]);
    } else {
      assert trace[..0] == [] && RunFrom(k, []) == Some(k);
    }
  }

  /** What ends exactly was sound. */
  lemma {:induction false} EndedExactlyWasSound(k: Cluster, trace: seq<Step>)
    requires Tidy(k) && EndsExactly(k, trace)
    ensures Sound(k)
    decreases |trace|
  {
    if trace == [] {
      assert Due(k) == {} && Claims(k) == {};
    } else {
      var step, rest := trace[0], trace[1..];
      FirstIsPossible(k, trace);
      RunFirst(k, step, rest);
      assert [step] + rest == trace;
      StepKeepsTidy(k, step);
      EndedExactlyWasSound(Next(k, step), rest);
      InTurnIff(k, step);
      if !Balanced(k) {
        EndingKeepsUnbalanced(k, step);
      }
    }
  }

  ghost function Counters(k: Cluster): set<Seat> { set seat | seat in k.phases && k.phases[seat].Counting? }

  ghost function Askers(k: Cluster): set<Seat> { set seat | seat in k.phases && k.phases[seat] == Asking(false) }

  /** There is less left to do: to count, to hear, or to end. */
  ghost predicate Less(k': Cluster, k: Cluster) {
    || |Counters(k')| < |Counters(k)|
    || (|Counters(k')| == |Counters(k)| && |Askers(k')| < |Askers(k)|)
    || (|Counters(k')| == |Counters(k)| && |Askers(k')| == |Askers(k)| && |k'.phases| < |k.phases|)
  }

  /** There is always a step towards the end that does not collide: count, ask and hear;
      with verdicts in, claim while the key is not set and delete while it is. */
  lemma StepTowardsEnd(k: Cluster) returns (step: Step)
    requires Sound(k) && k.phases != map[]
    ensures Possible(k, step) && Ends(step) && !Collides(k, step) && Less(Next(k, step), k)
  {
    if Counters(k) != {} {
      var seat :| seat in Counters(k);
      step := Count(seat);
      CountIsLess(k, seat);
    } else if Askers(k) != {} {
      var seat :| seat in Askers(k);
      step := AnswerOrDecide(k, seat);
      HearingIsLess(k, step);
    } else {
      assert forall seat :: seat in k.phases ==> seat !in Counters(k) && seat !in Askers(k);
      step := Finish(k);
      FinishingIsLess(k, step);
    }
  }

  lemma CountIsLess(k: Cluster, seat: Seat)
    requires Possible(k, Count(seat))
    ensures Less(Next(k, Count(seat)), k)
  {
    assert Counters(Next(k, Count(seat))) == Counters(k) - {seat};
  }

  lemma HearingIsLess(k: Cluster, step: Step)
    requires Possible(k, step) && (step.Answer? || step.Decide?) && k.phases[step.seat] == Asking(false)
    requires step.Answer? ==> At(k.occ.subs, step.peer) != {}
    ensures Less(Next(k, step), k)
  {
    assert Counters(Next(k, step)) == Counters(k);
    assert Askers(Next(k, step)) == Askers(k) - {step.seat};
  }

  lemma FinishingIsLess(k: Cluster, step: Step)
    requires Possible(k, step) && (step.Claim? || step.Delete? || (step.Decide? && k.phases[step.seat].found))
    ensures Less(Next(k, step), k)
  {
    assert Counters(Next(k, step)) == Counters(k) && Askers(Next(k, step)) == Askers(k);
    assert Next(k, step).phases.Keys == k.phases.Keys - {step.seat};
    assert |Next(k, step).phases.Keys| < |k.phases.Keys|;
  }

  lemma AnswerOrDecide(k: Cluster, seat: Seat) returns (step: Step)
    requires Stands(k, seat, Asking(false))
    ensures Possible(k, step) && !Collides(k, step) && step.seat == seat
    ensures (step.Decide? && !O.SubscribedElsewhere(k.occ, seat.0)) || (step.Answer? && At(k.occ.subs, step.peer) != {})
  {
    ElsewhereIff(k.occ, seat.0);
    if O.SubscribedElsewhere(k.occ, seat.0) {
      var m :| m != seat.0 && At(k.occ.subs, m) != {};
      step := Answer(seat, m);
    } else {
      step := Decide(seat);
    }
  }

  lemma Finish(k: Cluster) returns (step: Step)
    requires Sound(k) && k.phases != map[]
    requires forall seat :: seat in k.phases ==> !k.phases[seat].Counting? && k.phases[seat] != Asking(false)
    ensures Possible(k, step) && Ends(step) && !Collides(k, step)
    ensures step.Claim? || step.Delete? || (step.Decide? && k.phases[step.seat].found)
  {
    if seat :| seat in k.phases && k.phases[seat].Asking? {
      step := Decide(seat);
    } else {
      assert forall seat :: seat in k.phases ==> k.phases[seat].Claiming? || k.phases[seat].Deleting?;
      step := ClaimOrDelete(k);
    }
  }

  lemma ClaimOrDelete(k: Cluster) returns (step: Step)
    requires Sound(k) && k.phases != map[]
    requires forall seat :: seat in k.phases ==> k.phases[seat].Claiming? || k.phases[seat].Deleting?
    ensures Possible(k, step) && (step.Claim? || step.Delete?) && !Collides(k, step)
  {
    var seat :| seat in k.phases;
    if k.occ.key == None {
      SomeoneClaims(k, seat);
      var s :| s in Claims(k);
      step := Claim(s);
    } else if Due(k) != {} {
      var s :| s in Due(k);
      step := Delete(s);
    } else {
      assert seat !in Due(k);
      assert seat in Claims(k);
      assert |Claims(k)| > 0 && |Due(k)| == 0;
      step := Claim(seat);
    }
  }

  lemma SomeoneClaims(k: Cluster, seat: Seat)
    requires Balanced(k) && k.occ.key == None && seat in k.phases
    requires k.phases[seat].Claiming? || k.phases[seat].Deleting?
    ensures Claims(k) != {}
  {
    if k.phases[seat].Deleting? {
      assert seat in Due(k);
      assert |Due(k)| > 0;
    } else {
      assert seat in Claims(k);
    }
  }

  lemma {:induction false} SoundCanEnd(k: Cluster) returns (trace: seq<Step>)
    requires Sound(k)
    ensures EndsExactly(k, trace)
    decreases |Counters(k)|, |Askers(k)|, |k.phases|
  {
    if k.phases == map[] {
      trace := [];
      assert Due(k) == {} && Claims(k) == {};
    } else {
      var step := StepTowardsEnd(k);
      SoundIffNoCollision(k, step);
      var rest := SoundCanEnd(Next(k, step));
      RunFirst(k, step, rest);
      trace := [step] + rest;
    }
  }

  // -- over whole runs ----------------------------------------------------------------------------------

  lemma StartIsSound()
    ensures Sound(START)
  {
    assert Due(START) == {};
  }

  lemma {:induction false} RunIsTidy(trace: seq<Step>)
    requires Run(trace).Some?
    ensures Tidy(Run(trace).value)
    decreases |trace|
  {
    if trace == [] {
      StartIsSound();
    } else {
      RunIsTidy(trace[..|trace| - 1]);
      StepKeepsTidy(Run(trace[..|trace| - 1]).value, trace[|trace| - 1]);
    }
  }

  /** At every point of every run, however it got there: the handlers on their way can end
      with everything exact if and only if the account is in order. */
  lemma CanEndIffSound(trace: seq<Step>)
    requires Run(trace).Some?
    ensures CanEndExactly(Run(trace).value) <==> Sound(Run(trace).value)
  {
    var k := Run(trace).value;
    RunIsTidy(trace);
    if Sound(k) {
      var ending := SoundCanEnd(k);
      assert EndsExactly(k, ending);
    }
    if CanEndExactly(k) {
      var ending :| EndsExactly(k, ending);
      EndedExactlyWasSound(k, ending);
    }
  }

  ghost predicate AlwaysCanEndExactly(trace: seq<Step>)
    requires Run(trace).Some?
    decreases |trace|
  {
    CanEndExactly(Run(trace).value) && (trace == [] || AlwaysCanEndExactly(trace[..|trace| - 1]))
  }

  ghost predicate NeverCollides(trace: seq<Step>)
    requires Run(trace).Some?
    decreases |trace|
  {
    trace == [] ||
    var before, step := trace[..|trace| - 1], trace[|trace| - 1];
    NeverCollides(before) && !Collides(Run(before).value, step)
  }

  /** Over every run: the handlers on their way can at every point end with the key and
      the reports exact if and only if no operation collides; and then they are exact
      whenever none is on its way. */
  lemma {:induction false} OccupancyHoldsIffNoCollision(trace: seq<Step>)
    requires Run(trace).Some?
    ensures AlwaysCanEndExactly(trace) <==> NeverCollides(trace)
    ensures NeverCollides(trace) ==> Sound(Run(trace).value)
    ensures NeverCollides(trace) && Run(trace).value.phases == map[] ==> Exact(Run(trace).value)
    decreases |trace|
  {
    CanEndIffSound(trace);
    if trace == [] {
      StartIsSound();
    } else {
      var before := trace[..|trace| - 1];
      OccupancyHoldsIffNoCollision(before);
      if NeverCollides(before) {
        SoundIffNoCollision(Run(before).value, trace[|trace| - 1]);
      }
    }
    if NeverCollides(trace) && Run(trace).value.phases == map[] {
      QuietIsExact(Run(trace).value);
    }
  }

  lemma QuietIsExact(k: Cluster)
    requires Sound(k) && k.phases == map[]
    ensures Exact(k)
  {
    assert Due(k) == {} && Claims(k) == {};
  }

  lemma RunOne(k: Cluster, trace: seq<Step>, step: Step)
    requires RunFrom(k, trace).Some? && Possible(RunFrom(k, trace).value, step)
    ensures RunFrom(k, trace + [step]) == Some(Next(RunFrom(k, trace).value, step))
  {
    assert (trace + [step])[..|trace + [step]| - 1] == trace;
  }

  lemma RunTwo(k: Cluster, trace: seq<Step>, a: Step, b: Step)
    requires RunFrom(k, trace).Some? && Possible(RunFrom(k, trace).value, a)
    requires Possible(Next(RunFrom(k, trace).value, a), b)
    ensures RunFrom(k, trace + [a, b]) == Some(Next(Next(RunFrom(k, trace).value, a), b))
  {
    RunOne(k, trace, a);
    RunOne(k, trace + [a], b);
    assert trace + [a] + [b] == trace + [a, b];
  }

  /** The first collision is the point of no return: no way of ending the handlers on
      their way makes key and reports exact again. Short of one, some way does. */
  lemma CollisionIsPointOfNoReturn(trace: seq<Step>, step: Step)
    requires Run(trace).Some? && NeverCollides(trace) && Possible(Run(trace).value, step)
    ensures Collides(Run(trace).value, step) <==> !CanEndExactly(Next(Run(trace).value, step))
  {
    OccupancyHoldsIffNoCollision(trace);
    SoundIffNoCollision(Run(trace).value, step);
    RunOne(START, trace, step);
    CanEndIffSound(trace + [step]);
  }

  // -- one handler at a time --------------------------------------------------------------------------------

  ghost function JoinSteps(occ: O.Occ, seat: Seat): seq<Step> {
    [Add(seat)] + if At(occ.subs, seat.0) == {} then [Claim(seat)] else []
  }

  /** `heard` are the peers that answer. */
  ghost function LeaveSteps(occ: O.Occ, seat: Seat, heard: seq<NodeId>): seq<Step> {
    if At(occ.subs, seat.0) != {seat.1} then [Remove(seat)]
    else
      [Remove(seat), Count(seat)] + Answers(seat, heard) + [Decide(seat)]
      + if O.HeardOfOne(occ, heard) then [] else [Delete(seat)]
  }

  ghost function Answers(seat: Seat, heard: seq<NodeId>): seq<Step> {
    seq(|heard|, i requires 0 <= i < |heard| => Answer(seat, heard[i]))
  }

  /** Undisturbed, a subscription's operations are the whole step of `Occupancy`. */
  lemma UndisturbedJoin(k: Cluster, seat: Seat)
    requires Possible(k, Add(seat))
    ensures RunFrom(k, JoinSteps(k.occ, seat)) == Some(Cluster(O.Next(k.occ, O.Join(seat.0, seat.1)), k.phases))
  {
    RunOne(k, [], Add(seat));
    assert [] + [Add(seat)] == [Add(seat)];
    if At(k.occ.subs, seat.0) == {} {
      RunOne(k, [Add(seat)], Claim(seat));
      assert k.phases[seat := Claiming] - {seat} == k.phases;
    }
  }

  lemma {:induction false} HearAll(k: Cluster, seat: Seat, before: seq<Step>, heard: seq<NodeId>)
    requires RunFrom(k, before).Some? && Stands(RunFrom(k, before).value, seat, Asking(false)) && seat.0 !in heard
    ensures var k0 := RunFrom(k, before).value;
            RunFrom(k, before + Answers(seat, heard))
              == Some(k0.(phases := k0.phases[seat := Asking(O.HeardOfOne(k0.occ, heard))]))
    decreases |heard|
  {
    var k0 := RunFrom(k, before).value;
    if heard == [] {
      assert before + Answers(seat, heard) == before;
      assert k0.phases[seat := Asking(false)] == k0.phases;
    } else {
      var rest, last := heard[..|heard| - 1], heard[|heard| - 1];
      assert last in heard;
      HearAll(k, seat, before, rest);
      assert before + Answers(seat, heard) == before + Answers(seat, rest) + [Answer(seat, last)];
      RunOne(k, before + Answers(seat, rest), Answer(seat, last));
      HeardOneMore(k0.occ, rest, last);
      assert rest + [last] == heard;
      var asked := k0.phases[seat := Asking(O.HeardOfOne(k0.occ, rest))];
      assert asked[seat := Asking(true)] == k0.phases[seat := Asking(true)];
    }
  }

  lemma HeardOneMore(occ: O.Occ, rest: seq<NodeId>, last: NodeId)
    ensures O.HeardOfOne(occ, rest + [last]) <==> O.HeardOfOne(occ, rest) || At(occ.subs, last) != {}
  {
    if i :| 0 <= i < |rest| && At(occ.subs, rest[i]) != {} {
      assert (rest + [last])[i] == rest[i];
    }
    if At(occ.subs, last) != {} {
      assert (rest + [last])[|rest|] == last;
    }
  }

  lemma RemoveAndCount(k: Cluster, seat: Seat)
    requires Possible(k, Remove(seat)) && At(k.occ.subs, seat.0) == {seat.1}
    ensures var left := k.occ.subs[seat.0 := {}];
            RunFrom(k, [Remove(seat), Count(seat)])
              == Some(Cluster(k.occ.(subs := left), k.phases[seat := Asking(false)]))
  {
    assert [] + [Remove(seat), Count(seat)] == [Remove(seat), Count(seat)];
    assert At(k.occ.subs, seat.0) - {seat.1} == {};
    RunTwo(k, [], Remove(seat), Count(seat));
    assert k.phases[seat := Counting][seat := Asking(false)] == k.phases[seat := Asking(false)];
  }

  /** And an unsubscription's, whoever answers. */
  lemma UndisturbedLeave(k: Cluster, seat: Seat, heard: seq<NodeId>)
    requires Possible(k, Remove(seat)) && seat.0 !in heard
    ensures RunFrom(k, LeaveSteps(k.occ, seat, heard))
         == Some(Cluster(O.Next(k.occ, O.Leave(seat.0, seat.1, heard)), k.phases))
  {
    hide O.Next, O.HeardOfOne;
    if At(k.occ.subs, seat.0) == {seat.1} {
      hide *;
      RemoveAndCount(k, seat);
      DecideAndDelete(k, seat, heard);
    } else {
      RemoveOneOfMany(k, seat, heard);
    }
  }

  lemma RemoveOneOfMany(k: Cluster, seat: Seat, heard: seq<NodeId>)
    requires Possible(k, Remove(seat)) && At(k.occ.subs, seat.0) != {seat.1} && seat.0 !in heard
    ensures RunFrom(k, [Remove(seat)]) == Some(Cluster(O.Next(k.occ, O.Leave(seat.0, seat.1, heard)), k.phases))
  {
    assert At(k.occ.subs, seat.0) - {seat.1} != {};
    RunOne(k, [], Remove(seat));
    assert [] + [Remove(seat)] == [Remove(seat)];
  }

  lemma DecideAndDelete(k: Cluster, seat: Seat, heard: seq<NodeId>)
    requires Possible(k, Remove(seat)) && seat.0 !in heard && At(k.occ.subs, seat.0) == {seat.1}
    requires var left := k.occ.subs[seat.0 := {}];
             RunFrom(k, [Remove(seat), Count(seat)])
               == Some(Cluster(k.occ.(subs := left), k.phases[seat := Asking(false)]))
    ensures RunFrom(k, LeaveSteps(k.occ, seat, heard))
         == Some(Cluster(O.Next(k.occ, O.Leave(seat.0, seat.1, heard)), k.phases))
  {
    var first, left := [Remove(seat), Count(seat)], k.occ.(subs := k.occ.subs[seat.0 := {}]);
    var answered := first + Answers(seat, heard);
    assert forall i :: 0 <= i < |heard| ==> heard[i] != seat.0;
    assert O.HeardOfOne(left, heard) <==> O.HeardOfOne(k.occ, heard);
    HearAll(k, seat, first, heard);
    O.LeaveVerdict(k.occ, seat.0, seat.1, heard);
    assert At(k.occ.subs, seat.0) - {seat.1} == {};
    var asked := k.phases[seat := Asking(false)][seat := Asking(O.HeardOfOne(k.occ, heard))];
    assert RunFrom(k, answered) == Some(Cluster(left, asked));
    RunOne(k, answered, Decide(seat));
    if O.HeardOfOne(k.occ, heard) {
      assert asked - {seat} == k.phases;
      assert LeaveSteps(k.occ, seat, heard) == answered + [Decide(seat)];
    } else {
      RunOne(k, answered + [Decide(seat)], Delete(seat));
      assert asked[seat := Deleting] - {seat} == k.phases;
      assert LeaveSteps(k.occ, seat, heard) == answered + [Decide(seat)] + [Delete(seat)];
    }
  }

  // -- two ways it goes wrong --------------------------------------------------------------------------------

  /** On one node, nobody else involved: somebody subscribes after the last leaver has
      counted and before it deletes. The channel ends up without a key and reported
      vacated, with its subscriber. */
  lemma NewcomerLosesKey(k: Cluster, n: NodeId, s: SocketId, t: SocketId)
    requires k.phases == map[] && At(k.occ.subs, n) == {s} && !O.SubscribedElsewhere(k.occ, n) && s != t
    requires k.occ.key.Some?
    ensures var left, came := (n, s), (n, t);
            var trace := [Remove(left), Count(left)] + [Add(came), Claim(came)] + [Decide(left), Delete(left)];
            RunFrom(k, trace) == Some(Cluster(O.Occ(k.occ.subs[n := {t}], None, k.occ.reports + [O.Vacated]), map[]))
  {
    var left, came := (n, s), (n, t);
    assert {s} - {s} == {} && {} + {t} == {t};
    RunTwo(k, [], Remove(left), Count(left));
    assert [] + [Remove(left), Count(left)] == [Remove(left), Count(left)];
    assert map[left := Counting][left := Asking(false)] == map[left := Asking(false)];
    var empty := k.occ.(subs := k.occ.subs[n := {}]);
    assert RunFrom(k, [Remove(left), Count(left)]) == Some(Cluster(empty, map[left := Asking(false)]));
    assert k.occ.subs[n := {}][n := {t}] == k.occ.subs[n := {t}];
    assert map[left := Asking(false)][came := Claiming] - {came} == map[left := Asking(false)];
    RunTwo(k, [Remove(left), Count(left)], Add(came), Claim(came));
    var before := [Remove(left), Count(left)] + [Add(came), Claim(came)];
    assert RunFrom(k, before) == Some(Cluster(k.occ.(subs := k.occ.subs[n := {t}]), map[left := Asking(false)]));
    RunTwo(k, before, Decide(left), Delete(left));
    assert map[left := Asking(false)][left := Deleting] - {left} == map[];
  }

  /** On two nodes, every answer heard: the last subscribers of both leave before either
      has counted. The channel is reported vacated twice. */
  lemma BothVacate(k: Cluster, n: NodeId, s: SocketId, m: NodeId, t: SocketId)
    requires k.phases == map[] && At(k.occ.subs, n) == {s} && OnlyOther(k.occ, n, m) && At(k.occ.subs, m) == {t}
    ensures var a, b := (n, s), (m, t);
            var trace := [Remove(a), Remove(b)] + [Count(a), Count(b)] + [Answer(a, m), Answer(b, n)]
              + [Decide(a), Decide(b)] + [Delete(a), Delete(b)];
            var subs := k.occ.subs[n := {}][m := {}];
            RunFrom(k, trace) == Some(Cluster(O.Occ(subs, None, k.occ.reports + [O.Vacated] + [O.Vacated]), map[]))
  {
    var a, b, subs := (n, s), (m, t), k.occ.subs[n := {}][m := {}];
    assert {s} - {s} == {} && {t} - {t} == {};
    RunTwo(k, [], Remove(a), Remove(b));
    var first := [Remove(a), Remove(b)];
    assert [] + first == first;
    assert RunFrom(k, first) == Some(Cluster(k.occ.(subs := subs), map[a := Counting, b := Counting]));
    assert map[a := Counting, b := Counting][a := Asking(false)][b := Asking(false)]
        == map[a := Asking(false), b := Asking(false)];
    RunTwo(k, first, Count(a), Count(b));
    var asking := Cluster(k.occ.(subs := subs), map[a := Asking(false), b := Asking(false)]);
    assert RunFrom(k, first + [Count(a), Count(b)]) == Some(asking);
    RunTwo(k, first + [Count(a), Count(b)], Answer(a, m), Answer(b, n));
    var heard := first + [Count(a), Count(b)] + [Answer(a, m), Answer(b, n)];
    assert RunFrom(k, heard) == Some(asking);
    assert map[a := Asking(false), b := Asking(false)][a := Deleting][b := Deleting]
        == map[a := Deleting, b := Deleting];
    RunTwo(k, heard, Decide(a), Decide(b));
    assert RunFrom(k, heard + [Decide(a), Decide(b)])
        == Some(Cluster(k.occ.(subs := subs), map[a := Deleting, b := Deleting]));
    RunTwo(k, heard + [Decide(a), Decide(b)], Delete(a), Delete(b));
  }
}
