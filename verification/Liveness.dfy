/** The life of one connection loop in time: inbound frames, outbound messages and a
    resettable timer that pings first and gives up next. */
module Liveness {
  import opened Protocol

  /** One turn of the loop: when it woke up, and when it was done with it. */
  datatype Wake =
    | Frame(at: nat, done: nat)                 // text or binary within the size limit, ping, pong
    | Oversized(at: nat, done: nat)
    | PeerGone(at: nat, done: nat)              // close frame, end of stream, read error
    | Outbound(at: nat, done: nat, ok: bool)    // a queued message goes out
    | Timer(at: nat, done: nat, ok: bool)       // the deadline has passed; `ok`: the ping went out
    | Flagged(at: nat, done: nat)               // the force-close flag is seen set

  datatype End = PongMissing | TooLarge | Gone | SendFailed | ForceClosed

  /** How often to ping and how long to wait for an answer. */
  datatype Settings = Settings(pingInterval: nat, pongTimeout: nat)

  datatype Loop = Loop(deadline: nat, pinged: bool, now: nat, end: Option<End>)

  ghost predicate Possible(l: Loop, w: Wake) {
    && l.end == None && l.now <= w.at <= w.done
    && (w.Timer? ==> l.deadline <= w.at)
  }

  ghost function Next(s: Settings, l: Loop, w: Wake): Loop {
    match w
    case Frame(at, done) => Loop(at + s.pingInterval, false, done, None)
    case Oversized(_, done) => l.(now := done, end := Some(TooLarge))
    case PeerGone(_, done) => l.(now := done, end := Some(Gone))
    case Outbound(_, done, ok) => l.(now := done, end := if ok then None else Some(SendFailed))
    case Flagged(_, done) => l.(now := done, end := Some(ForceClosed))
    case Timer(_, done, ok) =>
      if l.pinged then l.(now := done, end := Some(PongMissing))
      else if !ok then Loop(l.deadline, true, done, Some(SendFailed))
      else Loop(done + s.pongTimeout, true, done, None)
  }

  ghost function Run(s: Settings, start: nat, wakes: seq<Wake>): Option<Loop>
    decreases |wakes|
  {
    if wakes == [] then Some(Loop(start + s.pingInterval, false, start, None))
    else
      var before, w := Run(s, start, wakes[..|wakes| - 1]), wakes[|wakes| - 1];
      if before.Some? && Possible(before.value, w) then Some(Next(s, before.value, w)) else None
  }

  /** A ping has gone out, or was about to, and no frame has come since. */
  ghost predicate Unanswered(wakes: seq<Wake>) {
    exists i :: 0 <= i < |wakes| && wakes[i].Timer? && forall j :: i < j < |wakes| ==> !wakes[j].Frame?
  }

  /** What the last turn ends the loop for, if it does. */
  ghost predicate EndedBy(wakes: seq<Wake>, end: Option<End>) {
    && (end == None || wakes != [])
    && (wakes != [] ==>
          var w, unanswered := wakes[|wakes| - 1], Unanswered(wakes[..|wakes| - 1]);
          && (end == Some(TooLarge) <==> w.Oversized?)
          && (end == Some(Gone) <==> w.PeerGone?)
          && (end == Some(ForceClosed) <==> w.Flagged?)
          && (end == Some(PongMissing) <==> w.Timer? && unanswered)
          && (end == Some(SendFailed) <==> (w.Outbound? && !w.ok) || (w.Timer? && !w.ok && !unanswered)))
  }

  lemma UnansweredOneMore(wakes: seq<Wake>, w: Wake)
    ensures Unanswered(wakes + [w]) <==> w.Timer? || (Unanswered(wakes) && !w.Frame?)
  {
    var longer := wakes + [w];
    assert longer[|wakes|] == w && forall j :: 0 <= j < |wakes| ==> longer[j] == wakes[j];
    if w.Timer? {
      assert longer[|wakes|].Timer?;
    } else if Unanswered(wakes) && !w.Frame? {
      var i :| 0 <= i < |wakes| && wakes[i].Timer? && forall j :: i < j < |wakes| ==> !wakes[j].Frame?;
      assert longer[i].Timer?;
    }
    if Unanswered(longer) {
      var i :| 0 <= i < |longer| && longer[i].Timer? && forall j :: i < j < |longer| ==> !longer[j].Frame?;
      assert i < |wakes| ==> wakes[i].Timer? && forall j :: i < j < |wakes| ==> !wakes[j].Frame?;
    }
  }

  /** For every run: the loop has ended if and only if its last turn was an oversized frame,
      a lost peer, the flag seen set, a failed send, or a timer with a ping unanswered, and
      for that reason; no turn before the last was one of these. */
  lemma {:induction false} EndsIff(s: Settings, start: nat, wakes: seq<Wake>)
    requires Run(s, start, wakes).Some?
    ensures EndedBy(wakes, Run(s, start, wakes).value.end)
    ensures forall i :: 0 <= i < |wakes| ==> EndedBy(wakes[..i], None)
    ensures Run(s, start, wakes).value.pinged <==> Unanswered(wakes)
    decreases |wakes|
  {
    if wakes != [] {
      var rest, w := wakes[..|wakes| - 1], wakes[|wakes| - 1];
      EndsIff(s, start, rest);
      assert rest + [w] == wakes;
      UnansweredOneMore(rest, w);
      forall i | 0 <= i < |wakes| ensures EndedBy(wakes[..i], None) {
        if i < |rest| { assert rest[..i] == wakes[..i]; }
      }
    }
  }

  lemma TakenEnds(s: Settings, start: nat, wakes: seq<Wake>, taken: nat)
    requires taken <= |wakes| && Run(s, start, wakes[..taken]).Some?
    ensures EndedBy(wakes[..taken], Run(s, start, wakes[..taken]).value.end)
    ensures forall i :: 0 <= i < taken ==> EndedBy(wakes[..i], None)
  {
    hide EndedBy, Run;
    EndsIff(s, start, wakes[..taken]);
    assert forall i :: 0 <= i < taken ==> wakes[..taken][..i] == wakes[..i];
  }

  /** Every turn is possible in its place unless the loop has ended before. */
  ghost predicate Plausible(s: Settings, start: nat, wakes: seq<Wake>) {
    forall i :: 0 <= i < |wakes| && Run(s, start, wakes[..i]).Some? && Run(s, start, wakes[..i]).value.end == None ==>
      Possible(Run(s, start, wakes[..i]).value, wakes[i])
  }

  /** The connection loop. It takes turns until one ends it, or none is left to take. */
  method RunConnection(s: Settings, start: nat, wakes: seq<Wake>)
    returns (taken: nat, end: Option<End>, deadline: nat, pinged: bool)
    requires Plausible(s, start, wakes)
    ensures taken <= |wakes| && Run(s, start, wakes[..taken]).Some?
    ensures var l := Run(s, start, wakes[..taken]).value;
            end == l.end && deadline == l.deadline && pinged == l.pinged
    ensures end == None ==> taken == |wakes|
    ensures EndedBy(wakes[..taken], end) && forall i :: 0 <= i < taken ==> EndedBy(wakes[..i], None)
  {
    hide EndedBy;
    deadline, pinged := start + s.pingInterval, false;
    ghost var now: nat := start;
    taken, end := 0, None;
    while taken < |wakes| && end == None
      invariant taken <= |wakes| && Run(s, start, wakes[..taken]) == Some(Loop(deadline, pinged, now, end))
    {
      var w := wakes[taken];
      assert wakes[..taken + 1][..taken] == wakes[..taken];
      match w {
        case Frame(at, _) =>
          pinged := false;
          deadline := at + s.pingInterval;
        case Oversized(_, _) => end := Some(TooLarge);
        case PeerGone(_, _) => end := Some(Gone);
        case Outbound(_, _, ok) =>
          if !ok { end := Some(SendFailed); }
        case Flagged(_, _) => end := Some(ForceClosed);
        case Timer(_, done, ok) =>
          if pinged {
            end := Some(PongMissing);
          } else {
            pinged := true;
            if !ok {
              end := Some(SendFailed);
            } else {
              deadline := done + s.pongTimeout;
            }
          }
      }
      now := w.done;
      taken := taken + 1;
    }
    assert end == None ==> wakes[..taken] == wakes;
    TakenEnds(s, start, wakes, taken);
  }

  // -- silence --------------------------------------------------------------------------------

  /** When the last inbound frame was processed; opening counts as one. */
  ghost function LastFrame(start: nat, wakes: seq<Wake>): nat
    decreases |wakes|
  {
    if wakes == [] then start
    else if wakes[|wakes| - 1].Frame? then wakes[|wakes| - 1].at
    else LastFrame(start, wakes[..|wakes| - 1])
  }

  /** The timer is never more than `late` behind, and no turn takes longer than `busy`. */
  ghost predicate Punctual(s: Settings, start: nat, wakes: seq<Wake>, late: nat, busy: nat)
    requires Run(s, start, wakes).Some?
    decreases |wakes|
  {
    wakes == [] ||
    var before, w := wakes[..|wakes| - 1], wakes[|wakes| - 1];
    && Punctual(s, start, before, late, busy)
    && w.at <= Run(s, start, before).value.deadline + late
    && w.done <= w.at + busy
  }

  /** While the loop runs, the deadline measures the silence so far. */
  ghost predicate Measures(s: Settings, l: Loop, last: nat) {
    && last <= l.now
    && if l.pinged then last + s.pingInterval + s.pongTimeout <= l.deadline else l.deadline == last + s.pingInterval
  }

  lemma {:induction false} DeadlineMeasures(s: Settings, start: nat, wakes: seq<Wake>)
    requires Run(s, start, wakes).Some? && Run(s, start, wakes).value.end == None
    ensures Measures(s, Run(s, start, wakes).value, LastFrame(start, wakes))
    decreases |wakes|
  {
    if wakes != [] {
      DeadlineMeasures(s, start, wakes[..|wakes| - 1]);
    }
  }

  lemma {:induction false} PunctualDeadline(s: Settings, start: nat, wakes: seq<Wake>, late: nat, busy: nat)
    requires Run(s, start, wakes).Some? && Run(s, start, wakes).value.end == None
    requires Punctual(s, start, wakes, late, busy)
    ensures var l := Run(s, start, wakes).value;
            l.pinged ==> l.deadline <= LastFrame(start, wakes) + s.pingInterval + s.pongTimeout + late + busy
    decreases |wakes|
  {
    if wakes != [] {
      PunctualDeadline(s, start, wakes[..|wakes| - 1], late, busy);
      DeadlineMeasures(s, start, wakes[..|wakes| - 1]);
    }
  }

  /** A connection is given up for a missing pong only after a silence of at least
      the ping interval plus the pong timeout, however late the timer runs. */
  lemma ClosedOnlyAfterSilence(s: Settings, start: nat, wakes: seq<Wake>)
    requires wakes != [] && Run(s, start, wakes).Some?
    requires Run(s, start, wakes).value.end == Some(PongMissing)
    ensures wakes[|wakes| - 1].at >= LastFrame(start, wakes) + s.pingInterval + s.pongTimeout
    ensures forall i :: 0 <= i < |wakes| && wakes[i].Frame? ==> wakes[i].at <= LastFrame(start, wakes)
  {
    DeadlineMeasures(s, start, wakes[..|wakes| - 1]);
    LastFrameIsLast(s, start, wakes);
  }

  lemma {:induction false} LastFrameIsLast(s: Settings, start: nat, wakes: seq<Wake>)
    requires Run(s, start, wakes).Some?
    ensures start <= LastFrame(start, wakes) <= Run(s, start, wakes).value.now
    ensures forall i :: 0 <= i < |wakes| && wakes[i].Frame? ==> wakes[i].at <= LastFrame(start, wakes)
    ensures LastFrame(start, wakes) != start ==>
              exists i :: 0 <= i < |wakes| && wakes[i].Frame? && wakes[i].at == LastFrame(start, wakes)
    decreases |wakes|
  {
    if wakes != [] {
      var rest := wakes[..|wakes| - 1];
      LastFrameIsLast(s, start, rest);
      assert forall i :: 0 <= i < |rest| ==> wakes[i] == rest[i];
    }
  }

  /** The loop does not outlive a longer silence: with a timer at most `late` behind and
      turns of at most `busy`, no turn is taken later than that much after it. */
  lemma SilenceIsBounded(s: Settings, start: nat, wakes: seq<Wake>, late: nat, busy: nat)
    requires wakes != [] && Run(s, start, wakes).Some? && Punctual(s, start, wakes, late, busy)
    ensures wakes[|wakes| - 1].at
         <= LastFrame(start, wakes[..|wakes| - 1]) + s.pingInterval + s.pongTimeout + 2 * late + busy
  {
    var rest := wakes[..|wakes| - 1];
    PunctualDeadline(s, start, rest, late, busy);
    DeadlineMeasures(s, start, rest);
  }

  /** With a prompt timer and turns that take no time, a timer turn ends a silent
      connection exactly at the end of the pong timeout, and only then. */
  lemma PromptlyClosedExactly(s: Settings, start: nat, wakes: seq<Wake>)
    requires wakes != [] && wakes[|wakes| - 1].Timer?
    requires Run(s, start, wakes).Some? && Punctual(s, start, wakes, 0, 0)
    ensures var at, last := wakes[|wakes| - 1].at, LastFrame(start, wakes);
            && (Run(s, start, wakes).value.end == Some(PongMissing) ==> at == last + s.pingInterval + s.pongTimeout)
            && (Run(s, start, wakes).value.end != Some(PongMissing) ==> at == last + s.pingInterval)
  {
    var rest := wakes[..|wakes| - 1];
    PunctualDeadline(s, start, rest, 0, 0);
    DeadlineMeasures(s, start, rest);
  }
}
