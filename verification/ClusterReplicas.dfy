/** Every presence client's copy of one channel's member list, over all nodes of a
    cluster. A node tells its own clients of a change at once and the others' when it
    gets to read the envelope, so a change of its own may overtake an older one. */
module ClusterReplicas {
  import opened Protocol
  import opened RedisStore
  import P = ClusterPresence
  import Replicas

  type Copy = map<UserId, Info>

  /** A change of the member list, as it is sent to clients. */
  datatype Note = Joined(user: UserId, info: Info) | Departed(user: UserId)

  datatype Posted = Posted(sender: NodeId, note: Note)

  /** `cursors` are how far each node has read what was posted. */
  datatype World = World(cluster: P.Cluster, posted: seq<Posted>, cursors: map<NodeId, nat>, copies: map<P.Seat, Copy>)

  datatype Step = Act(step: P.Step) | Read(node: NodeId)

  ghost predicate Possible(w: World, step: Step) {
    match step
    case Act(s) => s.seat.0 in w.cursors && P.Possible(w.cluster, s)
    case Read(n) => n in w.cursors && w.cursors[n] < |w.posted|
  }

  ghost function Listed(w: World): Copy { w.cluster.hashes.presence }

  function Say(copy: Copy, note: Note): Copy {
    match note
    case Joined(u, info) => copy[u := info]
    case Departed(u) => copy - {u}
  }

  function Mail(c: Channel, note: Note): Message {
    match note
    case Joined(u, info) => MemberAdded(c, u, info)
    case Departed(u) => MemberRemoved(c, u)
  }

  /** It is what a client makes of the message for it. */
  lemma NoteIsMessage(copy: Copy, c: Channel, note: Note)
    ensures Replicas.Apply(Some(copy), Mail(c, note), c) == Some(Say(copy, note))
  {
  }

  /** What a handler has to tell, if anything. */
  ghost function News(k: P.Cluster, step: P.Step, max: nat): Option<Note>
    requires P.Possible(k, step)
  {
    match step
    case Join(_, u, info) =>
      if !Refuses(k.hashes, u, max) && Count(k.hashes, u) == 0 then Some(Joined(u, info)) else None
    case Leave(seat) => if Count(k.hashes, k.seats[seat]) <= 1 then Some(Departed(k.seats[seat])) else None
  }

  /** The clients of `n` but `except` hear a note. */
  ghost function Tell(copies: map<P.Seat, Copy>, n: NodeId, note: Option<Note>, except: Option<P.Seat>)
    : map<P.Seat, Copy> {
    map seat | seat in copies ::
      if seat.0 == n && note.Some? && Some(seat) != except then Say(copies[seat], note.value) else copies[seat]
  }

  ghost function Post(posted: seq<Posted>, n: NodeId, note: Option<Note>): seq<Posted> {
    posted + if note.Some? then [Posted(n, note.value)] else []
  }

  /** A joining client starts from the cluster's list; a leaving one keeps no copy. */
  ghost function CopiesAfter(w: World, step: P.Step, max: nat): map<P.Seat, Copy>
    requires P.Possible(w.cluster, step)
  {
    var told := Tell(w.copies, step.seat.0, News(w.cluster, step, max), Some(step.seat));
    match step
    case Join(seat, u, _) =>
      if Refuses(w.cluster.hashes, u, max) then w.copies
      else told[seat := P.Next(w.cluster, step, max).hashes.presence]
    case Leave(seat) => told - {seat}
  }

  ghost function Next(w: World, step: Step, max: nat): World
    requires Possible(w, step)
  {
    match step
    case Act(s) =>
      World(P.Next(w.cluster, s, max), Post(w.posted, s.seat.0, News(w.cluster, s, max)), w.cursors,
            CopiesAfter(w, s, max))
    case Read(n) =>
      var e := w.posted[w.cursors[n]];
      w.(cursors := w.cursors[n := w.cursors[n] + 1],
         copies := if e.sender == n then w.copies else Tell(w.copies, n, Some(e.note), None))
  }

  ghost function Start(nodes: set<NodeId>): World { World(P.EMPTY, [], map n | n in nodes :: 0, map[]) }

  ghost function Run(nodes: set<NodeId>, trace: seq<Step>, max: nat): Option<World>
    decreases |trace|
  {
    if trace == [] then Some(Start(nodes))
    else
      var before, step := Run(nodes, trace[..|trace| - 1], max), trace[|trace| - 1];
      if before.Some? && Possible(before.value, step) then Some(Next(before.value, step, max)) else None
  }

  ghost predicate Sane(w: World) {
    && P.Exact(w.cluster)
    && w.copies.Keys == w.cluster.seats.Keys
    && (forall seat :: seat in w.copies ==> seat.0 in w.cursors)
    && (forall n :: n in w.cursors ==> w.cursors[n] <= |w.posted|)
  }

  lemma StepKeepsSane(w: World, step: Step, max: nat)
    requires Sane(w) && Possible(w, step)
    ensures Sane(Next(w, step, max))
  {
    if step.Act? {
      forall v ensures P.Counted(P.Next(w.cluster, step.step, max).hashes, P.Next(w.cluster, step.step, max).seats, v) {
        match step.step
        case Join(seat, u, info) => P.JoinKeepsCounted(w.cluster, seat, u, info, max, v);
        case Leave(seat) => P.LeaveKeepsCounted(w.cluster, seat, max, v);
      }
    }
  }

  lemma {:induction false} RunIsSane(nodes: set<NodeId>, trace: seq<Step>, max: nat)
    requires Run(nodes, trace, max).Some?
    ensures Sane(Run(nodes, trace, max).value)
    decreases |trace|
  {
    if trace == [] {
      forall u ensures P.Counted(NO_HASHES, map[], u) { assert P.HeldBy(map[], u) == {}; }
    } else {
      RunIsSane(nodes, trace[..|trace| - 1], max);
      StepKeepsSane(Run(nodes, trace[..|trace| - 1], max).value, trace[|trace| - 1], max);
    }
  }

  // -- what is still unread ---------------------------------------------------------------------

  /** The others' notes. */
  ghost function Foreign(posted: seq<Posted>, n: NodeId): seq<Note>
    decreases |posted|
  {
    if posted == [] then []
    else
      var last := posted[|posted| - 1];
      Foreign(posted[..|posted| - 1], n) + if last.sender != n then [last.note] else []
  }

  ghost function Unread(w: World, n: NodeId): seq<Note>
    requires n in w.cursors && w.cursors[n] <= |w.posted|
  {
    Foreign(w.posted[w.cursors[n]..], n)
  }

  /** The last word on `u`: absent if there is none. */
  ghost function LastAbout(notes: seq<Note>, u: UserId): Option<Note>
    decreases |notes|
  {
    if notes == [] then None
    else if notes[|notes| - 1].user == u then Some(notes[|notes| - 1])
    else LastAbout(notes[..|notes| - 1], u)
  }

  function Entry(copy: Copy, u: UserId): Option<Info> { if u in copy then Some(copy[u]) else None }

  function Word(note: Note): Option<Info> { if note.Joined? then Some(note.info) else None }

  /** What `u`'s entry in a copy will be once `unread` has been read. */
  ghost function Coming(copy: Copy, unread: seq<Note>, u: UserId): Option<Info> {
    if LastAbout(unread, u).Some? then Word(LastAbout(unread, u).value) else Entry(copy, u)
  }

  ghost function Hear(copy: Copy, notes: seq<Note>): Copy
    decreases |notes|
  {
    if notes == [] then copy else Say(Hear(copy, notes[..|notes| - 1]), notes[|notes| - 1])
  }

  lemma {:induction false} ComingIsHeard(copy: Copy, notes: seq<Note>, u: UserId)
    ensures Entry(Hear(copy, notes), u) == Coming(copy, notes, u)
    decreases |notes|
  {
    if notes != [] {
      ComingIsHeard(copy, notes[..|notes| - 1], u);
    }
  }

  lemma SameEntries(a: Copy, b: Copy)
    requires forall u :: Entry(a, u) == Entry(b, u)
    ensures a == b
  {
    assert forall u :: u in a <==> Entry(a, u).Some?;
    assert forall u :: u in b <==> Entry(b, u).Some?;
    forall u | u in a ensures u in b && a[u] == b[u] { assert Entry(a, u) == Entry(b, u); }
    forall u | u in b ensures u in a { assert Entry(a, u) == Entry(b, u); }
  }

  // -- on its way to the list ----------------------------------------------------------------------

  /** With what is left to read, a client of `n` ends up with the list's entry for `u`, be
      it there or be it to start from the list now. `EndRightIffSettles` says what that
      amounts to for the clients there will be. */
  ghost predicate SettlesAt(w: World, n: NodeId, u: UserId)
    requires n in w.cursors && w.cursors[n] <= |w.posted|
  {
    && Coming(Listed(w), Unread(w, n), u) == Entry(Listed(w), u)
    && forall seat :: seat in w.copies && seat.0 == n ==> Coming(w.copies[seat], Unread(w, n), u) == Entry(Listed(w), u)
  }

  ghost predicate Settles(w: World)
    requires Sane(w)
  {
    forall n, u :: n in w.cursors ==> SettlesAt(w, n, u)
  }

  /** The handler tells its node's clients of a user about whom the node has something
      older left to read. */
  ghost predicate Overtakes(w: World, step: Step, max: nat)
    requires Sane(w) && Possible(w, step)
  {
    && step.Act? && News(w.cluster, step.step, max).Some?
    && LastAbout(Unread(w, step.step.seat.0), News(w.cluster, step.step, max).value.user).Some?
  }

  /** A handler's news is what changes in the list, and it does change it. */
  lemma NewsIsChange(k: P.Cluster, step: P.Step, max: nat, v: UserId)
    requires P.Exact(k) && P.Possible(k, step)
    ensures var news, before, after := News(k, step, max), k.hashes.presence, P.Next(k, step, max).hashes.presence;
            && (news.Some? && news.value.user == v ==> Entry(after, v) == Word(news.value) != Entry(before, v))
            && (news == None || news.value.user != v ==> Entry(after, v) == Entry(before, v))
  {
    var u := match step case Join(_, u, _) => u case Leave(seat) => k.seats[seat];
    assert P.Counted(k.hashes, k.seats, u);
    if step.Leave? {
      assert step.seat in P.HeldBy(k.seats, u);
      if Count(k.hashes, u) == 1 {
        P.CleanupDeletesNothingLive(k, u);
      }
    }
  }

  lemma ForeignOneMore(posted: seq<Posted>, from: nat, n: NodeId, p: Posted)
    requires from <= |posted|
    ensures Foreign((posted + [p])[from..], n) == Foreign(posted[from..], n) + if p.sender != n then [p.note] else []
  {
    assert (posted + [p])[from..] == posted[from..] + [p];
    assert (posted[from..] + [p])[..|posted[from..] + [p]| - 1] == posted[from..];
  }

  lemma {:induction false} ForeignFirst(posted: seq<Posted>, n: NodeId)
    requires posted != []
    ensures Foreign(posted, n) == (if posted[0].sender != n then [posted[0].note] else []) + Foreign(posted[1..], n)
    decreases |posted|
  {
    if |posted| > 1 {
      ForeignFirst(posted[..|posted| - 1], n);
      assert posted[..|posted| - 1][1..] == posted[1..][..|posted| - 2];
    }
  }

  lemma LastAboutOneMore(notes: seq<Note>, note: Note, u: UserId)
    ensures LastAbout(notes + [note], u) == if note.user == u then Some(note) else LastAbout(notes, u)
  {
    assert (notes + [note])[..|notes + [note]| - 1] == notes;
  }

  lemma {:induction false} LastAboutFirst(note: Note, rest: seq<Note>, u: UserId)
    ensures LastAbout([note] + rest, u)
         == if LastAbout(rest, u).Some? then LastAbout(rest, u) else if note.user == u then Some(note) else None
    decreases |rest|
  {
    if rest == [] {
      assert [note] + rest == [note];
    } else {
      LastAboutFirst(note, rest[..|rest| - 1], u);
      assert ([note] + rest)[..|[note] + rest| - 1] == [note] + rest[..|rest| - 1];
    }
  }

  /** Reading the first of the unread notes. */
  lemma ComingWhenRead(copy: Copy, note: Note, rest: seq<Note>, u: UserId)
    ensures Coming(Say(copy, note), rest, u) == Coming(copy, [note] + rest, u)
  {
    LastAboutFirst(note, rest, u);
  }

  lemma ReadKeepsSettles(w: World, reader: NodeId, max: nat, n: NodeId, u: UserId)
    requires Sane(w) && Possible(w, Read(reader)) && n in w.cursors && SettlesAt(w, n, u)
    ensures SettlesAt(Next(w, Read(reader), max), n, u)
  {
    var w' := Next(w, Read(reader), max);
    if n == reader {
      var e := w.posted[w.cursors[n]];
      assert w.posted[w.cursors[n]..][1..] == w'.posted[w'.cursors[n]..];
      ForeignFirst(w.posted[w.cursors[n]..], n);
      if e.sender != n {
        LastAboutFirst(e.note, Unread(w', n), u);
        forall seat | seat in w'.copies && seat.0 == n
          ensures Coming(w'.copies[seat], Unread(w', n), u) == Entry(Listed(w'), u)
        {
          ComingWhenRead(w.copies[seat], e.note, Unread(w', n), u);
        }
      } else {
        assert [] + Unread(w', n) == Unread(w', n);
      }
    }
  }

  /** A client's entry for `u` after a handler: from the list if it has just joined, else
      what the handler told it, if anything. */
  lemma CopyAfter(w: World, step: P.Step, max: nat, seat: P.Seat, u: UserId)
    requires Sane(w) && P.Possible(w.cluster, step) && seat in CopiesAfter(w, step, max)
    ensures var copy, news := CopiesAfter(w, step, max)[seat], News(w.cluster, step, max);
            || Entry(copy, u) == Entry(P.Next(w.cluster, step, max).hashes.presence, u)
            || (seat in w.copies && Entry(copy, u) == Entry(w.copies[seat], u)
                && !(seat.0 == step.seat.0 && news.Some? && news.value.user == u))
    ensures seat != step.seat ==> seat in w.copies
    ensures seat == step.seat ==> CopiesAfter(w, step, max)[seat] == P.Next(w.cluster, step, max).hashes.presence
  {
    NewsIsChange(w.cluster, step, max, u);
  }

  /** What is left to read after a handler: its news as well, but for its own node. */
  lemma UnreadAfter(w: World, step: P.Step, max: nat, n: NodeId, u: UserId)
    requires Sane(w) && Possible(w, Act(step)) && n in w.cursors && w.cursors[n] <= |Next(w, Act(step), max).posted|
    ensures var news := News(w.cluster, step, max);
            LastAbout(Unread(Next(w, Act(step), max), n), u)
              == if news.Some? && news.value.user == u && n != step.seat.0 then news else LastAbout(Unread(w, n), u)
  {
    var news := News(w.cluster, step, max);
    assert w.posted + [] == w.posted;
    if news.Some? {
      ForeignOneMore(w.posted, w.cursors[n], n, Posted(step.seat.0, news.value));
      LastAboutOneMore(Unread(w, n), news.value, u);
      assert Unread(w, n) + [] == Unread(w, n);
    }
  }

  lemma ActKeepsSettles(w: World, step: P.Step, max: nat, n: NodeId, u: UserId)
    requires Sane(w) && Possible(w, Act(step)) && n in w.cursors && SettlesAt(w, n, u) && !Overtakes(w, Act(step), max)
    ensures SettlesAt(Next(w, Act(step), max), n, u)
  {
    var w' := Next(w, Act(step), max);
    NewsIsChange(w.cluster, step, max, u);
    UnreadAfter(w, step, max, n, u);
    hide News, CopiesAfter, Unread, Entry, P.Next, P.Exact, P.Possible;
    forall seat | seat in w'.copies && seat.0 == n
      ensures Coming(w'.copies[seat], Unread(w', n), u) == Entry(Listed(w'), u)
    {
      CopyAfter(w, step, max, seat, u);
    }
  }

  /** Overtaken, the node's clients will end up with what was true before. */
  lemma OvertakingUnsettles(w: World, step: Step, max: nat)
    requires Sane(w) && Settles(w) && Possible(w, step) && Overtakes(w, step, max)
    ensures var w', n, u := Next(w, step, max), step.step.seat.0, News(w.cluster, step.step, max).value.user;
            && w'.cursors == w.cursors && w.cursors[n] <= |w'.posted|
            && LastAbout(Unread(w', n), u).Some?
            && Word(LastAbout(Unread(w', n), u).value) != Entry(Listed(w'), u)
  {
    var n, note := step.step.seat.0, News(w.cluster, step.step, max).value;
    assert SettlesAt(w, n, note.user);
    NewsIsChange(w.cluster, step.step, max, note.user);
    ForeignOneMore(w.posted, w.cursors[n], n, Posted(n, note));
    assert Unread(w, n) + [] == Unread(w, n);
  }

  /** A step leaves every client, there or joining next, on its way to the list if and only
      if it overtakes nothing. */
  lemma SettlesIffNotOvertaking(w: World, step: Step, max: nat)
    requires Sane(w) && Settles(w) && Possible(w, step)
    ensures Sane(Next(w, step, max))
    ensures Settles(Next(w, step, max)) <==> !Overtakes(w, step, max)
  {
    StepKeepsSane(w, step, max);
    if Overtakes(w, step, max) {
      OvertakingUnsettles(w, step, max);
      assert !SettlesAt(Next(w, step, max), step.step.seat.0, News(w.cluster, step.step, max).value.user);
    } else {
      forall n, u | n in Next(w, step, max).cursors ensures SettlesAt(Next(w, step, max), n, u) {
        assert SettlesAt(w, n, u);
        match step
        case Act(s) => ActKeepsSettles(w, s, max, n, u);
        case Read(reader) => ReadKeepsSettles(w, reader, max, n, u);
      }
    }
  }

  // -- over whole runs --------------------------------------------------------------------------------

  /** From step `from` on, no handler's news overtakes older news of the same user. */
  ghost predicate NoneOvertakes(nodes: set<NodeId>, trace: seq<Step>, from: nat, max: nat)
    requires Run(nodes, trace, max).Some?
    decreases |trace|
  {
    |trace| <= from ||
    var before, step := trace[..|trace| - 1], trace[|trace| - 1];
    && NoneOvertakes(nodes, before, from, max)
    && Sane(Run(nodes, before, max).value) && !Overtakes(Run(nodes, before, max).value, step, max)
  }

  ghost predicate NeverOvertakes(nodes: set<NodeId>, trace: seq<Step>, max: nat)
    requires Run(nodes, trace, max).Some?
  {
    NoneOvertakes(nodes, trace, 0, max)
  }

  lemma RunOne(nodes: set<NodeId>, trace: seq<Step>, step: Step, max: nat)
    requires Run(nodes, trace, max).Some? && Possible(Run(nodes, trace, max).value, step)
    ensures Run(nodes, trace + [step], max) == Some(Next(Run(nodes, trace, max).value, step, max))
  {
    assert (trace + [step])[..|trace + [step]| - 1] == trace;
  }

  lemma OneMoreOvertakesNot(nodes: set<NodeId>, trace: seq<Step>, step: Step, from: nat, max: nat)
    requires Run(nodes, trace, max).Some? && Possible(Run(nodes, trace, max).value, step) && from <= |trace|
    ensures Run(nodes, trace + [step], max) == Some(Next(Run(nodes, trace, max).value, step, max))
    ensures Sane(Run(nodes, trace, max).value)
    ensures NoneOvertakes(nodes, trace + [step], from, max) <==>
              NoneOvertakes(nodes, trace, from, max) && !Overtakes(Run(nodes, trace, max).value, step, max)
  {
    RunIsSane(nodes, trace, max);
    RunOne(nodes, trace, step, max);
    assert (trace + [step])[..|trace + [step]| - 1] == trace;
  }

  /** Overtaking nothing from some point on is overtaking nothing first and then again. */
  lemma {:induction false} NoneOvertakesChains(nodes: set<NodeId>, trace: seq<Step>, longer: seq<Step>, from: nat,
                                               max: nat)
    requires trace <= longer && Run(nodes, longer, max).Some? && Run(nodes, trace, max).Some? && from <= |trace|
    requires NoneOvertakes(nodes, trace, from, max) && NoneOvertakes(nodes, longer, |trace|, max)
    ensures NoneOvertakes(nodes, longer, from, max)
    decreases |longer|
  {
    if |longer| == |trace| {
      assert longer == trace;
    } else {
      NoneOvertakesChains(nodes, trace, longer[..|longer| - 1], from, max);
    }
  }

  lemma {:induction false} SettlesStays(nodes: set<NodeId>, trace: seq<Step>, longer: seq<Step>, max: nat)
    requires trace <= longer && Run(nodes, longer, max).Some? && Run(nodes, trace, max).Some?
    requires Sane(Run(nodes, trace, max).value) && Settles(Run(nodes, trace, max).value)
    requires NoneOvertakes(nodes, longer, |trace|, max)
    ensures Sane(Run(nodes, longer, max).value) && Settles(Run(nodes, longer, max).value)
    decreases |longer|
  {
    if |longer| == |trace| {
      assert longer == trace;
    } else {
      var before := longer[..|longer| - 1];
      SettlesStays(nodes, trace, before, max);
      SettlesIffNotOvertaking(Run(nodes, before, max).value, longer[|longer| - 1], max);
    }
  }

  lemma StartSettles(nodes: set<NodeId>, max: nat)
    ensures Sane(Start(nodes)) && Settles(Start(nodes))
  {
    RunIsSane(nodes, [], max);
  }

  /** The node has read everything. */
  ghost predicate CaughtUp(w: World, n: NodeId) { n in w.cursors && w.cursors[n] == |w.posted| }

  lemma CaughtUpIsRight(w: World, seat: P.Seat)
    requires Sane(w) && Settles(w) && CaughtUp(w, seat.0) && seat in w.copies
    ensures w.copies[seat] == Listed(w)
  {
    forall u ensures Entry(w.copies[seat], u) == Entry(Listed(w), u) {
      assert SettlesAt(w, seat.0, u);
    }
    SameEntries(w.copies[seat], Listed(w));
  }

  /** As long as nothing has been overtaken, every client of a node that has read
      everything has exactly the cluster's list: the users with a socket on any node. */
  lemma {:induction false} ClusterReplicasConverge(nodes: set<NodeId>, trace: seq<Step>, max: nat, seat: P.Seat)
    requires Run(nodes, trace, max).Some? && NeverOvertakes(nodes, trace, max)
    requires CaughtUp(Run(nodes, trace, max).value, seat.0) && seat in Run(nodes, trace, max).value.copies
    ensures var w := Run(nodes, trace, max).value;
            && w.copies[seat] == Listed(w)
            && forall u :: u in w.copies[seat] <==> P.HeldBy(w.cluster.seats, u) != {}
  {
    var w := Run(nodes, trace, max).value;
    StartSettles(nodes, max);
    SettlesStays(nodes, [], trace, max);
    CaughtUpIsRight(w, seat);
    forall u ensures u in Listed(w) <==> P.HeldBy(w.cluster.seats, u) != {} {
      assert P.Counted(w.cluster.hashes, w.cluster.seats, u);
    }
  }

  // -- a node reads everything it has left ------------------------------------------------------------

  lemma {:induction false} HearFirst(copy: Copy, note: Note, rest: seq<Note>)
    ensures Hear(copy, [note] + rest) == Hear(Say(copy, note), rest)
    decreases |rest|
  {
    if rest == [] {
      assert [note] + rest == [note] && [note][..0] == [];
      assert Hear(copy, [note]) == Say(Hear(copy, []), note);
    } else {
      assert ([note] + rest)[..|[note] + rest| - 1] == [note] + rest[..|rest| - 1];
      HearFirst(copy, note, rest[..|rest| - 1]);
    }
  }

  /** One step of reading: what is left to hear gets shorter, what it comes to stays. */
  lemma ReadHears(w: World, n: NodeId, max: nat, seat: P.Seat)
    requires Sane(w) && Possible(w, Read(n)) && seat in w.copies && seat.0 == n
    ensures var w' := Next(w, Read(n), max);
            && w'.cluster == w.cluster && w'.posted == w.posted && w'.copies.Keys == w.copies.Keys
            && n in w'.cursors && w'.cursors[n] == w.cursors[n] + 1
            && Hear(w'.copies[seat], Unread(w', n)) == Hear(w.copies[seat], Unread(w, n))
  {
    var w' := Next(w, Read(n), max);
    var e := w.posted[w.cursors[n]];
    assert w.posted[w.cursors[n]..][1..] == w'.posted[w'.cursors[n]..];
    ForeignFirst(w.posted[w.cursors[n]..], n);
    if e.sender != n {
      HearFirst(w.copies[seat], e.note, Unread(w', n));
    } else {
      assert [] + Unread(w', n) == Unread(w', n);
    }
  }

  /** Reading on to the end, a client's copy comes to what was left to hear. */
  lemma {:induction false} ReadOut(nodes: set<NodeId>, trace: seq<Step>, n: NodeId, seat: P.Seat, max: nat)
    returns (longer: seq<Step>)
    requires Run(nodes, trace, max).Some?
    requires seat in Run(nodes, trace, max).value.copies && seat.0 == n && n in Run(nodes, trace, max).value.cursors
    ensures trace <= longer && Run(nodes, longer, max).Some? && NoneOvertakes(nodes, longer, |trace|, max)
    ensures var w, w' := Run(nodes, trace, max).value, Run(nodes, longer, max).value;
            && Sane(w) && CaughtUp(w', n) && w'.cluster == w.cluster
            && seat in w'.copies && w'.copies[seat] == Hear(w.copies[seat], Unread(w, n))
    decreases |Run(nodes, trace, max).value.posted| - Run(nodes, trace, max).value.cursors[n]
  {
    var w := Run(nodes, trace, max).value;
    RunIsSane(nodes, trace, max);
    if CaughtUp(w, n) {
      longer := trace;
      assert w.posted[w.cursors[n]..] == [];
    } else {
      ReadHears(w, n, max, seat);
      OneMoreOvertakesNot(nodes, trace, Read(n), |trace|, max);
      longer := ReadOut(nodes, trace + [Read(n)], n, seat, max);
      NoneOvertakesChains(nodes, trace + [Read(n)], longer, |trace|, max);
    }
  }

  // -- what becomes of the clients -----------------------------------------------------------------------

  /** However things go on, as long as nothing more is overtaken: whoever is then a client
      of a node that has read everything has the list. */
  ghost predicate AllEndRight(nodes: set<NodeId>, trace: seq<Step>, max: nat) {
    forall longer, seat ::
      trace <= longer && Run(nodes, longer, max).Some? && NoneOvertakes(nodes, longer, |trace|, max)
      && EndsReading(Run(nodes, longer, max).value, seat) ==>
        Run(nodes, longer, max).value.copies[seat] == Listed(Run(nodes, longer, max).value)
  }

  ghost predicate EndsReading(w: World, seat: P.Seat) { seat in w.copies && CaughtUp(w, seat.0) }

  lemma NotAllEndRight(nodes: set<NodeId>, trace: seq<Step>, longer: seq<Step>, seat: P.Seat, max: nat)
    requires trace <= longer && Run(nodes, longer, max).Some? && NoneOvertakes(nodes, longer, |trace|, max)
    requires EndsReading(Run(nodes, longer, max).value, seat)
    requires Run(nodes, longer, max).value.copies[seat] != Listed(Run(nodes, longer, max).value)
    ensures !AllEndRight(nodes, trace, max)
  {
  }

  /** A client that is not on its way to the list ends wrong. */
  lemma ClientEndsWrong(nodes: set<NodeId>, trace: seq<Step>, middle: seq<Step>, seat: P.Seat, u: UserId, max: nat)
    requires trace <= middle && Run(nodes, middle, max).Some? && NoneOvertakes(nodes, middle, |trace|, max)
    requires Run(nodes, trace, max).Some?
    requires Sane(Run(nodes, middle, max).value) && seat in Run(nodes, middle, max).value.copies
    requires var w := Run(nodes, middle, max).value;
             Coming(w.copies[seat], Unread(w, seat.0), u) != Entry(Listed(w), u)
    ensures !AllEndRight(nodes, trace, max)
  {
    var w := Run(nodes, middle, max).value;
    var longer := ReadOut(nodes, middle, seat.0, seat, max);
    ComingIsHeard(w.copies[seat], Unread(w, seat.0), u);
    NoneOvertakesChains(nodes, middle, longer, |trace|, max);
    NotAllEndRight(nodes, trace, longer, seat, max);
  }

  /** What is left to read about `u` contradicts the list. */
  ghost predicate Stale(w: World, n: NodeId, u: UserId)
    requires n in w.cursors && w.cursors[n] <= |w.posted|
  {
    LastAbout(Unread(w, n), u).Some? && Word(LastAbout(Unread(w, n), u).value) != Entry(Listed(w), u)
  }

  lemma StaleMeansPosted(w: World, n: NodeId, u: UserId)
    requires n in w.cursors && w.cursors[n] <= |w.posted| && Stale(w, n, u)
    ensures w.posted != []
  {
    assert w.posted[w.cursors[n]..] != [];
  }

  /** A client that joins a node before it has read what contradicts the list is on the
      wrong way. */
  lemma JoinerIsMisled(w: World, step: P.Step, max: nat, u: UserId)
    requires Sane(w) && Possible(w, Act(step)) && step.Join? && Stale(w, step.seat.0, u)
    requires !Refuses(w.cluster.hashes, step.user, max) && (step.user != u || News(w.cluster, step, max) == None)
    ensures var w' := Next(w, Act(step), max);
            && Sane(w') && step.seat in w'.copies
            && Coming(w'.copies[step.seat], Unread(w', step.seat.0), u) != Entry(Listed(w'), u)
  {
    StepKeepsSane(w, Act(step), max);
    UnreadAfter(w, step, max, step.seat.0, u);
    NewsIsChange(w.cluster, step, max, u);
  }

  /** Nothing is ever posted under a limit of zero, and the limit holds. */
  lemma {:induction false} RunIsWithinLimit(nodes: set<NodeId>, trace: seq<Step>, max: nat)
    requires Run(nodes, trace, max).Some?
    ensures P.Sound(Run(nodes, trace, max).value.cluster, max)
    ensures Run(nodes, trace, max).value.posted != [] ==> max >= 1
    decreases |trace|
  {
    if trace == [] {
      P.RunIsSound([], max);
    } else {
      var before, step := Run(nodes, trace[..|trace| - 1], max).value, trace[|trace| - 1];
      RunIsWithinLimit(nodes, trace[..|trace| - 1], max);
      if step.Act? {
        P.StepKeepsSound(before.cluster, step.step, max);
        if News(before.cluster, step.step, max).Some? {
          PostedMeansRoom(before, step.step, max);
        }
      }
    }
  }

  lemma PostedMeansRoom(w: World, step: P.Step, max: nat)
    requires P.Sound(w.cluster, max) && P.Possible(w.cluster, step) && News(w.cluster, step, max).Some?
    ensures max >= 1
  {
    var k, k' := w.cluster, P.Next(w.cluster, step, max);
    P.StepKeepsSound(k, step, max);
    var u := News(k, step, max).value.user;
    NewsIsChange(k, step, max, u);
    assert u in k.hashes.presence.Keys + k'.hashes.presence.Keys;
    assert |k.hashes.presence| == |k.hashes.presence.Keys| && |k'.hashes.presence| == |k'.hashes.presence.Keys|;
  }

  lemma FreshSeat(seats: map<P.Seat, UserId>, n: NodeId) returns (s: SocketId)
    ensures (n, s) !in seats
  {
    var used := set seat | seat in seats :: seat.1;
    s := FreshName(used);
    assert forall seat :: seat in seats ==> seat.1 in used;
    assert (n, s).1 !in used;
  }

  /** Somebody may always join a node that has something stale to read: a second socket of
      a listed user, or, with nobody listed, anybody the node has nothing to read about. */
  lemma SomebodyMayJoin(w: World, n: NodeId, u: UserId, max: nat) returns (step: P.Step)
    requires Sane(w) && n in w.cursors && Stale(w, n, u) && max >= 1
    ensures step.Join? && step.seat.0 == n && Possible(w, Act(step)) && !Refuses(w.cluster.hashes, step.user, max)
    ensures step.user != u || News(w.cluster, step, max) == None
    ensures !Overtakes(w, Act(step), max)
  {
    var s := FreshSeat(w.cluster.seats, n);
    if v :| v in Listed(w) {
      step := P.Join((n, s), v, "");
      assert P.Counted(w.cluster.hashes, w.cluster.seats, v);
    } else {
      var v := FreshName({u} + set i | 0 <= i < |Unread(w, n)| :: Unread(w, n)[i].user);
      step := P.Join((n, s), v, "");
      NothingAbout(Unread(w, n), v);
      assert |Listed(w)| == 0 by { assert Listed(w) == map[]; }
    }
  }

  lemma {:induction false} NothingAbout(notes: seq<Note>, u: UserId)
    requires forall i :: 0 <= i < |notes| ==> notes[i].user != u
    ensures LastAbout(notes, u) == None
    decreases |notes|
  {
    if notes != [] {
      NothingAbout(notes[..|notes| - 1], u);
    }
  }

  /** At every point of every run, however it got there: all clients, those there and
      those yet to join, end up with the list if and only if the world settles. */
  lemma {:induction false} EndRightIffSettles(nodes: set<NodeId>, trace: seq<Step>, max: nat)
    requires Run(nodes, trace, max).Some?
    ensures Sane(Run(nodes, trace, max).value)
    ensures AllEndRight(nodes, trace, max) <==> Settles(Run(nodes, trace, max).value)
  {
    var w := Run(nodes, trace, max).value;
    RunIsSane(nodes, trace, max);
    if Settles(w) {
      forall longer, seat | trace <= longer && Run(nodes, longer, max).Some?
          && NoneOvertakes(nodes, longer, |trace|, max) && EndsReading(Run(nodes, longer, max).value, seat)
        ensures Run(nodes, longer, max).value.copies[seat] == Listed(Run(nodes, longer, max).value)
      {
        SettlesStays(nodes, trace, longer, max);
        CaughtUpIsRight(Run(nodes, longer, max).value, seat);
      }
    } else {
      var n, u :| n in w.cursors && !SettlesAt(w, n, u);
      UnsettledEndsWrong(nodes, trace, n, u, max);
    }
  }

  lemma UnsettledEndsWrong(nodes: set<NodeId>, trace: seq<Step>, n: NodeId, u: UserId, max: nat)
    requires Run(nodes, trace, max).Some? && Sane(Run(nodes, trace, max).value)
    requires n in Run(nodes, trace, max).value.cursors && !SettlesAt(Run(nodes, trace, max).value, n, u)
    ensures !AllEndRight(nodes, trace, max)
  {
    var w := Run(nodes, trace, max).value;
    if Stale(w, n, u) {
      RunIsWithinLimit(nodes, trace, max);
      StaleMeansPosted(w, n, u);
      var join := SomebodyMayJoin(w, n, u, max);
      JoinerIsMisled(w, join, max, u);
      OneMoreOvertakesNot(nodes, trace, Act(join), |trace|, max);
      ClientEndsWrong(nodes, trace, trace + [Act(join)], join.seat, u, max);
    } else {
      var seat :| seat in w.copies && seat.0 == n && Coming(w.copies[seat], Unread(w, n), u) != Entry(Listed(w), u);
      ClientEndsWrong(nodes, trace, trace, seat, u, max);
    }
  }

  ghost predicate AlwaysAllEndRight(nodes: set<NodeId>, trace: seq<Step>, max: nat)
    decreases |trace|
  {
    AllEndRight(nodes, trace, max) && (trace == [] || AlwaysAllEndRight(nodes, trace[..|trace| - 1], max))
  }

  /** Over every run, at every point all clients are bound to end up with the cluster's
      list if and only if no handler's news overtakes older news of the same user. */
  lemma {:induction false} CopiesEndRightIff(nodes: set<NodeId>, trace: seq<Step>, max: nat)
    requires Run(nodes, trace, max).Some?
    ensures AlwaysAllEndRight(nodes, trace, max) <==> NeverOvertakes(nodes, trace, max)
    ensures Sane(Run(nodes, trace, max).value)
    ensures NeverOvertakes(nodes, trace, max) ==> Settles(Run(nodes, trace, max).value)
    decreases |trace|
  {
    EndRightIffSettles(nodes, trace, max);
    if trace == [] {
      StartSettles(nodes, max);
    } else {
      var before := trace[..|trace| - 1];
      CopiesEndRightIff(nodes, before, max);
      if NeverOvertakes(nodes, before, max) {
        SettlesIffNotOvertaking(Run(nodes, before, max).value, trace[|trace| - 1], max);
      }
    }
  }

  /** In a run that has overtaken nothing so far: the next step overtakes if and only if
      after it things can go on, overtaking nothing more, to where a client of a node
      that has read everything does not have the list. */
  lemma {:induction false} OvertakingMisleads(nodes: set<NodeId>, trace: seq<Step>, step: Step, max: nat)
    requires Run(nodes, trace, max).Some? && NeverOvertakes(nodes, trace, max)
    requires Possible(Run(nodes, trace, max).value, step)
    ensures Sane(Run(nodes, trace, max).value) && Run(nodes, trace + [step], max).Some?
    ensures Overtakes(Run(nodes, trace, max).value, step, max) <==> !AllEndRight(nodes, trace + [step], max)
  {
    CopiesEndRightIff(nodes, trace, max);
    RunOne(nodes, trace, step, max);
    SettlesIffNotOvertaking(Run(nodes, trace, max).value, step, max);
    EndRightIffSettles(nodes, trace + [step], max);
  }

  // -- who is misled, and for how long ---------------------------------------------------------------------

  /** The step changes `u`'s entry in the list. */
  ghost predicate Changes(w: World, step: Step, max: nat, u: UserId)
    requires Possible(w, step)
  {
    step.Act? && News(w.cluster, step.step, max).Some? && News(w.cluster, step.step, max).value.user == u
  }

  /** From step `from` on, `u`'s entry does not change. */
  ghost predicate Unchanged(nodes: set<NodeId>, trace: seq<Step>, from: nat, max: nat, u: UserId)
    requires Run(nodes, trace, max).Some?
    decreases |trace|
  {
    |trace| <= from ||
    var before, step := trace[..|trace| - 1], trace[|trace| - 1];
    && Unchanged(nodes, before, from, max, u)
    && !Changes(Run(nodes, before, max).value, step, max, u)
  }

  /** What is left to read about `u` contradicts the list, or nothing is. */
  ghost predicate StaleIfAny(w: World, n: NodeId, u: UserId) {
    && n in w.cursors && w.cursors[n] <= |w.posted|
    && (LastAbout(Unread(w, n), u).Some? ==> Stale(w, n, u))
  }

  /** The client is there and on the wrong way. */
  ghost predicate OffCourse(w: World, seat: P.Seat, u: UserId) {
    && seat in w.copies && seat.0 in w.cursors && w.cursors[seat.0] <= |w.posted|
    && Coming(w.copies[seat], Unread(w, seat.0), u) != Entry(Listed(w), u)
  }

  lemma StepKeepsStale(w: World, step: Step, max: nat, n: NodeId, u: UserId)
    requires Sane(w) && Possible(w, step) && StaleIfAny(w, n, u) && !Changes(w, step, max, u)
    ensures StaleIfAny(Next(w, step, max), n, u)
  {
    match step
    case Act(s) =>
      NewsIsChange(w.cluster, s, max, u);
      UnreadAfter(w, s, max, n, u);
    case Read(reader) =>
      ReadAbout(w, reader, max, n, u);
  }

  /** Reading leaves the last word on `u`, or nothing about `u`. */
  lemma ReadAbout(w: World, reader: NodeId, max: nat, n: NodeId, u: UserId)
    requires Sane(w) && Possible(w, Read(reader)) && n in w.cursors
    ensures var w' := Next(w, Read(reader), max);
            && n in w'.cursors && w'.cursors[n] <= |w'.posted|
            && (LastAbout(Unread(w', n), u).Some? ==> LastAbout(Unread(w', n), u) == LastAbout(Unread(w, n), u))
  {
    if n == reader {
      var w', e := Next(w, Read(reader), max), w.posted[w.cursors[n]];
      assert w.posted[w.cursors[n]..][1..] == w'.posted[w'.cursors[n]..];
      ForeignFirst(w.posted[w.cursors[n]..], n);
      if e.sender != n {
        LastAboutFirst(e.note, Unread(w', n), u);
      } else {
        assert [] + Unread(w', n) == Unread(w', n);
      }
    }
  }

  lemma StepKeepsOffCourse(w: World, step: Step, max: nat, seat: P.Seat, u: UserId)
    requires Sane(w) && Possible(w, step) && OffCourse(w, seat, u)
    requires StaleIfAny(w, seat.0, u) && !Changes(w, step, max, u) && seat in Next(w, step, max).copies
    ensures OffCourse(Next(w, step, max), seat, u)
  {
    match step
    case Act(s) =>
      NewsIsChange(w.cluster, s, max, u);
      UnreadAfter(w, s, max, seat.0, u);
      StayerHears(w, s, max, seat, u);
    case Read(reader) =>
      if reader == seat.0 {
        ReadHears(w, reader, max, seat);
        ComingIsHeard(w.copies[seat], Unread(w, reader), u);
        ComingIsHeard(Next(w, step, max).copies[seat], Unread(Next(w, step, max), reader), u);
      }
  }

  /** A client that was there keeps its entry for `u` through a handler that does not
      change the list's. */
  lemma StayerHears(w: World, step: P.Step, max: nat, seat: P.Seat, u: UserId)
    requires Sane(w) && Possible(w, Act(step)) && !Changes(w, Act(step), max, u)
    requires seat in w.copies && seat in CopiesAfter(w, step, max)
    ensures Entry(CopiesAfter(w, step, max)[seat], u) == Entry(w.copies[seat], u)
  {
  }

  lemma {:induction false} StaleStays(nodes: set<NodeId>, trace: seq<Step>, from: nat, n: NodeId, u: UserId, max: nat)
    requires from <= |trace| && Run(nodes, trace, max).Some? && Run(nodes, trace[..from], max).Some?
    requires StaleIfAny(Run(nodes, trace[..from], max).value, n, u) && Unchanged(nodes, trace, from, max, u)
    ensures StaleIfAny(Run(nodes, trace, max).value, n, u)
    decreases |trace|
  {
    if |trace| == from {
      assert trace[..from] == trace;
    } else {
      var before := trace[..|trace| - 1];
      assert before[..from] == trace[..from];
      StaleStays(nodes, before, from, n, u, max);
      RunIsSane(nodes, before, max);
      StepKeepsStale(Run(nodes, before, max).value, trace[|trace| - 1], max, n, u);
    }
  }

  /** The client of `seat` is there from step `at` on. */
  ghost predicate Stays(nodes: set<NodeId>, trace: seq<Step>, at: nat, max: nat, seat: P.Seat) {
    && Run(nodes, trace, max).Some? && seat in Run(nodes, trace, max).value.copies
    && (|trace| <= at || Stays(nodes, trace[..|trace| - 1], at, max, seat))
  }

  lemma {:induction false} OffCourseStays(nodes: set<NodeId>, trace: seq<Step>, from: nat, at: nat, seat: P.Seat,
                                          u: UserId, max: nat)
    requires from <= at <= |trace| && Stays(nodes, trace, at, max, seat) && Unchanged(nodes, trace, from, max, u)
    requires Run(nodes, trace[..from], max).Some? && StaleIfAny(Run(nodes, trace[..from], max).value, seat.0, u)
    requires Run(nodes, trace[..at], max).Some? && OffCourse(Run(nodes, trace[..at], max).value, seat, u)
    ensures OffCourse(Run(nodes, trace, max).value, seat, u)
    decreases |trace|
  {
    if |trace| == at {
      assert trace[..at] == trace;
    } else {
      var before := trace[..|trace| - 1];
      assert before[..at] == trace[..at] && before[..from] == trace[..from];
      OffCourseStays(nodes, before, from, at, seat, u, max);
      StaleStays(nodes, before, from, seat.0, u, max);
      RunIsSane(nodes, before, max);
      StepKeepsOffCourse(Run(nodes, before, max).value, trace[|trace| - 1], max, seat, u);
    }
  }

  lemma {:induction false} UnchangedBefore(nodes: set<NodeId>, trace: seq<Step>, from: nat, at: nat, max: nat,
                                           u: UserId)
    requires from <= at <= |trace| && Run(nodes, trace, max).Some? && Unchanged(nodes, trace, from, max, u)
    ensures Run(nodes, trace[..at], max).Some? && Unchanged(nodes, trace[..at], from, max, u)
    decreases |trace|
  {
    if |trace| == at {
      assert trace[..at] == trace;
    } else {
      var before := trace[..|trace| - 1];
      assert before[..at] == trace[..at];
      UnchangedBefore(nodes, before, from, at, max, u);
    }
  }

  /** The step overtakes news about `u` on node `n`, the first to overtake any. */
  ghost predicate FirstOvertaken(nodes: set<NodeId>, trace: seq<Step>, step: Step, n: NodeId, u: UserId, max: nat) {
    && Run(nodes, trace, max).Some? && NeverOvertakes(nodes, trace, max)
    && var w := Run(nodes, trace, max).value;
    && Sane(w) && Possible(w, step) && Overtakes(w, step, max)
    && step.step.seat.0 == n && News(w.cluster, step.step, max).value.user == u
  }

  /** The node has something about `u` left to read. */
  ghost predicate HasYetToRead(w: World, n: NodeId, u: UserId) {
    n in w.cursors && w.cursors[n] <= |w.posted| && LastAbout(Unread(w, n), u).Some?
  }

  ghost predicate EntryIsWrong(w: World, seat: P.Seat, u: UserId) {
    seat in w.copies && Entry(w.copies[seat], u) != Entry(Listed(w), u)
  }

  lemma OvertakenIsStale(nodes: set<NodeId>, trace: seq<Step>, step: Step, n: NodeId, u: UserId, max: nat)
    requires FirstOvertaken(nodes, trace, step, n, u, max)
    ensures Run(nodes, trace + [step], max).Some?
    ensures StaleIfAny(Run(nodes, trace + [step], max).value, n, u)
    ensures HasYetToRead(Run(nodes, trace + [step], max).value, n, u)
  {
    StartSettles(nodes, max);
    SettlesStays(nodes, [], trace, max);
    RunOne(nodes, trace, step, max);
    OvertakingUnsettles(Run(nodes, trace, max).value, step, max);
  }

  lemma StaleMisleads(w: World, seat: P.Seat, u: UserId)
    requires StaleIfAny(w, seat.0, u) && HasYetToRead(w, seat.0, u) && seat in w.copies
    ensures OffCourse(w, seat, u)
  {
  }

  /** Once news has overtaken, whatever else happens while that user's entry stays: whoever
      is a client of that node at once, or becomes one before the node has read what it had
      left about the user, ends up wrong about the user. */
  lemma OvertakenEndsWrong(nodes: set<NodeId>, trace: seq<Step>, step: Step, longer: seq<Step>, at: nat, seat: P.Seat,
                           u: UserId, max: nat)
    requires FirstOvertaken(nodes, trace, step, seat.0, u, max)
    requires trace + [step] <= longer && |trace| + 1 <= at <= |longer| && Stays(nodes, longer, at, max, seat)
    requires Unchanged(nodes, longer, |trace| + 1, max, u)
    requires Run(nodes, longer[..at], max).Some?
    requires at == |trace| + 1 || HasYetToRead(Run(nodes, longer[..at], max).value, seat.0, u)
    requires CaughtUp(Run(nodes, longer, max).value, seat.0)
    ensures EntryIsWrong(Run(nodes, longer, max).value, seat, u)
  {
    hide Run, Stays, Unchanged, FirstOvertaken, StaleIfAny, HasYetToRead, OffCourse, CaughtUp, EntryIsWrong;
    var from := |trace| + 1;
    assert longer[..from] == trace + [step] && longer[..at][..from] == longer[..from];
    OvertakenIsStale(nodes, trace, step, seat.0, u, max);
    StaysBefore(nodes, longer, at, seat, max);
    UnchangedBefore(nodes, longer, from, at, max, u);
    StaleStays(nodes, longer[..at], from, seat.0, u, max);
    StaleMisleads(Run(nodes, longer[..at], max).value, seat, u);
    OffCourseStays(nodes, longer, from, at, seat, u, max);
    NothingLeft(Run(nodes, longer, max).value, seat, u);
  }

  lemma {:induction false} StaysBefore(nodes: set<NodeId>, trace: seq<Step>, at: nat, seat: P.Seat, max: nat)
    requires at <= |trace| && Stays(nodes, trace, at, max, seat)
    ensures Run(nodes, trace, max).Some? && Stays(nodes, trace[..at], at, max, seat)
    ensures seat in Run(nodes, trace[..at], max).value.copies
    decreases |trace|
  {
    if |trace| == at {
      assert trace[..at] == trace;
    } else {
      assert trace[..|trace| - 1][..at] == trace[..at];
      StaysBefore(nodes, trace[..|trace| - 1], at, seat, max);
    }
  }

  lemma NothingLeft(w: World, seat: P.Seat, u: UserId)
    requires OffCourse(w, seat, u) && CaughtUp(w, seat.0)
    ensures EntryIsWrong(w, seat, u)
  {
    assert w.posted[w.cursors[seat.0]..] == [];
  }

  /** It does happen: `u` joins and leaves on "a", then joins on "b", which has not read
      of either yet. */
  lemma OvertakingHappens(max: nat, u: UserId, info: Info)
    requires max >= 1
    ensures var trace := [Act(P.Join(("a", "s"), u, info))] + [Act(P.Leave(("a", "s")))];
            var step := Act(P.Join(("b", "t"), u, info));
            && Run({"a", "b"}, trace, max).Some? && NeverOvertakes({"a", "b"}, trace, max)
            && Sane(Run({"a", "b"}, trace, max).value) && Possible(Run({"a", "b"}, trace, max).value, step)
            && Overtakes(Run({"a", "b"}, trace, max).value, step, max)
            && !AllEndRight({"a", "b"}, trace + [step], max)
  {
    var join, leave := P.Join(("a", "s"), u, info), P.Leave(("a", "s"));
    var w1 := FirstJoined(max, u, info);
    OneMoreOvertakesNot({"a", "b"}, [Act(join)], Act(leave), 0, max);
    assert Foreign([Posted("a", Joined(u, info))], "a") == Foreign([], "a") + [];
    var w2 := Next(w1, Act(leave), max);
    assert w2.posted == [Posted("a", Joined(u, info))] + [Posted("a", Departed(u))];
    assert w2.cluster.seats == map[] && Count(w2.cluster.hashes, u) == 0;
    ForeignOneMore([Posted("a", Joined(u, info))], 0, "b", Posted("a", Departed(u)));
    assert ([Posted("a", Joined(u, info))] + [Posted("a", Departed(u))])[0..] == w2.posted;
    LastAboutOneMore(Foreign([Posted("a", Joined(u, info))][0..], "b"), Departed(u), u);
    RunIsSane({"a", "b"}, [Act(join)] + [Act(leave)], max);
    OvertakingMisleads({"a", "b"}, [Act(join)] + [Act(leave)], Act(P.Join(("b", "t"), u, info)), max);
  }

  lemma FirstJoined(max: nat, u: UserId, info: Info) returns (w: World)
    requires max >= 1
    ensures Run({"a", "b"}, [Act(P.Join(("a", "s"), u, info))], max) == Some(w)
    ensures NeverOvertakes({"a", "b"}, [Act(P.Join(("a", "s"), u, info))], max)
    ensures w.cluster.hashes == Hashes(map[u := info], map[u := 1]) && w.cluster.seats == map[("a", "s") := u]
    ensures w.posted == [Posted("a", Joined(u, info))] && w.cursors == map["a" := 0, "b" := 0]
  {
    var nodes, join := {"a", "b"}, Act(P.Join(("a", "s"), u, info));
    w := Next(Start(nodes), join, max);
    assert [] + [join] == [join];
    OneMoreOvertakesNot(nodes, [], join, 0, max);
    hide NoneOvertakes, Sane, Run;
    assert [] + [Posted("a", Joined(u, info))] == [Posted("a", Joined(u, info))];
  }
}
