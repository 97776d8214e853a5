/** Which of two Muji participants opens the media session between them. */
module MujiOpeners {
  import opened Common
  import opened MujiSpec
  import opened MujiRoom
  import opened MujiInvariant
  import opened MujiTurns

  /** The channel has opened, or will open, a session to `m`. */
  predicate Opens(c: Chan, m: Member) {
    m in c.sessionsToOpen || m in c.openedTo
  }

  /** How far the order counts for deciding whom to open a session to: up to the first echo. */
  ghost function Horizon(n: Node): nat {
    if Echoed(n, 0) then n.pos[0] else n.cursor
  }

  ghost predicate Heard(log: seq<Entry>, h: nat, m: Member) {
    exists i :: 0 <= i < h && i < |log| && log[i].who == m
  }

  /** The guard under which `p` queues a session although its own first note has come back: it has
      begun another round, its sessions are not open, and it hears of `q`. */
  ghost predicate HearsEarly(r: Room, a: Action, p: Member, q: Member) {
    && a.Deliver? && a.p == p && Enabled(r, a)
    && var n := r.nodes[p];
    && n.attached && r.log[n.cursor].who == q
    && Echoed(n, 0) && !n.chan.sessionsOpened && BeforeWait(n.chan.state)
  }

  ghost predicate Early(ps: set<Member>, acts: seq<Action>, p: Member, q: Member) {
    exists k :: 0 <= k < |acts| && HearsEarly(Run(ps, acts[..k]), acts[k], p, q)
  }

  /** Whom `p` opens a session to: whoever was heard of before its first echo, or early. */
  ghost predicate OpensExactly(log: seq<Entry>, p: Member, n: Node, q: Member, early: bool) {
    && (!n.attached ==> !early)
    && (n.alive && n.attached ==>
          && (n.chan.sessionsOpened ==> Echoed(n, 0))
          && (Opens(n.chan, q) <==> Heard(log, Horizon(n), q) || early))
  }

  /** A channel that already published starts another round although its sessions are not open. */
  ghost predicate EarlyRound(r: Room, a: Action) {
    && a.MediaUpdate? && Enabled(r, a)
    && r.nodes[a.p].chan.state == Stable
    && !r.nodes[a.p].chan.sessionsOpened
  }

  ghost predicate NoEarlyRound(ps: set<Member>, acts: seq<Action>) {
    forall k :: 0 <= k < |acts| ==> !EarlyRound(Run(ps, acts[..k]), acts[k])
  }

  ghost predicate AllMuji(log: seq<Entry>) {
    forall i :: 0 <= i < |log| ==> IsMuji(log[i].note)
  }

  /** In WAIT_FOR_TURN and STABLE the first echo has been heard. */
  lemma FirstEcho(log: seq<Entry>, p: Member, n: Node)
    requires NodeInv(log, p, n) && n.alive && n.attached && (n.chan.state == WaitForTurn || n.chan.state == Stable)
    ensures Echoed(n, 0)
  {
    var last := |n.chan.sent| - 1;
    assert ShapeAt(n, last);
    var k := if n.chan.state == Stable then last - 1 else last;
    assert Echoed(n, k);
  }

  lemma HeardStep(log: seq<Entry>, h: nat, m: Member)
    requires h < |log|
    ensures Heard(log, h + 1, m) <==> Heard(log, h, m) || log[h].who == m
  {
    if log[h].who == m { assert Heard(log, h + 1, m); }
  }

  lemma HeardGrows(log: seq<Entry>, e: Entry, h: nat, m: Member)
    requires h <= |log|
    ensures Heard(log + [e], h, m) <==> Heard(log, h, m)
  {
    if Heard(log, h, m) {
      var i :| 0 <= i < h && i < |log| && log[i].who == m;
      assert (log + [e])[i].who == m;
    }
  }

  /** Without departures, whom hearing a note adds to the sessions to open. */
  lemma HearOpens(c: Chan, p: Member, who: Member, note: Note, contents: seq<nat>, m: Member)
    requires IsMuji(note)
    ensures var c' := Hear(c, p, who, note, contents);
            Opens(c', m) <==> Opens(c, m) || (m == who && who != p && !c.sessionsOpened && BeforeWait(c.state))
  {
  }

  lemma HearSessions(c: Chan, p: Member, who: Member, note: Note, contents: seq<nat>)
    requires IsMuji(note)
    ensures var c' := Hear(c, p, who, note, contents);
            && (BeforeWait(c'.state) ==> c'.state == c.state)
            && (c.sessionsOpened ==> c'.sessionsOpened)
            && (c'.sessionsOpened && !c.sessionsOpened ==> c.state == Stable)
  {
  }

  /** Moving past a note: the horizon moves along until our own first note. */
  lemma HorizonMoves(log: seq<Entry>, p: Member, n: Node, n': Node, m: Member)
    requires Placed(log, p, n) && n.cursor < |log| && n'.cursor == n.cursor + 1 && n'.pos == n.pos
    ensures Heard(log, Horizon(n'), m) <==>
            Heard(log, Horizon(n), m) || (!Echoed(n, 0) && log[n.cursor].who != p && m == log[n.cursor].who)
    ensures Echoed(n', 0) <==> Echoed(n, 0) || log[n.cursor].who == p
  {
    HeardStep(log, n.cursor, m);
    if log[n.cursor].who == p {
      var k :| 0 <= k < |n.pos| && n.pos[k] == n.cursor;
      assert n.pos[0] <= n.pos[k];
    } else if n.pos != [] {
      assert log[n.pos[0]].who == p;
    }
  }

  /** Hearing our very first note back is what takes us out of PREPARING_SENT. */
  lemma FirstEchoMoves(log: seq<Entry>, p: Member, n: Node, contents: seq<nat>)
    requires NodeInv(log, p, n) && n.alive && n.attached && n.cursor < |log| && log[n.cursor].who == p
    requires !Echoed(n, 0) && n.chan.state != Left
    ensures !BeforeWait(HearNext(log, p, n, contents).chan.state)
  {
    var k :| 0 <= k < |n.pos| && n.pos[k] == n.cursor;
    assert k == 0 by { assert n.pos[0] <= n.pos[k]; }
    if n.chan.state == WaitForTurn || n.chan.state == Stable { FirstEcho(log, p, n); }
    MujiPrefix(n, 0, |n.chan.sent| - 1);
    assert ShapeAt(n, 0);
    assert |n.chan.sent| == 1 by {
      if |n.chan.sent| > 1 {
        assert ShapeAt(n, 1);
        MujiPrefix(n, 1, |n.chan.sent| - 1);
      }
    }
    OwnEchoSplits(log, p, n, 0, contents);
  }

  lemma DeliverExactly(log: seq<Entry>, p: Member, n: Node, q: Member, early: bool, contents: seq<nat>)
    requires NodeInv(log, p, n) && n.alive && n.attached && n.cursor < |log| && IsMuji(log[n.cursor].note)
    requires n.chan.state != Left && OpensExactly(log, p, n, q, early) && p != q
    ensures var now := log[n.cursor].who == q && Echoed(n, 0) && !n.chan.sessionsOpened && BeforeWait(n.chan.state);
            OpensExactly(log, p, HearNext(log, p, n, contents), q, early || now)
  {
    if n.chan.state == WaitForTurn || n.chan.state == Stable { FirstEcho(log, p, n); }
    var e, n' := log[n.cursor], HearNext(log, p, n, contents);
    HearSessions(n.chan, p, e.who, e.note, contents);
    HearOpens(n.chan, p, e.who, e.note, contents, q);
    HorizonMoves(log, p, n, n', q);
  }

  lemma AttachExactly(log: seq<Entry>, p: Member, n: Node, q: Member, known: seq<(Member, Option<Tree>)>)
    requires NodeInv(log, p, n) && n.alive && !n.attached && IsSnapshot(log[..n.cursor], p, known) && AllMuji(log)
    requires p != q
    ensures OpensExactly(log, p, n.(attached := true, chan := UpdateAllMembers(n.chan, known)), q, false)
  {
    var seen := log[..n.cursor];
    SnapshotEffect(known);
    SnapshotLists(seen, p, known, q);
    if Heard(log, n.cursor, q) {
      var i :| 0 <= i < n.cursor && log[i].who == q;
      assert seen[i].who == q;
      assert InCall(seen, q);
    }
    assert InCall(seen, q) ==> log[LastIdx(seen, q)].who == q;
  }

  lemma LocalExactly(log: seq<Entry>, p: Member, n: Node, c: Chan, q: Member, early: bool)
    requires OpensExactly(log, p, n, q, early) && n.alive && n.attached
    requires c.sessionsToOpen == n.chan.sessionsToOpen && c.openedTo == n.chan.openedTo
    requires c.sessionsOpened == n.chan.sessionsOpened
    ensures OpensExactly(log, p, n.(chan := c), q, early)
  {
    assert Echoed(n.(chan := c), 0) <==> Echoed(n, 0);
  }

  lemma GrowExactly(log: seq<Entry>, e: Entry, p: Member, n: Node, n': Node, q: Member, early: bool)
    requires Placed(log, p, n) && OpensExactly(log, p, n, q, early) && n'.alive == n.alive && n'.attached == n.attached
    requires n'.chan == n.chan && n'.cursor == n.cursor && (n'.pos == n.pos || n'.pos == n.pos + [|log|])
    ensures OpensExactly(log + [e], p, n', q, early)
  {
    assert Echoed(n', 0) <==> Echoed(n, 0);
    assert Horizon(n') == Horizon(n) <= |log|;
    HeardGrows(log, e, Horizon(n), q);
  }

  lemma {:induction false} HearExactly(r: Room, a: Action, q: Member, early: bool)
    requires Inv(r) && Enabled(r, a) && AllMuji(r.log) && a.p != q && a.Deliver?
    requires StaysIn(r.nodes[a.p]) && OpensExactly(r.log, a.p, r.nodes[a.p], q, early)
    ensures var r' := Apply(r, a);
            OpensExactly(r'.log, a.p, r'.nodes[a.p], q, early || HearsEarly(r, a, a.p, q))
  {
    var n := r.nodes[a.p];
    if n.attached {
      DeliverExactly(r.log, a.p, n, q, early, a.contents);
    }
  }

  /** What an action of `p` itself does. */
  lemma {:induction false} ActorExactly(r: Room, a: Action, q: Member, early: bool)
    requires Inv(r) && Enabled(r, a) && AllMuji(r.log) && a.p != q
    requires StaysIn(r.nodes[a.p]) && StaysIn(Apply(r, a).nodes[a.p])
    requires OpensExactly(r.log, a.p, r.nodes[a.p], q, early)
    ensures var r' := Apply(r, a);
            OpensExactly(r'.log, a.p, r'.nodes[a.p], q, early || HearsEarly(r, a, a.p, q))
  {
    if a.Deliver? {
      HearExactly(r, a, q, early);
    } else {
      LocalAction(r, a, q, early);
    }
  }

  lemma {:induction false} LocalAction(r: Room, a: Action, q: Member, early: bool)
    requires Inv(r) && Enabled(r, a) && AllMuji(r.log) && a.p != q && !a.Deliver?
    requires StaysIn(Apply(r, a).nodes[a.p]) && OpensExactly(r.log, a.p, r.nodes[a.p], q, early)
    ensures var r' := Apply(r, a); OpensExactly(r'.log, a.p, r'.nodes[a.p], q, early)
  {
    var p, n := a.p, r.nodes[a.p];
    match a {
      case Attach(_, known) => AttachExactly(r.log, p, n, q, known);
      case UserAccept(_, got) => LocalExactly(r.log, p, n, Accept(n.chan, got), q, early);
      case MediaUpdate(_, got) => LocalExactly(r.log, p, n, DoUpdate(n.chan, got), q, early);
      case Hangup(_) => HangupIsDeparture(r, a);
      case Order(_) =>
        GrowExactly(r.log, Entry(p, n.chan.sent[|n.pos|]), p, n, n.(pos := n.pos + [|r.log|]), q, early);
      case Vanish(_) =>
    }
  }

  /** A step of someone else makes the order longer at most. */
  lemma {:induction false} OtherExactly(r: Room, a: Action, p: Member, q: Member, early: bool)
    requires Inv(r) && Enabled(r, a) && p in r.nodes && p != a.p
    requires OpensExactly(r.log, p, r.nodes[p], q, early)
    ensures OpensExactly(Apply(r, a).log, p, r.nodes[p], q, early)
  {
    var log := Apply(r, a).log;
    if log != r.log {
      assert log == r.log + [log[|r.log|]];
      GrowExactly(r.log, log[|r.log|], p, r.nodes[p], r.nodes[p], q, early);
    }
  }

  lemma {:induction false} StepExactly(r: Room, a: Action, p: Member, q: Member, early: bool)
    requires Inv(r) && NoDepartures(Step(r, a)) && p in r.nodes && p != q
    requires OpensExactly(r.log, p, r.nodes[p], q, early)
    ensures var r' := Step(r, a);
            p in r'.nodes && OpensExactly(r'.log, p, r'.nodes[p], q, early || HearsEarly(r, a, p, q))
  {
    if Enabled(r, a) {
      if a.p == p {
        StaysInStep(r, a);
        assert StaysIn(Apply(r, a).nodes[p]) && StaysIn(r.nodes[p]);
        ActorExactly(r, a, q, early);
      } else {
        OtherExactly(r, a, p, q, early);
      }
    }
  }

  /** Hanging up is a departure unless the channel had left already. */
  lemma HangupIsDeparture(r: Room, a: Action)
    requires Inv(r) && Enabled(r, a) && a.Hangup?
    ensures !StaysIn(Apply(r, a).nodes[a.p])
  {
    var n, n' := r.nodes[a.p], Apply(r, a).nodes[a.p];
    var k := |n'.chan.sent| - 1;
    assert n'.chan.sent[k] == Presence(None);
  }

  lemma EarlySnoc(ps: set<Member>, front: seq<Action>, a: Action, p: Member, q: Member)
    ensures Early(ps, front + [a], p, q) <==> Early(ps, front, p, q) || HearsEarly(Run(ps, front), a, p, q)
  {
    var acts := front + [a];
    assert acts[..|front|] == front && acts[|front|] == a;
    assert forall k :: 0 <= k < |front| ==> acts[..k] == front[..k] && acts[k] == front[k];
    if Early(ps, front, p, q) {
      var k :| 0 <= k < |front| && HearsEarly(Run(ps, front[..k]), front[k], p, q);
      assert HearsEarly(Run(ps, acts[..k]), acts[k], p, q);
    }
    if Early(ps, acts, p, q) {
      var k :| 0 <= k < |acts| && HearsEarly(Run(ps, acts[..k]), acts[k], p, q);
      assert k < |front| ==> HearsEarly(Run(ps, front[..k]), front[k], p, q);
    }
  }

  lemma {:induction false} RunExactly(ps: set<Member>, acts: seq<Action>, p: Member, q: Member)
    requires NoDepartures(Run(ps, acts)) && p in ps && p != q
    ensures var r := Run(ps, acts); p in r.nodes && OpensExactly(r.log, p, r.nodes[p], q, Early(ps, acts, p, q))
  {
    if acts != [] {
      var front, a := acts[..|acts| - 1], acts[|acts| - 1];
      RunKeeps(ps, front);
      StaysInStep(Run(ps, front), a);
      RunExactly(ps, front, p, q);
      StepExactly(Run(ps, front), a, p, q, Early(ps, front, p, q));
      assert acts == front + [a];
      EarlySnoc(ps, front, a, p, q);
    }
  }

  lemma FirstIsFirst(log: seq<Entry>, q: Member, n: Node, h: nat)
    requires Placed(log, q, n) && n.pos != []
    ensures Heard(log, h, q) <==> n.pos[0] < h
  {
    if n.pos[0] < h { assert log[n.pos[0]].who == q; }
    if Heard(log, h, q) {
      var i :| 0 <= i < h && i < |log| && log[i].who == q;
      var k :| 0 <= k < |n.pos| && n.pos[k] == i;
      assert n.pos[0] <= n.pos[k];
    }
  }

  /** Someone who has heard an echo is there and listening, if nobody departs. */
  lemma OpenNode(r: Room, p: Member)
    requires Inv(r) && NoDepartures(r) && p in r.nodes && Echoed(r.nodes[p], 0)
    ensures r.nodes[p].alive && r.nodes[p].attached
  {
    var n := r.nodes[p];
    assert StaysIn(n);
    assert !n.alive ==> !IsMuji(n.chan.sent[|n.pos| - 1]);
  }

  /** Both participants have entered the call: each has heard its own first note back. */
  ghost predicate BothIn(r: Room, p: Member, q: Member) {
    p != q && p in r.nodes && q in r.nodes && Echoed(r.nodes[p], 0) && Echoed(r.nodes[q], 0)
  }

  /** Who opens a session to whom, in every run without departures: `p` to `q` if and only if `q`'s
      preparation came first in the room order, or `p` heard of `q` early. */
  lemma {:induction false} OpensIff(ps: set<Member>, acts: seq<Action>, p: Member, q: Member)
    requires NoDepartures(Run(ps, acts)) && p in ps && q in ps && BothIn(Run(ps, acts), p, q)
    ensures var r := Run(ps, acts);
            Opens(r.nodes[p].chan, q) <==> r.nodes[q].pos[0] < r.nodes[p].pos[0] || Early(ps, acts, p, q)
  {
    var r := Run(ps, acts);
    RunKeeps(ps, acts);
    RunExactly(ps, acts, p, q);
    OpenNode(r, p);
    FirstIsFirst(r.log, q, r.nodes[q], r.nodes[p].pos[0]);
  }

  /** Of two participants exactly one opens the session, the one that prepared later, if and only if
      the one that prepared first has not heard of the other early. */
  lemma {:induction false} ExactlyOneIff(ps: set<Member>, acts: seq<Action>, p: Member, q: Member)
    requires NoDepartures(Run(ps, acts)) && p in ps && q in ps && BothIn(Run(ps, acts), p, q)
    requires Run(ps, acts).nodes[p].pos[0] < Run(ps, acts).nodes[q].pos[0]
    ensures Opens(Run(ps, acts).nodes[q].chan, p)
    ensures Opens(Run(ps, acts).nodes[p].chan, q) <==> Early(ps, acts, p, q)
  {
    OpensIff(ps, acts, p, q);
    OpensIff(ps, acts, q, p);
  }

  // ---- No round before the sessions are open ----

  /** In a later round the sessions are open. */
  ghost predicate OpenedFirst(n: Node) {
    n.alive && n.attached && Echoed(n, 0) && BeforeWait(n.chan.state) ==> n.chan.sessionsOpened
  }

  lemma DeliverOpenedFirst(log: seq<Entry>, p: Member, n: Node, contents: seq<nat>)
    requires NodeInv(log, p, n) && n.alive && n.attached && n.cursor < |log| && IsMuji(log[n.cursor].note)
    requires n.chan.state != Left && OpenedFirst(n)
    ensures OpenedFirst(HearNext(log, p, n, contents))
  {
    var e, n' := log[n.cursor], HearNext(log, p, n, contents);
    if e.who == p && !Echoed(n, 0) { FirstEchoMoves(log, p, n, contents); }
    HearSessions(n.chan, p, e.who, e.note, contents);
    HorizonMoves(log, p, n, n', p);
  }

  lemma ActorOpenedFirst(r: Room, a: Action)
    requires Inv(r) && Enabled(r, a) && AllMuji(r.log) && !EarlyRound(r, a)
    requires StaysIn(r.nodes[a.p]) && StaysIn(Apply(r, a).nodes[a.p]) && OpenedFirst(r.nodes[a.p])
    ensures OpenedFirst(Apply(r, a).nodes[a.p])
  {
    var n := r.nodes[a.p];
    match a {
      case Attach(_, known) => SnapshotEffect(known);
      case Hangup(_) => HangupIsDeparture(r, a);
      case Deliver(_, contents) => if n.attached { DeliverOpenedFirst(r.log, a.p, n, contents); }
      case _ =>
    }
  }

  lemma {:induction false} RunOpenedFirst(ps: set<Member>, acts: seq<Action>, p: Member)
    requires NoDepartures(Run(ps, acts)) && NoEarlyRound(ps, acts) && p in ps
    ensures p in Run(ps, acts).nodes && OpenedFirst(Run(ps, acts).nodes[p])
  {
    if acts != [] {
      var front, a := acts[..|acts| - 1], acts[|acts| - 1];
      var r := Run(ps, front);
      RunKeeps(ps, front);
      StaysInStep(r, a);
      EarlierRounds(ps, acts);
      RunOpenedFirst(ps, front, p);
      if Enabled(r, a) && a.p == p {
        assert StaysIn(Apply(r, a).nodes[p]) && StaysIn(r.nodes[p]);
        ActorOpenedFirst(r, a);
      }
    }
  }

  lemma {:induction false} NoEarlyHearing(ps: set<Member>, acts: seq<Action>, p: Member, q: Member)
    requires NoDepartures(Run(ps, acts)) && NoEarlyRound(ps, acts) && p in ps
    ensures !Early(ps, acts, p, q)
  {
    if acts != [] {
      var front, a := acts[..|acts| - 1], acts[|acts| - 1];
      RunKeeps(ps, front);
      StaysInStep(Run(ps, front), a);
      EarlierRounds(ps, acts);
      NoEarlyHearing(ps, front, p, q);
      RunOpenedFirst(ps, front, p);
      NotHeardEarly(Run(ps, front), a, p, q);
      assert acts == front + [a];
      EarlySnoc(ps, front, a, p, q);
    }
  }

  lemma EarlierRounds(ps: set<Member>, acts: seq<Action>)
    requires acts != [] && NoEarlyRound(ps, acts)
    ensures NoEarlyRound(ps, acts[..|acts| - 1])
    ensures !EarlyRound(Run(ps, acts[..|acts| - 1]), acts[|acts| - 1])
  {
    var front := acts[..|acts| - 1];
    assert forall k :: 0 <= k < |front| ==> front[..k] == acts[..k] && front[k] == acts[k];
  }

  lemma NotHeardEarly(r: Room, a: Action, p: Member, q: Member)
    requires p in r.nodes && OpenedFirst(r.nodes[p])
    ensures !HearsEarly(r, a, p, q)
  {
  }

  /** The single opener: without departures and without a round started early, for every pair of
      participants that have entered the call exactly one opens the session, namely the one whose
      preparation came later in the room order. */
  lemma {:induction false} SingleOpener(ps: set<Member>, acts: seq<Action>, p: Member, q: Member)
    requires NoDepartures(Run(ps, acts)) && NoEarlyRound(ps, acts) && p in ps && q in ps
    requires BothIn(Run(ps, acts), p, q)
    ensures var r := Run(ps, acts);
            && (Opens(r.nodes[p].chan, q) <==> r.nodes[q].pos[0] < r.nodes[p].pos[0])
            && (Opens(r.nodes[p].chan, q) <==> !Opens(r.nodes[q].chan, p))
  {
    var r := Run(ps, acts);
    RunKeeps(ps, acts);
    OpensIff(ps, acts, p, q);
    OpensIff(ps, acts, q, p);
    NoEarlyHearing(ps, acts, p, q);
    NoEarlyHearing(ps, acts, q, p);
    assert r.log[r.nodes[p].pos[0]].who == p && r.log[r.nodes[q].pos[0]].who == q;
  }

  const Published0 := SendNewState(PrepSent.chan.(state := WaitForTurn), [])
  const SecondRound0 := DoUpdate(Published0, true)
  const Waiter1 := Node(WaitsForZero, [1], 2, true, true)

  /** Member 0 publishes and, before it hears that back, starts another round. */
  lemma ZeroStartsEarly() returns (acts: seq<Action>)
    ensures Run({0, 1}, acts) == Room(PrepLog, map[0 := Node(SecondRound0, [0], 1, true, true), 1 := Waiter1])
    ensures acts != [] && EarlyRound(Run({0, 1}, acts[..|acts| - 1]), acts[|acts| - 1])
  {
    var ps: set<Member> := {0, 1};
    acts := OneWaitsForZero();
    assert Hear(PrepSent.chan, 0, 0, Presence(PrepTree), []) == Published0;
    RunSnoc(ps, acts, Deliver(0, []));
    acts := acts + [Deliver(0, [])];
    assert Run(ps, acts) == Room(PrepLog, map[0 := Node(Published0, [0], 1, true, true), 1 := Waiter1]);
    RunSnoc(ps, acts, MediaUpdate(0, true));
    var front := acts;
    acts := acts + [MediaUpdate(0, true)];
    assert acts[..|acts| - 1] == front;
  }

  /** A round started early breaks it: member 0, in its second round with its sessions still
      unopened, hears member 1 prepare; both open a session to the other. */
  lemma {:induction false} BothOpenAfterEarlyRound() returns (acts: seq<Action>)
    ensures !NoEarlyRound({0, 1}, acts)
    ensures var r := Run({0, 1}, acts);
            && 0 in r.nodes && 1 in r.nodes && Echoed(r.nodes[0], 0) && Echoed(r.nodes[1], 0)
            && Opens(r.nodes[0].chan, 1) && Opens(r.nodes[1].chan, 0)
            && StaysIn(r.nodes[0]) && StaysIn(r.nodes[1])
  {
    var ps: set<Member> := {0, 1};
    var early := ZeroStartsEarly();
    acts := early + [Deliver(0, [])];
    RunSnoc(ps, early, Deliver(0, []));
    var k := |early| - 1;
    assert acts[..k] == early[..k] && acts[k] == early[k];
    assert EarlyRound(Run(ps, acts[..k]), acts[k]);
    HearOpens(SecondRound0, 0, 1, Presence(PrepTree), [], 1);
  }
}
