/** Sessions to participants of a Muji conference that have departed: how often a member is queued for a
    session, and when one is opened although the member is known to be gone. */
module MujiDepartures {
  import opened Common
  import opened MujiSpec
  import opened MujiRoom
  import opened MujiInvariant
  import opened MujiTurns

  // ---- Counting ----

  /** The note that `p` hears next. */
  ghost function NextNote(r: Room, p: Member): Entry
    requires p in r.nodes && r.nodes[p].cursor < |r.log|
  {
    r.log[r.nodes[p].cursor]
  }

  ghost predicate Hears(r: Room, a: Action, p: Member) {
    a.Deliver? && a.p == p && Enabled(r, a) && r.nodes[p].attached
  }

  /** `p` hears its own published presence back, and opens the sessions queued. */
  ghost predicate OpensNow(r: Room, a: Action, p: Member) {
    && Hears(r, a, p)
    && var c, e := r.nodes[p].chan, NextNote(r, p);
    e.who == p && c.state == Stable && c.muji.Some? && e.note == Presence(c.muji)
  }

  /** `m` is queued: it is heard of with a `<muji>` element before `p` waits for its turn, with the
      sessions not open. */
  ghost predicate QueuesNow(r: Room, a: Action, p: Member, m: Member) {
    && m != p
    && (|| (&& Hears(r, a, p) && NextNote(r, p).who == m && IsMuji(NextNote(r, p).note)
            && !r.nodes[p].chan.sessionsOpened && BeforeWait(r.nodes[p].chan.state))
        || (a.Attach? && a.p == p && Enabled(r, a) && Lists(a.known, m, false)))
  }

  /** `p` hears that `m`, which was in the call, departs. */
  ghost predicate DepartsNow(r: Room, a: Action, p: Member, m: Member) {
    && m != p && Hears(r, a, p) && NextNote(r, p).who == m && IsDeparture(NextNote(r, p).note)
    && InCall(r.log[..r.nodes[p].cursor], m)
  }

  /** How often `m` is queued: each such note counts, each departure takes one back, and opening the
      sessions empties the queue. */
  ghost function CountStep(r: Room, a: Action, p: Member, m: Member, q: nat): nat {
    if OpensNow(r, a, p) then 0
    else if QueuesNow(r, a, p, m) then q + 1
    else if DepartsNow(r, a, p, m) && q > 0 then q - 1
    else q
  }

  ghost function Queued(ps: set<Member>, acts: seq<Action>, p: Member, m: Member): nat {
    if acts == [] then 0
    else
      var front := acts[..|acts| - 1];
      CountStep(Run(ps, front), acts[|acts| - 1], p, m, Queued(ps, front, p, m))
  }

  function Times(q: seq<Member>, m: Member): nat { multiset(q)[m] }

  lemma {:induction false} TimesSnoc(q: seq<Member>, x: Member, m: Member)
    ensures Times(q + [x], m) == Times(q, m) + if x == m then 1 else 0
  {
  }

  lemma {:induction false} TimesRemove(q: seq<Member>, x: Member, m: Member)
    ensures Times(RemoveFirst(q, x), m) == if x == m && Times(q, m) > 0 then Times(q, m) - 1 else Times(q, m)
    decreases |q|
  {
    if q != [] {
      assert q == [q[0]] + q[1..];
      if q[0] != x {
        TimesRemove(q[1..], x, m);
        assert RemoveFirst(q, x) == [q[0]] + RemoveFirst(q[1..], x);
      }
    }
  }

  // ---- Every step ----

  /** The queue after hearing a note. */
  lemma {:induction false} HearQueue(c: Chan, p: Member, e: Entry, contents: seq<nat>)
    ensures Hear(c, p, e.who, e.note, contents).sessionsToOpen ==
            if e.who == p then
              (if c.state == Stable && c.muji.Some? && e.note == Presence(c.muji) then [] else c.sessionsToOpen)
            else if IsMuji(e.note) then
              (if !c.sessionsOpened && BeforeWait(c.state) then c.sessionsToOpen + [e.who] else c.sessionsToOpen)
            else if e.who in c.members then RemoveFirst(c.sessionsToOpen, e.who)
            else c.sessionsToOpen
  {
  }

  lemma {:induction false} SnapshotTimes(known: seq<(Member, Option<Tree>)>, m: Member)
    requires forall i, j :: 0 <= i < j < |known| ==> known[i].0 != known[j].0
    ensures Times(UpdateAllMembers(FreshChan, known).sessionsToOpen, m) == if Lists(known, m, false) then 1 else 0
  {
    if known != [] {
      var k := |known| - 1;
      var who, c := known[k].0, UpdateAllMembers(FreshChan, known[..k]);
      SnapshotTimes(known[..k], m);
      SnapshotEffect(known[..k]);
      ListsLast(known, m, false);
      assert !Lists(known[..k], who, false) by {
        assert forall i :: 0 <= i < k ==> known[..k][i] == known[i];
      }
      assert who !in c.members;
      TimesSnoc(c.sessionsToOpen, who, m);
    }
  }

  /** The queue holds `m` as often as counted, while `p` is in the call. */
  ghost predicate Counts(r: Room, p: Member, m: Member, q: nat) {
    p in r.nodes && var n := r.nodes[p];
    && (n.alive && !n.attached ==> q == 0)
    && (n.alive && n.attached && n.chan.state != Left ==> Times(n.chan.sessionsToOpen, m) == q)
  }

  lemma {:induction false} HearTimes(c: Chan, p: Member, e: Entry, contents: seq<nat>, m: Member)
    requires m != p
    ensures var q := Times(c.sessionsToOpen, m);
            Times(Hear(c, p, e.who, e.note, contents).sessionsToOpen, m) ==
            if e.who == p then (if c.state == Stable && c.muji.Some? && e.note == Presence(c.muji) then 0 else q)
            else if e.who != m then q
            else if IsMuji(e.note) then (if !c.sessionsOpened && BeforeWait(c.state) then q + 1 else q)
            else if m in c.members && q > 0 then q - 1
            else q
  {
    HearQueue(c, p, e, contents);
    TimesSnoc(c.sessionsToOpen, e.who, m);
    TimesRemove(c.sessionsToOpen, e.who, m);
  }

  lemma {:induction false} DeliverCounts(r: Room, a: Action, p: Member, m: Member, q: nat)
    requires Inv(r) && Hears(r, a, p) && m != p && r.nodes[p].chan.state != Left && Counts(r, p, m, q)
    ensures Times(HearNext(r.log, p, r.nodes[p], a.contents).chan.sessionsToOpen, m) == CountStep(r, a, p, m, q)
  {
    var n, e := r.nodes[p], NextNote(r, p);
    assert NodeInv(r.log, p, n);
    assert m in n.chan.members <==> InCall(r.log[..n.cursor], m);
    HearTimes(n.chan, p, e, a.contents, m);
  }

  lemma {:induction false} HearStaysLeft(log: seq<Entry>, p: Member, n: Node, contents: seq<nat>)
    requires n.chan.state == Left && n.cursor < |log|
    ensures HearNext(log, p, n, contents).chan.state == Left
  {
  }

  lemma {:induction false} OwnCounts(r: Room, a: Action, m: Member, q: nat)
    requires Inv(r) && Enabled(r, a) && m != a.p && Counts(r, a.p, m, q) && !a.Deliver?
    ensures Counts(Apply(r, a), a.p, m, CountStep(r, a, a.p, m, q))
  {
    var n := r.nodes[a.p];
    assert NodeInv(r.log, a.p, n);
    match a {
      case Attach(_, known) => SnapshotTimes(known, m);
      case _ =>
    }
  }

  lemma {:induction false} StepCounts(r: Room, a: Action, p: Member, m: Member, q: nat)
    requires Inv(r) && Enabled(r, a) && m != p && Counts(r, p, m, q)
    ensures Counts(Apply(r, a), p, m, CountStep(r, a, p, m, q))
  {
    if a.p != p {
      var r' := Framed(r, a);
    } else if !a.Deliver? {
      OwnCounts(r, a, m, q);
    } else if !r.nodes[p].attached {
      var r' := Framed(r, a);
    } else if r.nodes[p].chan.state == Left {
      HearStaysLeft(r.log, p, r.nodes[p], a.contents);
    } else {
      DeliverCounts(r, a, p, m, q);
    }
  }

  lemma {:induction false} RunCounts(ps: set<Member>, acts: seq<Action>, p: Member, m: Member)
    requires p in ps && m != p
    ensures Counts(Run(ps, acts), p, m, Queued(ps, acts, p, m))
    decreases |acts|
  {
    if acts != [] {
      var front, a := acts[..|acts| - 1], acts[|acts| - 1];
      RunCounts(ps, front, p, m);
      RunKeeps(ps, front);
      if Enabled(Run(ps, front), a) { StepCounts(Run(ps, front), a, p, m, Queued(ps, front, p, m)); }
    }
  }

  // ---- What every run guarantees ----

  lemma {:induction false} OpenStep(r: Room, a: Action, p: Member)
    requires Inv(r) && OpensNow(r, a, p)
    ensures p in Apply(r, a).nodes
    ensures var c, c' := r.nodes[p].chan, Apply(r, a).nodes[p].chan;
            c'.openedTo == c.openedTo + c.sessionsToOpen && c'.sessionsToOpen == [] && c'.sessionsOpened
  {
  }

  /** In every run, when a participant opens its sessions, it opens as many to a member as that was
      queued, departures taken off; so a session is opened to a member that is not in the call as far as
      the participant has heard if and only if that was queued more often than taken off. */
  lemma {:induction false} SessionsOpened(ps: set<Member>, acts: seq<Action>, a: Action, p: Member, m: Member)
    requires p in ps && m != p && OpensNow(Run(ps, acts), a, p)
    ensures var r := Run(ps, acts); p in r.nodes && p in Step(r, a).nodes
    ensures var r := Run(ps, acts); var c, c' := r.nodes[p].chan, Step(r, a).nodes[p].chan;
            && c.openedTo <= c'.openedTo
            && Times(c'.openedTo[|c.openedTo|..], m) == Queued(ps, acts, p, m)
            && (!InCall(r.log[..r.nodes[p].cursor], m) ==>
                  (m in c'.openedTo[|c.openedTo|..] <==> Queued(ps, acts, p, m) > 0))
  {
    RunKeeps(ps, acts);
    RunCounts(ps, acts, p, m);
    var r := Run(ps, acts);
    OpenStep(r, a, p);
    var c := r.nodes[p].chan;
    assert (c.openedTo + c.sessionsToOpen)[|c.openedTo|..] == c.sessionsToOpen;
    assert m in c.sessionsToOpen <==> m in multiset(c.sessionsToOpen);
  }

  /** `m` is queued again although it is queued. */
  ghost predicate QueuedAgain(ps: set<Member>, acts: seq<Action>, p: Member, m: Member) {
    acts != [] &&
    var front, a := acts[..|acts| - 1], acts[|acts| - 1];
    QueuedAgain(ps, front, p, m) || (QueuesNow(Run(ps, front), a, p, m) && Queued(ps, front, p, m) > 0)
  }

  /** Queued at most once, and then in the call. */
  ghost predicate OnceInCall(r: Room, p: Member, m: Member, q: nat) {
    p in r.nodes && r.nodes[p].cursor <= |r.log| && q <= 1 && (q == 1 ==> InCall(r.log[..r.nodes[p].cursor], m))
  }

  lemma {:induction false} ListedInCall(r: Room, a: Action, m: Member)
    requires Enabled(r, a) && a.Attach? && Lists(a.known, m, false) && r.nodes[a.p].cursor <= |r.log|
    ensures InCall(r.log[..r.nodes[a.p].cursor], m)
  {
    var i :| 0 <= i < |a.known| && a.known[i].0 == m && ListedAs(a.known[i].1, false);
  }

  lemma {:induction false} OnceHears(r: Room, a: Action, p: Member, m: Member, q: nat)
    requires Enabled(r, a) && a.p == p && a.Deliver? && m != p && OnceInCall(r, p, m, q)
    requires !(QueuesNow(r, a, p, m) && q > 0) && (!r.nodes[p].attached ==> q == 0)
    ensures var c := r.nodes[p].cursor;
            var q' := CountStep(r, a, p, m, q); q' <= 1 && (q' == 1 ==> InCall(r.log[..c + 1], m))
  {
    SeenStep(r.log, r.nodes[p].cursor, m);
  }

  lemma {:induction false} OnceOther(r: Room, a: Action, p: Member, m: Member, q: nat)
    requires Enabled(r, a) && !(a.p == p && a.Deliver?) && m != p && OnceInCall(r, p, m, q)
    requires !(QueuesNow(r, a, p, m) && q > 0)
    ensures var q' := CountStep(r, a, p, m, q); q' <= 1 && (q' == 1 ==> InCall(r.log[..r.nodes[p].cursor], m))
  {
    if QueuesNow(r, a, p, m) { ListedInCall(r, a, m); }
  }

  lemma {:induction false} CursorStep(r: Room, a: Action, p: Member)
    requires Enabled(r, a) && p in r.nodes && r.nodes[p].cursor <= |r.log|
    ensures var r' := Apply(r, a); p in r'.nodes && r.log <= r'.log && r'.nodes[p].cursor <= |r'.log|
    ensures var r' := Apply(r, a); r'.nodes[p].cursor == r.nodes[p].cursor + if a.p == p && a.Deliver? then 1 else 0
  {
  }

  lemma {:induction false} OnceStep(r: Room, a: Action, p: Member, m: Member, q: nat)
    requires Enabled(r, a) && m != p && OnceInCall(r, p, m, q) && !(QueuesNow(r, a, p, m) && q > 0)
    requires r.nodes[p].alive && !r.nodes[p].attached ==> q == 0
    ensures OnceInCall(Apply(r, a), p, m, CountStep(r, a, p, m, q))
  {
    CursorStep(r, a, p);
    var r', n := Apply(r, a), r.nodes[p];
    if a.p == p && a.Deliver? {
      OnceHears(r, a, p, m, q);
      assert r'.log[..n.cursor + 1] == r.log[..n.cursor + 1];
    } else {
      OnceOther(r, a, p, m, q);
      assert r'.log[..n.cursor] == r.log[..n.cursor];
    }
  }

  /** A member that is never queued when it is queued already gets no session once it is heard to
      depart. */
  lemma {:induction false} NoneToDeparted(ps: set<Member>, acts: seq<Action>, p: Member, m: Member)
    requires p in ps && m != p && !QueuedAgain(ps, acts, p, m)
    ensures OnceInCall(Run(ps, acts), p, m, Queued(ps, acts, p, m))
    decreases |acts|
  {
    if acts != [] {
      var front, a := acts[..|acts| - 1], acts[|acts| - 1];
      NoneToDeparted(ps, front, p, m);
      RunCounts(ps, front, p, m);
      if Enabled(Run(ps, front), a) { OnceStep(Run(ps, front), a, p, m, Queued(ps, front, p, m)); }
    }
  }

  // ---- A run ----

  const PubTree := Some(Tree(false, []))
  const Pub := FreshChan.(state := Stable, muji := PubTree, sent := [Presence(PrepTree), Presence(PubTree)])
  const GoneChan := FreshChan.(state := Stable, muji := PubTree, sent := [Presence(PrepTree), Presence(PubTree), Unavailable])
  const ZeroLog := [Entry(0, Presence(PrepTree)), Entry(0, Presence(PubTree)), Entry(0, Unavailable)]
  const Gone := Node(GoneChan, [0, 1, 2], 1, true, false)

  /** Member 0 prepares. */
  lemma {:induction false} ZeroPrepares() returns (acts: seq<Action>)
    ensures Run({0, 1}, acts) == Room([Entry(0, Presence(PrepTree))], map[0 := PrepSent.(pos := [0]), 1 := Joined])
  {
    var ps: set<Member> := {0, 1};
    var idle := Node(FreshChan, [], 0, false, true);
    acts := [];
    assert Run(ps, acts) == Room([], map[0 := idle, 1 := idle]);
    RunSnoc(ps, acts, Attach(0, []));
    acts := acts + [Attach(0, [])];
    assert Run(ps, acts) == Room([], map[0 := Joined, 1 := idle]);
    RunSnoc(ps, acts, Attach(1, []));
    acts := acts + [Attach(1, [])];
    assert Run(ps, acts) == Room([], map[0 := Joined, 1 := Joined]);
    assert Accept(FreshChan, true) == PrepSent.chan;
    RunSnoc(ps, acts, UserAccept(0, true));
    acts := acts + [UserAccept(0, true)];
    assert Run(ps, acts) == Room([], map[0 := PrepSent, 1 := Joined]);
    RunSnoc(ps, acts, Order(0));
    acts := acts + [Order(0)];
    var none: seq<Entry> := [];
    assert none + [Entry(0, Presence(PrepTree))] == [Entry(0, Presence(PrepTree))];
    assert [] + [0] == [0];
  }

  lemma {:induction false} ZeroHears()
    ensures Hear(PrepSent.chan, 0, 0, Presence(PrepTree), []) == Pub
  {
    assert [Presence(PrepTree)] + [Presence(PubTree)] == [Presence(PrepTree), Presence(PubTree)];
  }

  /** ... publishes and vanishes. */
  lemma {:induction false} ZeroLeaves() returns (acts: seq<Action>)
    ensures Run({0, 1}, acts) == Room(ZeroLog, map[0 := Gone, 1 := Joined])
  {
    var ps: set<Member> := {0, 1};
    acts := ZeroPrepares();
    ZeroHears();
    RunSnoc(ps, acts, Deliver(0, []));
    acts := acts + [Deliver(0, [])];
    var log := [Entry(0, Presence(PrepTree))];
    assert Run(ps, acts) == Room(log, map[0 := Node(Pub, [0], 1, true, true), 1 := Joined]);
    RunSnoc(ps, acts, Order(0));
    acts := acts + [Order(0)];
    assert [0] + [1] == [0, 1];
    assert log + [Entry(0, Presence(PubTree))] == ZeroLog[..2];
    assert Run(ps, acts) == Room(ZeroLog[..2], map[0 := Node(Pub, [0, 1], 1, true, true), 1 := Joined]);
    RunSnoc(ps, acts, Vanish(0));
    acts := acts + [Vanish(0)];
    assert ZeroLog[..2] + [Entry(0, Unavailable)] == ZeroLog && [0, 1] + [2] == [0, 1, 2];
    assert Pub.sent[..2] + [Unavailable] == GoneChan.sent;
  }

  /** ... member 1, which hears of all this before it prepares, has 0 in its queue. */
  lemma {:induction false} OneHears()
    ensures var c1 := Hear(FreshChan, 1, 0, Presence(PrepTree), []);
            var c2 := Hear(c1, 1, 0, Presence(PubTree), []);
            Hear(c2, 1, 0, Unavailable, []) == FreshChan.(sessionsToOpen := [0])
  {
    var c1 := Hear(FreshChan, 1, 0, Presence(PrepTree), []);
    assert [] + [0] == [0] && [0] + [0] == [0, 0];
    assert c1 == FreshChan.(members := {0}, sessionsToOpen := [0], before := [0]);
    var c2 := Hear(c1, 1, 0, Presence(PubTree), []);
    assert RemoveFirst([0], 0) == [] && RemoveFirst([0, 0], 0) == [0];
    assert c2 == FreshChan.(members := {0}, sessionsToOpen := [0, 0]);
  }

  const Queue0 := FreshChan.(sessionsToOpen := [0])

  lemma {:induction false} OneHasHeard() returns (acts: seq<Action>)
    ensures Run({0, 1}, acts) == Room(ZeroLog, map[0 := Gone, 1 := Node(Queue0, [], 3, true, true)])
  {
    var ps: set<Member> := {0, 1};
    acts := ZeroLeaves();
    OneHears();
    var c1 := Hear(FreshChan, 1, 0, Presence(PrepTree), []);
    var c2 := Hear(c1, 1, 0, Presence(PubTree), []);
    RunSnoc(ps, acts, Deliver(1, []));
    acts := acts + [Deliver(1, [])];
    assert Run(ps, acts) == Room(ZeroLog, map[0 := Gone, 1 := Node(c1, [], 1, true, true)]);
    RunSnoc(ps, acts, Deliver(1, []));
    acts := acts + [Deliver(1, [])];
    assert Run(ps, acts) == Room(ZeroLog, map[0 := Gone, 1 := Node(c2, [], 2, true, true)]);
    RunSnoc(ps, acts, Deliver(1, []));
    acts := acts + [Deliver(1, [])];
  }

  const Prep1 := Queue0.(state := PreparingSent, muji := PrepTree, sent := [Presence(PrepTree)])
  const Pub1 := Queue0.(state := Stable, muji := PubTree, sent := [Presence(PrepTree), Presence(PubTree)])

  lemma {:induction false} OneSteps()
    ensures Accept(Queue0, true) == Prep1
    ensures Hear(Prep1, 1, 1, Presence(PrepTree), []) == Pub1
    ensures Hear(Pub1, 1, 1, Presence(PubTree), []).openedTo == [0]
  {
    assert [Presence(PrepTree)] + [Presence(PubTree)] == [Presence(PrepTree), Presence(PubTree)];
    assert [] + [0] == [0];
  }

  /** ... takes its turn ... */
  lemma {:induction false} OnePublishes() returns (acts: seq<Action>)
    ensures Run({0, 1}, acts)
            == Room(ZeroLog + [Entry(1, Presence(PrepTree))], map[0 := Gone, 1 := Node(Pub1, [3], 4, true, true)])
  {
    var ps: set<Member> := {0, 1};
    acts := OneHasHeard();
    OneSteps();
    RunSnoc(ps, acts, UserAccept(1, true));
    acts := acts + [UserAccept(1, true)];
    assert Run(ps, acts) == Room(ZeroLog, map[0 := Gone, 1 := Node(Prep1, [], 3, true, true)]);
    RunSnoc(ps, acts, Order(1));
    acts := acts + [Order(1)];
    assert [] + [3] == [3];
    assert Run(ps, acts)
           == Room(ZeroLog + [Entry(1, Presence(PrepTree))], map[0 := Gone, 1 := Node(Prep1, [3], 3, true, true)]);
    RunSnoc(ps, acts, Deliver(1, []));
    acts := acts + [Deliver(1, [])];
  }

  /** ... and opens a session to 0, which it has heard to depart. */
  lemma {:induction false} DepartedOpened() returns (acts: seq<Action>)
    ensures var r := Run({0, 1}, acts);
            && 1 in r.nodes && r.nodes[1].cursor <= |r.log| && r.nodes[1].chan.openedTo == [0]
            && !InCall(r.log[..r.nodes[1].cursor], 0)
  {
    var ps: set<Member> := {0, 1};
    acts := OnePublishes();
    OneSteps();
    var log := ZeroLog + [Entry(1, Presence(PrepTree))] + [Entry(1, Presence(PubTree))];
    RunSnoc(ps, acts, Order(1));
    acts := acts + [Order(1)];
    assert [3] + [4] == [3, 4];
    assert Run(ps, acts) == Room(log, map[0 := Gone, 1 := Node(Pub1, [3, 4], 4, true, true)]);
    RunSnoc(ps, acts, Deliver(1, []));
    acts := acts + [Deliver(1, [])];
    var r := Run(ps, acts);
    assert r.log[..5] == log && r.nodes[1].cursor == 5;
    assert LastIdx(log, 0) == 2 by { assert log[2].who == 0 && log[3].who == 1 && log[4].who == 1; }
  }
}
