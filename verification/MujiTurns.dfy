/** Turn order and progress of a Muji conference, over every sequence of actions. */
module MujiTurns {
  import opened Common
  import opened MujiSpec
  import opened MujiRoom
  import opened MujiInvariant

  lemma {:induction false} MujiPrefix(n: Node, j: nat, k: nat)
    requires Shape(n) && j <= k < |n.chan.sent| && IsMuji(n.chan.sent[k])
    ensures IsMuji(n.chan.sent[j])
    decreases k
  {
    if j < k {
      assert ShapeAt(n, k);
      MujiPrefix(n, j, k - 1);
    }
  }

  /** If `p` was preparing when `q`'s preparation was ordered, then no new state of `q` appears in
      the room order before `p`'s next word, which is a publication or a departure. */
  lemma {:induction false} TurnOrder(ps: set<Member>, acts: seq<Action>, p: Member, q: Member, i: nat, j: nat, k: nat)
    requires p != q && i < j < k < |Run(ps, acts).log|
    requires var log := Run(ps, acts).log;
             && log[i].who == p && IsPreparing(log[i].note)
             && log[j].who == q && IsPreparing(log[j].note)
             && log[k].who == q && IsPublished(log[k].note)
             && (forall x :: i < x < j ==> log[x].who != p)
    ensures var log := Run(ps, acts).log;
            exists l :: j < l < k && log[l].who == p && !IsPreparing(log[l].note)
                     && forall x :: i < x < l ==> log[x].who != p
  {
    RunKeeps(ps, acts);
    var r := Run(ps, acts);
    StillPending(r.log, p, i, j);
    var l' := YieldedTo(r.log, q, r.nodes[q], p, j, k);
    var l := NextWord(r.log, p, r.nodes[p], i, l');
    assert l > j;
  }

  lemma StillPending(log: seq<Entry>, p: Member, i: nat, j: nat)
    requires i < j <= |log| && log[i].who == p && IsPreparing(log[i].note) && forall x :: i < x < j ==> log[x].who != p
    ensures Pending(log[..j], p)
  {
    assert LastIdx(log[..j], p) == i by { assert log[..j][i].who == p; }
  }

  lemma YieldedTo(log: seq<Entry>, q: Member, n: Node, p: Member, j: nat, k: nat) returns (l: nat)
    requires NodeInv(log, q, n) && p != q && j < k < |log| && Pending(log[..j], p)
    requires log[j].who == q && IsPreparing(log[j].note) && log[k].who == q && IsPublished(log[k].note)
    ensures j < l < k && log[l].who == p
  {
    var a :| 0 <= a < |n.pos| && n.pos[a] == j;
    var b :| 0 <= b < |n.pos| && n.pos[b] == k;
    assert a < b;
    MujiPrefix(n, a + 1, b);
    assert ShapeAt(n, a + 1);
    assert Between(log, j, n.pos[a + 1], p);
    l :| 0 <= l < |log| && j < l < n.pos[a + 1] && log[l].who == p;
  }

  lemma NextWord(log: seq<Entry>, p: Member, n: Node, i: nat, l': nat) returns (l: nat)
    requires NodeInv(log, p, n) && i < l' < |log| && log[i].who == p && IsPreparing(log[i].note) && log[l'].who == p
    ensures i < l <= l' && log[l].who == p && !IsPreparing(log[l].note)
    ensures forall x :: i < x < l ==> log[x].who != p
  {
    var a :| 0 <= a < |n.pos| && n.pos[a] == i;
    var b :| 0 <= b < |n.pos| && n.pos[b] == l';
    assert a < b;
    assert ShapeAt(n, a + 1);
    l := n.pos[a + 1];
  }

  // ---- Progress ----

  ghost predicate Waiting(n: Node) {
    n.alive && n.attached && n.chan.state == WaitForTurn
  }

  /** Waiting for nobody. */
  ghost predicate Orphaned(n: Node) {
    Waiting(n) && n.chan.before == []
  }

  /** Every presence sent has been ordered and delivered to everyone. */
  ghost predicate Quiescent(r: Room) {
    forall p :: p in r.nodes && r.nodes[p].alive ==>
      r.nodes[p].cursor == |r.log| && |r.nodes[p].pos| == |r.nodes[p].chan.sent|
  }

  /** In a quiescent room, whoever is ahead of a waiting participant is itself waiting, and
      announced its preparation earlier. */
  lemma AheadIsWaiting(log: seq<Entry>, w: Member, n: Node, m: Member, k: Node)
    requires NodeInv(log, w, n) && Waiting(n) && n.cursor == |log| && m in n.chan.before
    requires NodeInv(log, m, k) && (k.alive ==> k.cursor == |log| && |k.pos| == |k.chan.sent|)
    ensures Waiting(k) && k.pos != [] && n.pos != [] && k.pos[|k.pos| - 1] < n.pos[|n.pos| - 1]
  {
    assert log[..n.cursor] == log;
    assert Pending(log, m);
    var i := LastIdx(log, m);
    assert i in k.pos;
    var last := |k.pos| - 1;
    assert i == k.pos[last] by { assert log[k.pos[last]].who == m; }
    assert IsPreparing(k.chan.sent[last]);
    assert k.alive && k.attached;
    assert Echoed(k, last);
  }

  /** Following the queue of a waiting participant to whoever announced first ends at an orphan. */
  lemma {:induction false} WaiterLeadsToOrphan(r: Room, w: Member)
    requires Inv(r) && Quiescent(r) && w in r.nodes && Waiting(r.nodes[w])
    ensures exists v :: v in r.nodes && Orphaned(r.nodes[v])
    decreases r.nodes[w].pos[|r.nodes[w].pos| - 1]
  {
    var n := r.nodes[w];
    if n.chan.before != [] {
      var m := n.chan.before[0];
      assert m in n.chan.before && Pending(r.log[..n.cursor], m);
      assert r.log[LastIdx(r.log[..n.cursor], m)].who == m;
      AheadIsWaiting(r.log, w, n, m, r.nodes[m]);
      WaiterLeadsToOrphan(r, m);
    } else {
      assert Orphaned(n);
    }
  }

  /** Once everything sent has been delivered, somebody waits exactly if somebody is orphaned. */
  lemma {:induction false} ProgressUnlessOrphaned(ps: set<Member>, acts: seq<Action>)
    requires Quiescent(Run(ps, acts))
    ensures var r := Run(ps, acts);
            (exists w :: w in r.nodes && Waiting(r.nodes[w])) <==> (exists v :: v in r.nodes && Orphaned(r.nodes[v]))
  {
    RunKeeps(ps, acts);
    var r := Run(ps, acts);
    forall w | w in r.nodes && Waiting(r.nodes[w]) ensures exists v :: v in r.nodes && Orphaned(r.nodes[v]) {
      WaiterLeadsToOrphan(r, w);
    }
    assert forall v :: v in r.nodes && Orphaned(r.nodes[v]) ==> Waiting(r.nodes[v]);
  }

  /** A delivery orphans a participant exactly when it is the departure of the one member it was
      still waiting for: that branch does not look at the queue again. */
  lemma {:induction false} OrphanedExactly(log: seq<Entry>, p: Member, n: Node, n0: Node, contents: seq<nat>)
    requires NodeInv(log, p, n) && n.alive && n.attached && n.cursor < |log| && !Orphaned(n)
    requires NodeInv(log, log[n.cursor].who, n0)
    ensures Orphaned(HearNext(log, p, n, contents)) <==>
            && n.chan.state == WaitForTurn
            && IsDeparture(log[n.cursor].note)
            && n.chan.before == [log[n.cursor].who]
  {
    var e := log[n.cursor];
    if e.who == p {
      assert p !in n.chan.before || n.chan.state == Left;
      assert n.chan.before == [p] ==> p in n.chan.before;
    } else {
      HearSplits(n.chan, p, e.who, e.note, contents);
      if n.chan.state == WaitForTurn && IsDeparture(e.note) {
        RemoveToEmpty(n.chan.before, e.who);
        assert e.who in n.chan.before ==> Pending(log[..n.cursor], e.who) && e.who in n.chan.members;
      }
    }
  }

  lemma RemoveToEmpty(q: seq<Member>, x: Member)
    ensures RemoveFirst(q, x) == [] <==> q == [] || q == [x]
  {
  }

  /** Nobody has left the call or the room, nor sent word of it. */
  // ---- How long an orphan waits ----

  /** What takes an orphan out of WAIT_FOR_TURN: it leaves, or it is handed a publication of another
      member. */
  ghost predicate Wakes(r: Room, a: Action, w: Member) {
    && Enabled(r, a) && a.p == w
    && match a
       case Hangup(_) => true
       case Vanish(_) => true
       case Deliver(_, _) =>
         var e := r.log[r.nodes[w].cursor];
         e.who != w && IsPublished(e.note)
       case _ => false
  }

  lemma {:induction false} OrphanHears(log: seq<Entry>, w: Member, n: Node, contents: seq<nat>)
    requires Orphaned(n) && n.cursor < |log|
    ensures Orphaned(HearNext(log, w, n, contents)) <==> !(log[n.cursor].who != w && IsPublished(log[n.cursor].note))
  {
    RemoveToEmpty(n.chan.before, log[n.cursor].who);
  }

  lemma {:induction false} OrphanStep(r: Room, a: Action, w: Member)
    requires w in r.nodes && Orphaned(r.nodes[w])
    ensures w in Step(r, a).nodes && (Orphaned(Step(r, a).nodes[w]) <==> !Wakes(r, a, w))
  {
    if Enabled(r, a) {
      var r' := Framed(r, a);
      if a.p == w && a.Deliver? { OrphanHears(r.log, w, r.nodes[w], a.contents); }
    }
  }

  /** `w` is an orphan all the time that `more` happens. */
  ghost predicate StaysOrphaned(ps: set<Member>, acts: seq<Action>, more: seq<Action>, w: Member) {
    forall n :: 0 <= n <= |more| ==> OrphanedAfter(ps, acts + more[..n], w)
  }

  ghost predicate OrphanedAfter(ps: set<Member>, acts: seq<Action>, w: Member) {
    w in Run(ps, acts).nodes && Orphaned(Run(ps, acts).nodes[w])
  }

  /** No action of `more` wakes `w`. */
  ghost predicate Undisturbed(ps: set<Member>, acts: seq<Action>, more: seq<Action>, w: Member) {
    forall n :: 0 <= n < |more| ==> !Wakes(Run(ps, acts + more[..n]), more[n], w)
  }

  lemma {:induction false} NextOrphaned(ps: set<Member>, acts: seq<Action>, more: seq<Action>, w: Member, n: nat)
    requires n < |more| && OrphanedAfter(ps, acts + more[..n], w)
    ensures OrphanedAfter(ps, acts + more[..n + 1], w) <==> !Wakes(Run(ps, acts + more[..n]), more[n], w)
  {
    assert acts + more[..n + 1] == acts + more[..n] + [more[n]];
    RunSnoc(ps, acts + more[..n], more[n]);
    OrphanStep(Run(ps, acts + more[..n]), more[n], w);
  }

  lemma {:induction false} OrphanedUpTo(ps: set<Member>, acts: seq<Action>, more: seq<Action>, w: Member, n: nat)
    requires OrphanedAfter(ps, acts, w) && Undisturbed(ps, acts, more, w) && n <= |more|
    ensures OrphanedAfter(ps, acts + more[..n], w)
  {
    if n == 0 {
      assert acts + more[..0] == acts;
    } else {
      OrphanedUpTo(ps, acts, more, w, n - 1);
      NextOrphaned(ps, acts, more, w, n - 1);
    }
  }

  /** An orphan goes on waiting if and only if it does not leave and is handed no publication of
      another member. */
  lemma {:induction false} OrphanWaitsIff(ps: set<Member>, acts: seq<Action>, more: seq<Action>, w: Member)
    requires OrphanedAfter(ps, acts, w)
    ensures StaysOrphaned(ps, acts, more, w) <==> Undisturbed(ps, acts, more, w)
  {
    if Undisturbed(ps, acts, more, w) {
      forall n | 0 <= n <= |more| ensures OrphanedAfter(ps, acts + more[..n], w) {
        OrphanedUpTo(ps, acts, more, w, n);
      }
    } else {
      var n :| 0 <= n < |more| && Wakes(Run(ps, acts + more[..n]), more[n], w);
      if OrphanedAfter(ps, acts + more[..n], w) { NextOrphaned(ps, acts, more, w, n); }
      assert !OrphanedAfter(ps, acts + more[..n], w) || !OrphanedAfter(ps, acts + more[..n + 1], w);
    }
  }

  /** An orphan that has outlived all others, and has heard everything they said. */
  ghost predicate Alone(r: Room, w: Member) {
    && w in r.nodes && Orphaned(r.nodes[w])
    && (forall p :: p in r.nodes && p != w ==> !r.nodes[p].alive)
    && (forall i :: r.nodes[w].cursor <= i < |r.log| ==> r.log[i].who == w)
  }

  lemma {:induction false} AloneStep(r: Room, a: Action, w: Member)
    requires Alone(r, w) && a != Hangup(w) && a != Vanish(w)
    ensures Alone(Step(r, a), w)
  {
    OrphanStep(r, a, w);
    if Enabled(r, a) { var r' := Framed(r, a); }
  }

  /** It waits for ever, unless it leaves. */
  lemma {:induction false} AloneForEver(ps: set<Member>, acts: seq<Action>, more: seq<Action>, w: Member)
    requires Alone(Run(ps, acts), w) && Hangup(w) !in more && Vanish(w) !in more
    ensures Alone(Run(ps, acts + more), w)
    decreases |more|
  {
    if more == [] {
      assert acts + more == acts;
    } else {
      var front, a := more[..|more| - 1], more[|more| - 1];
      AloneForEver(ps, acts, front, w);
      assert acts + more == acts + front + [a];
      RunSnoc(ps, acts + front, a);
      AloneStep(Run(ps, acts + front), a, w);
    }
  }

  ghost predicate NoDepartures(r: Room) {
    forall p :: p in r.nodes ==> StaysIn(r.nodes[p])
  }

  ghost predicate StaysIn(n: Node) {
    forall k :: 0 <= k < |n.chan.sent| ==> IsMuji(n.chan.sent[k])
  }

  lemma NodeStaysIn(r: Room, a: Action, p: Member)
    requires Inv(r) && p in r.nodes && p in Step(r, a).nodes && StaysIn(Step(r, a).nodes[p])
    ensures StaysIn(r.nodes[p])
  {
    var n, n' := r.nodes[p], Step(r, a).nodes[p];
    if Enabled(r, a) && a.p == p {
      if a.Vanish? {
        assert n'.chan.sent[|n.pos|] == Unavailable;
      } else {
        SentGrows(r, a);
        forall k | 0 <= k < |n.chan.sent| ensures IsMuji(n.chan.sent[k]) {
          assert n'.chan.sent[k] == n.chan.sent[k];
        }
      }
    }
  }

  /** Without departures the room log holds nothing but Muji presences. */
  lemma LogIsMuji(r: Room, i: nat)
    requires Inv(r) && NoDepartures(r) && i < |r.log|
    ensures IsMuji(r.log[i].note)
  {
    var n := r.nodes[r.log[i].who];
    assert StaysIn(n) && i in n.pos;
    var k :| 0 <= k < |n.pos| && n.pos[k] == i;
    assert IsMuji(n.chan.sent[k]);
  }

  lemma StaysInStep(r: Room, a: Action)
    requires Inv(r) && NoDepartures(Step(r, a))
    ensures NoDepartures(r)
    ensures forall i :: 0 <= i < |r.log| ==> IsMuji(r.log[i].note)
  {
    forall p | p in r.nodes ensures StaysIn(r.nodes[p]) { NodeStaysIn(r, a, p); }
    forall i | 0 <= i < |r.log| ensures IsMuji(r.log[i].note) { LogIsMuji(r, i); }
  }

  lemma HearSentGrows(c: Chan, p: Member, who: Member, note: Note, contents: seq<nat>)
    ensures c.sent <= Hear(c, p, who, note, contents).sent
  {
  }

  lemma SentGrows(r: Room, a: Action)
    requires Inv(r) && Enabled(r, a) && !a.Vanish?
    ensures r.nodes[a.p].chan.sent <= Apply(r, a).nodes[a.p].chan.sent
  {
    var n := r.nodes[a.p];
    match a {
      case Attach(_, known) => SnapshotEffect(known);
      case Deliver(p, contents) => HearSentGrows(n.chan, p, r.log[n.cursor].who, r.log[n.cursor].note, contents);
      case _ =>
    }
  }

  /** Without departures no participant is ever orphaned. */
  lemma {:induction false} NoOrphans(ps: set<Member>, acts: seq<Action>)
    requires NoDepartures(Run(ps, acts))
    ensures forall p :: p in Run(ps, acts).nodes ==> !Orphaned(Run(ps, acts).nodes[p])
  {
    if acts != [] {
      var r, a := Run(ps, acts[..|acts| - 1]), acts[|acts| - 1];
      RunKeeps(ps, acts[..|acts| - 1]);
      StaysInStep(r, a);
      NoOrphans(ps, acts[..|acts| - 1]);
      if Enabled(r, a) {
        NoOrphanStep(r, a);
      }
    }
  }

  lemma NoOrphanStep(r: Room, a: Action)
    requires Inv(r) && Enabled(r, a) && !Orphaned(r.nodes[a.p])
    requires forall i :: 0 <= i < |r.log| ==> IsMuji(r.log[i].note)
    ensures !Orphaned(Apply(r, a).nodes[a.p])
  {
    var n := r.nodes[a.p];
    match a {
      case Attach(_, known) => SnapshotEffect(known);
      case Deliver(p, contents) =>
        if n.attached {
          OrphanedExactly(r.log, p, n, r.nodes[r.log[n.cursor].who], contents);
        }
      case _ =>
    }
  }

  /** Progress: without departures, when everything sent has been delivered to everyone, no
      participant is left waiting for its turn. */
  lemma {:induction false} Progress(ps: set<Member>, acts: seq<Action>)
    requires Quiescent(Run(ps, acts)) && NoDepartures(Run(ps, acts))
    ensures forall w :: w in Run(ps, acts).nodes ==> !Waiting(Run(ps, acts).nodes[w])
  {
    NoOrphans(ps, acts);
    ProgressUnlessOrphaned(ps, acts);
  }

  lemma RunSnoc(ps: set<Member>, acts: seq<Action>, a: Action)
    ensures Run(ps, acts + [a]) == Step(Run(ps, acts), a)
  {
    assert (acts + [a])[..|acts|] == acts;
  }

  const PrepTree := Some(Tree(true, []))
  const Joined := Node(FreshChan, [], 0, true, true)
  const PrepSent := Joined.(chan := FreshChan.(state := PreparingSent, muji := PrepTree, sent := [Presence(PrepTree)]))

  /** Members 0 and 1 both join and announce their preparation. */
  lemma BothPreparing() returns (acts: seq<Action>)
    ensures Run({0, 1}, acts) == Room([], map[0 := PrepSent, 1 := PrepSent])
  {
    var ps: set<Member> := {0, 1};
    var idle := Node(FreshChan, [], 0, false, true);
    acts := [];
    assert Run(ps, acts) == Room([], map[0 := idle, 1 := idle]);
    RunSnoc(ps, acts, Attach(0, []));
    acts := acts + [Attach(0, [])];
    assert Run(ps, acts) == Room([], map[0 := Joined, 1 := idle]);
    RunSnoc(ps, acts, Attach(1, []));
    acts := acts + [Attach(1, [])];
    assert Run(ps, acts) == Room([], map[0 := Joined, 1 := Joined]);
    assert Accept(FreshChan, true) == PrepSent.chan;
    RunSnoc(ps, acts, UserAccept(0, true));
    acts := acts + [UserAccept(0, true)];
    assert Run(ps, acts) == Room([], map[0 := PrepSent, 1 := Joined]);
    RunSnoc(ps, acts, UserAccept(1, true));
    acts := acts + [UserAccept(1, true)];
  }

  const PrepLog := [Entry(0, Presence(PrepTree)), Entry(1, Presence(PrepTree))]

  /** ... the room orders 0 before 1 ... */
  lemma ZeroBeforeOne() returns (acts: seq<Action>)
    ensures Run({0, 1}, acts) == Room(PrepLog, map[0 := PrepSent.(pos := [0]), 1 := PrepSent.(pos := [1])])
  {
    var ps: set<Member> := {0, 1};
    var note := Presence(PrepTree);
    acts := BothPreparing();
    RunSnoc(ps, acts, Order(0));
    acts := acts + [Order(0)];
    var none: seq<nat> := [];
    assert none + [0] == [0] && none + [1] == [1];
    var log: seq<Entry> := [];
    assert log + [Entry(0, note)] == [Entry(0, note)];
    log := [Entry(0, note)];
    assert Run(ps, acts) == Room(log, map[0 := PrepSent.(pos := [0]), 1 := PrepSent]);
    RunSnoc(ps, acts, Order(1));
    acts := acts + [Order(1)];
    assert log + [Entry(1, note)] == PrepLog;
  }

  const WaitsForZero := PrepSent.chan.(members := {0}, sessionsToOpen := [0], before := [0], state := WaitForTurn)

  lemma HearBoth()
    ensures Hear(PrepSent.chan, 1, 0, Presence(PrepTree), []) == WaitsForZero.(state := PreparingSent)
    ensures Hear(WaitsForZero.(state := PreparingSent), 1, 1, Presence(PrepTree), []) == WaitsForZero
  {
    assert PrepSent.chan.members + {0} == {0};
    var none: seq<nat> := [];
    assert none + [0] == [0];
  }

  /** ... and 1 hears both. */
  lemma OneWaitsForZero() returns (acts: seq<Action>)
    ensures Run({0, 1}, acts) ==
            Room(PrepLog, map[0 := PrepSent.(pos := [0]), 1 := Node(WaitsForZero, [1], 2, true, true)])
  {
    var ps: set<Member> := {0, 1};
    acts := ZeroBeforeOne();
    HearBoth();
    RunSnoc(ps, acts, Deliver(1, []));
    acts := acts + [Deliver(1, [])];
    assert Run(ps, acts) ==
           Room(PrepLog, map[0 := PrepSent.(pos := [0]), 1 := Node(WaitsForZero.(state := PreparingSent), [1], 1, true, true)]);
    RunSnoc(ps, acts, Deliver(1, []));
    acts := acts + [Deliver(1, [])];
  }

  /** ... 0 drops out of the room, and 1 hears of it. */
  lemma {:induction false} ZeroVanishes() returns (acts: seq<Action>)
    ensures Quiescent(Run({0, 1}, acts)) && Alone(Run({0, 1}, acts), 1)
  {
    var ps: set<Member> := {0, 1};
    acts := OneWaitsForZero();
    var r := Run(ps, acts);
    RunSnoc(ps, acts, Vanish(0));
    acts := acts + [Vanish(0)];
    var r' := Run(ps, acts);
    assert r' == Apply(r, Vanish(0));
    assert r'.log[2] == Entry(0, Unavailable) && r'.nodes[1] == r.nodes[1] && !r'.nodes[0].alive;
    RunSnoc(ps, acts, Deliver(1, []));
    acts := acts + [Deliver(1, [])];
  }

  /** With a departure progress fails: member 1 waits for member 0 only, member 0 drops out of the
      room, and member 1 is left waiting although nothing is on its way any more, whatever happens from
      then on, until it leaves. */
  lemma {:induction false} StuckAfterDeparture() returns (acts: seq<Action>)
    ensures Quiescent(Run({0, 1}, acts))
    ensures forall more :: Hangup(1) !in more && Vanish(1) !in more ==> OrphanedAfter({0, 1}, acts + more, 1)
  {
    acts := ZeroVanishes();
    forall more | Hangup(1) !in more && Vanish(1) !in more ensures OrphanedAfter({0, 1}, acts + more, 1) {
      AloneForEver({0, 1}, acts, more, 1);
    }
  }
}
