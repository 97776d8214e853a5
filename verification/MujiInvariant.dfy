/** The inductive invariant of a conference, and its preservation by every action. */
module MujiInvariant {
  import opened Common
  import opened MujiSpec
  import opened MujiRoom

  /** `pos` is exactly where the participant's notes stand in the room order. */
  ghost predicate Placed(log: seq<Entry>, p: Member, n: Node) {
    && n.cursor <= |log|
    && |n.pos| <= |n.chan.sent|
    && (forall k :: 0 <= k < |n.pos| ==> n.pos[k] < |log| && log[n.pos[k]] == Entry(p, n.chan.sent[k]))
    && (forall j, k :: 0 <= j < k < |n.pos| ==> n.pos[j] < n.pos[k])
    && (forall i :: 0 <= i < |log| && log[i].who == p ==> i in n.pos)
  }

  /** The participant has heard its own k-th note back from the room. */
  ghost predicate Echoed(n: Node, k: int) {
    0 <= k < |n.pos| && n.pos[k] < n.cursor
  }

  /** Preparing and published presences alternate, departures come last, and nothing is published
      before the echo of the preparation. */
  ghost predicate ShapeAt(n: Node, k: int)
    requires 0 <= k < |n.chan.sent|
  {
    IsMuji(n.chan.sent[k]) ==>
      && (k > 0 ==> IsMuji(n.chan.sent[k - 1]))
      && (IsPublished(n.chan.sent[k]) <==> k > 0 && IsPreparing(n.chan.sent[k - 1]))
      && (IsPublished(n.chan.sent[k]) ==> Echoed(n, k - 1))
  }

  ghost predicate Shape(n: Node) {
    forall k :: 0 <= k < |n.chan.sent| ==> ShapeAt(n, k)
  }

  /** How the channel's state, its `<muji>` tree and the presences it sent fit together. */
  ghost predicate Phase(n: Node) {
    var c := n.chan;
    var last := |c.sent| - 1;
    if c.state == NotJoined || c.state == Preparing then c.sent == [] && c.muji == None
    else
      && c.sent != []
      && c.sent[last] == Presence(c.muji)
      && (c.state == PreparingSent ==> IsPreparing(c.sent[last]) && !Echoed(n, last))
      && (c.state == WaitForTurn ==> IsPreparing(c.sent[last]) && Echoed(n, last))
      && (c.state == Stable ==> IsPublished(c.sent[last]))
      && (c.state == Left ==> c.muji == None)
  }

  /** The two queues hold exactly the others that are preparing; while waiting, `before` those that
      announced it ahead of us and `after` those that did so later. */
  ghost predicate QueuesOk(seen: seq<Entry>, p: Member, n: Node) {
    var c := n.chan;
    && Distinct(c.before)
    && Distinct(c.after)
    && (forall m :: m in c.members <==> m != p && InCall(seen, m))
    && (forall m :: (m in c.before || m in c.after) <==> m != p && Pending(seen, m))
    && (c.state != WaitForTurn ==> c.after == [])
    && (c.state == WaitForTurn && n.pos != [] ==>
          var mine := n.pos[|n.pos| - 1];
          && (forall m :: m in c.before ==> LastIdx(seen, m) < mine)
          && (forall m :: m in c.after ==> LastIdx(seen, m) > mine))
  }

  /** The room said something about `m` strictly between positions `lo` and `hi`. */
  ghost predicate Between(log: seq<Entry>, lo: int, hi: int, m: Member) {
    exists l :: 0 <= l < |log| && lo < l < hi && log[l].who == m
  }

  /** Everyone who was preparing at position `lo` has been heard of again by position `hi`. */
  ghost predicate Yielded(log: seq<Entry>, p: Member, lo: nat, hi: nat) {
    lo <= |log| && forall m :: m != p && Pending(log[..lo], m) ==> Between(log, lo, hi, m)
  }

  /** Where the participant's k-th note stands, or the end of the order if it is not placed yet. */
  ghost function PlaceOf(log: seq<Entry>, n: Node, k: nat): nat {
    if k < |n.pos| then n.pos[k] else |log|
  }

  /** Every publication waited for everyone who was preparing when its own preparation was ordered. */
  ghost predicate Justified(log: seq<Entry>, p: Member, n: Node) {
    forall k :: 0 < k < |n.chan.sent| && IsPublished(n.chan.sent[k]) && k <= |n.pos| ==>
      Yielded(log, p, n.pos[k - 1], PlaceOf(log, n, k))
  }

  ghost predicate NodeInv(log: seq<Entry>, p: Member, n: Node) {
    && Placed(log, p, n)
    && Shape(n)
    && Justified(log, p, n)
    && (!n.alive ==> n.pos != [] && |n.pos| == |n.chan.sent| && n.chan.sent[|n.pos| - 1] == Unavailable)
    && (n.alive && !n.attached ==> n.chan == FreshChan)
    && (n.alive && n.attached ==> Phase(n))
    && (n.alive && n.attached && n.chan.state != Left ==> QueuesOk(log[..n.cursor], p, n))
  }

  ghost predicate Inv(r: Room) {
    && (forall p :: p in r.nodes ==> NodeInv(r.log, p, r.nodes[p]))
    && (forall i :: 0 <= i < |r.log| ==> r.log[i].who in r.nodes)
  }

  lemma SeenStep(log: seq<Entry>, c: nat, m: Member)
    requires c < |log|
    ensures LastIdx(log[..c + 1], m) == if log[c].who == m then c else LastIdx(log[..c], m)
    ensures InCall(log[..c + 1], m) == if log[c].who == m then IsMuji(log[c].note) else InCall(log[..c], m)
    ensures Pending(log[..c + 1], m) == if log[c].who == m then IsPreparing(log[c].note) else Pending(log[..c], m)
  {
    assert log[..c + 1][..c] == log[..c];
  }

  lemma YieldedGrows(log: seq<Entry>, e: Entry, p: Member, lo: nat, hi: nat, hi': nat)
    requires Yielded(log, p, lo, hi) && hi <= hi'
    ensures Yielded(log + [e], p, lo, hi')
  {
    var log' := log + [e];
    assert log'[..lo] == log[..lo];
    forall m | m != p && Pending(log'[..lo], m)
      ensures Between(log', lo, hi', m)
    {
      assert Between(log, lo, hi, m);
      var l :| 0 <= l < |log| && lo < l < hi && log[l].who == m;
      assert log'[l].who == m;
    }
  }

  /** The justification survives a longer room order, whether or not the next note is our own. */
  lemma JustifiedGrows(log: seq<Entry>, e: Entry, p: Member, n: Node, n': Node)
    requires Placed(log, p, n) && Shape(n) && Justified(log, p, n)
    requires n'.pos == n.pos || n'.pos == n.pos + [|log|]
    requires forall k :: 0 <= k < |n'.chan.sent| && IsPublished(n'.chan.sent[k]) ==>
               k < |n.chan.sent| && n'.chan.sent[k] == n.chan.sent[k]
    ensures Justified(log + [e], p, n')
  {
    var log' := log + [e];
    forall k | 0 < k < |n'.chan.sent| && IsPublished(n'.chan.sent[k]) && k <= |n'.pos|
      ensures Yielded(log', p, n'.pos[k - 1], PlaceOf(log', n', k))
    {
      assert ShapeAt(n, k);
      YieldedGrows(log, e, p, n.pos[k - 1], PlaceOf(log, n, k), PlaceOf(log', n', k));
    }
  }

  /** What others say does not disturb a participant that has not heard it yet. */
  lemma LogGrows(log: seq<Entry>, e: Entry, p: Member, n: Node)
    requires NodeInv(log, p, n) && e.who != p
    ensures NodeInv(log + [e], p, n)
  {
    assert (log + [e])[..n.cursor] == log[..n.cursor];
    JustifiedGrows(log, e, p, n, n);
  }

  /** The shape survives when the notes with a `<muji>` element are a prefix of the old ones. */
  lemma ShapeFrom(n: Node, n': Node, kept: nat)
    requires Shape(n)
    requires forall k :: Echoed(n, k) ==> Echoed(n', k)
    requires kept <= |n.chan.sent| && kept <= |n'.chan.sent| && n'.chan.sent[..kept] == n.chan.sent[..kept]
    requires forall k :: kept <= k < |n'.chan.sent| ==> !IsMuji(n'.chan.sent[k])
    ensures Shape(n')
  {
    assert forall k :: 0 <= k < kept ==> n'.chan.sent[k] == n'.chan.sent[..kept][k] == n.chan.sent[k];
    forall k | 0 <= k < |n'.chan.sent| ensures ShapeAt(n', k) {
      if k < kept {
        assert ShapeAt(n, k);
      }
    }
  }

  lemma PlacedGrows(log: seq<Entry>, p: Member, n: Node, n': Node)
    requires Placed(log, p, n) && n'.cursor == n.cursor && n'.pos == n.pos + [|log|]
    requires |n.pos| < |n'.chan.sent| && n'.chan.sent[..|n.pos|] == n.chan.sent[..|n.pos|]
    ensures Placed(log + [Entry(p, n'.chan.sent[|n.pos|])], p, n')
    ensures forall k :: Echoed(n', k) <==> Echoed(n, k)
  {
    assert forall k :: 0 <= k < |n.pos| ==> n'.chan.sent[k] == n'.chan.sent[..|n.pos|][k] == n.chan.sent[k];
    assert n'.pos[|n.pos|] == |log|;
    assert forall k :: 0 <= k < |n.pos| ==> n'.pos[k] == n.pos[k];
  }

  lemma OrderKeeps(log: seq<Entry>, p: Member, n: Node)
    requires NodeInv(log, p, n) && n.alive && |n.pos| < |n.chan.sent|
    ensures NodeInv(log + [Entry(p, n.chan.sent[|n.pos|])], p, n.(pos := n.pos + [|log|]))
  {
    var e := Entry(p, n.chan.sent[|n.pos|]);
    var n' := n.(pos := n.pos + [|log|]);
    PlacedGrows(log, p, n, n');
    ShapeFrom(n, n', |n.chan.sent|);
    JustifiedGrows(log, e, p, n, n');
    assert (log + [e])[..n.cursor] == log[..n.cursor];
  }

  lemma VanishKeeps(log: seq<Entry>, p: Member, n: Node)
    requires NodeInv(log, p, n)
    ensures NodeInv(log + [Entry(p, Unavailable)], p,
                    n.(alive := false, pos := n.pos + [|log|],
                       chan := n.chan.(sent := n.chan.sent[..|n.pos|] + [Unavailable])))
  {
    var n' := n.(alive := false, pos := n.pos + [|log|],
                 chan := n.chan.(sent := n.chan.sent[..|n.pos|] + [Unavailable]));
    PlacedGrows(log, p, n, n');
    ShapeFrom(n, n', |n.pos|);
    JustifiedGrows(log, Entry(p, Unavailable), p, n, n');
  }

  lemma ShapeExtends(n: Node, n': Node)
    requires Shape(n) && n'.pos == n.pos && n'.cursor == n.cursor
    requires |n'.chan.sent| == |n.chan.sent| + 1 && n.chan.sent <= n'.chan.sent
    requires ShapeAt(n', |n.chan.sent|)
    ensures Shape(n')
  {
    forall k | 0 <= k < |n.chan.sent| ensures ShapeAt(n', k) {
      assert ShapeAt(n, k);
    }
  }

  /** Sending one more note that is not a publication. */
  lemma SendKeeps(log: seq<Entry>, p: Member, n: Node, n': Node)
    requires Placed(log, p, n) && Shape(n) && Justified(log, p, n)
    requires n'.pos == n.pos && n'.cursor == n.cursor
    requires |n'.chan.sent| == |n.chan.sent| + 1 && n.chan.sent <= n'.chan.sent
    requires var k := |n.chan.sent|; !IsPublished(n'.chan.sent[k]) && ShapeAt(n', k)
    ensures Placed(log, p, n') && Shape(n') && Justified(log, p, n')
  {
    assert forall k :: 0 <= k < |n.chan.sent| ==> n'.chan.sent[k] == n.chan.sent[k];
    ShapeExtends(n, n');
    forall k | 0 < k < |n'.chan.sent| && IsPublished(n'.chan.sent[k]) && k <= |n'.pos|
      ensures Yielded(log, p, n'.pos[k - 1], PlaceOf(log, n', k))
    {
      assert PlaceOf(log, n', k) == PlaceOf(log, n, k);
    }
  }

  lemma DoUpdateKeeps(log: seq<Entry>, p: Member, n: Node, got: bool)
    requires NodeInv(log, p, n) && n.alive && n.attached
    ensures NodeInv(log, p, n.(chan := DoUpdate(n.chan, got)))
  {
    var n' := n.(chan := DoUpdate(n.chan, got));
    if n'.chan != n.chan {
      SendKeeps(log, p, n, n');
    }
  }

  lemma AcceptKeeps(log: seq<Entry>, p: Member, n: Node, got: bool)
    requires NodeInv(log, p, n) && n.alive && n.attached
    ensures NodeInv(log, p, n.(chan := Accept(n.chan, got)))
  {
    if n.chan.state == NotJoined {
      DoUpdateKeeps(log, p, n.(chan := n.chan.(state := Preparing)), got);
    }
  }

  lemma LeaveKeeps(log: seq<Entry>, p: Member, n: Node)
    requires NodeInv(log, p, n) && n.alive && n.attached
    ensures NodeInv(log, p, n.(chan := Leave(n.chan)))
  {
    var n' := n.(chan := Leave(n.chan));
    if n'.chan != n.chan {
      SendKeeps(log, p, n, n');
    }
  }

  /** While waiting with an empty `before` queue, everyone who was ahead has been heard of since. */
  lemma TurnHasCome(log: seq<Entry>, p: Member, n: Node)
    requires Placed(log, p, n) && Phase(n) && QueuesOk(log[..n.cursor], p, n)
    requires n.chan.state == WaitForTurn && n.chan.before == []
    ensures Yielded(log, p, n.pos[|n.pos| - 1], |log|)
  {
    var mine := n.pos[|n.pos| - 1];
    var seen := log[..n.cursor];
    forall m | m != p && Pending(log[..mine], m)
      ensures Between(log, mine, |log|, m)
    {
      PendingUnlessHeard(log, mine, n.cursor, m);
      assert log[LastIdx(seen, m)].who == m;
    }
  }

  /** Someone who was preparing still is, or has been heard of since. */
  lemma PendingUnlessHeard(log: seq<Entry>, k: nat, c: nat, m: Member)
    requires k < c <= |log| && log[k].who != m && Pending(log[..k], m)
    ensures Pending(log[..c], m) || LastIdx(log[..c], m) > k
  {
    var i, i' := LastIdx(log[..k], m), LastIdx(log[..c], m);
    assert log[..c][i].who == m && log[..c][i] == log[..k][i];
  }

  lemma PublishKeeps(log: seq<Entry>, p: Member, n: Node, contents: seq<nat>)
    requires NodeInv(log, p, n) && n.alive && n.attached && n.chan.state == WaitForTurn && n.chan.before == []
    ensures NodeInv(log, p, n.(chan := SendNewState(n.chan, contents)))
  {
    var n' := n.(chan := SendNewState(n.chan, contents));
    TurnHasCome(log, p, n);
    ShapeExtends(n, n');
    PublishJustified(log, p, n, n');
  }

  lemma PublishJustified(log: seq<Entry>, p: Member, n: Node, n': Node)
    requires Placed(log, p, n) && Justified(log, p, n)
    requires n'.pos == n.pos && |n.pos| == |n.chan.sent| > 0
    requires |n'.chan.sent| == |n.chan.sent| + 1 && n.chan.sent <= n'.chan.sent
    requires Yielded(log, p, n.pos[|n.pos| - 1], |log|)
    ensures Justified(log, p, n')
  {
    assert forall k :: 0 <= k < |n.chan.sent| ==> n'.chan.sent[k] == n.chan.sent[k];
    forall k | 0 < k < |n'.chan.sent| && IsPublished(n'.chan.sent[k]) && k <= |n'.pos|
      ensures Yielded(log, p, n'.pos[k - 1], PlaceOf(log, n', k))
    {
      assert PlaceOf(log, n', k) == PlaceOf(log, n, k);
    }
  }

  /** Hearing somebody else's note, short of publishing. */
  function HearOther(c: Chan, who: Member, note: Note): Chan {
    if IsMuji(note) then
      var c1 := c.(members := c.members + {who},
                   sessionsToOpen := if !c.sessionsOpened && BeforeWait(c.state)
                                     then c.sessionsToOpen + [who] else c.sessionsToOpen);
      if note.muji.value.preparing then
        if who in c1.before || who in c1.after then c1
        else if c1.state != WaitForTurn then c1.(before := c1.before + [who])
        else c1.(after := c1.after + [who])
      else
        c1.(before := RemoveFirst(c1.before, who), after := RemoveFirst(c1.after, who))
    else if who in c.members then RemoveMember(c, who) else c
  }

  /** Nobody but the speaker looks different after one more note. */
  ghost predicate OneHeard(seen: seq<Entry>, seen': seq<Entry>, e: Entry) {
    && LastIdx(seen', e.who) == |seen|
    && (InCall(seen', e.who) <==> IsMuji(e.note))
    && (Pending(seen', e.who) <==> IsPreparing(e.note))
    && (forall m :: m != e.who ==> LastIdx(seen', m) == LastIdx(seen, m))
    && (forall m :: m != e.who ==> (InCall(seen', m) <==> InCall(seen, m)))
    && (forall m :: m != e.who ==> (Pending(seen', m) <==> Pending(seen, m)))
  }

  lemma HearNote(log: seq<Entry>, c: nat)
    requires c < |log|
    ensures OneHeard(log[..c], log[..c + 1], log[c])
  {
    forall m { SeenStep(log, c, m); }
  }

  lemma QueuesHearPreparing(seen: seq<Entry>, seen': seq<Entry>, e: Entry, p: Member, n: Node, n': Node)
    requires QueuesOk(seen, p, n) && OneHeard(seen, seen', e) && e.who != p && IsPreparing(e.note)
    requires n'.chan == HearOther(n.chan, e.who, e.note) && n'.pos == n.pos
    requires n.chan.state == WaitForTurn ==> n.pos != [] && n.pos[|n.pos| - 1] < |seen| && !Pending(seen, e.who)
    ensures QueuesOk(seen', p, n')
  {
  }

  lemma QueuesHearPublished(seen: seq<Entry>, seen': seq<Entry>, e: Entry, p: Member, n: Node, n': Node)
    requires QueuesOk(seen, p, n) && OneHeard(seen, seen', e) && e.who != p && !IsPreparing(e.note)
    requires n'.chan == HearOther(n.chan, e.who, e.note) && n'.pos == n.pos
    ensures QueuesOk(seen', p, n')
  {
    RemoveFromDistinct(n.chan.before, e.who);
    RemoveFromDistinct(n.chan.after, e.who);
  }

  /** A member does not announce a second preparation before it has published or left. */
  lemma NoDoublePreparing(log: seq<Entry>, c: nat, m: Member, n: Node)
    requires c < |log| && log[c].who == m && IsPreparing(log[c].note)
    requires Placed(log, m, n) && Shape(n)
    ensures !Pending(log[..c], m)
  {
    var k :| 0 <= k < |n.pos| && n.pos[k] == c;
    assert ShapeAt(n, k);
    var i := LastIdx(log[..c], m);
    if 0 <= i {
      var j :| 0 <= j < |n.pos| && n.pos[j] == i;
      assert j < k;
      assert j == k - 1 by { assert n.pos[j] <= n.pos[k - 1] < c && log[n.pos[k - 1]].who == m; }
    }
  }

  /** Moving past a note keeps everything that does not depend on the channel's state. */
  lemma CursorMoves(log: seq<Entry>, p: Member, n: Node, n': Node)
    requires Placed(log, p, n) && Shape(n) && Justified(log, p, n) && n.cursor < |log|
    requires n'.cursor == n.cursor + 1 && n'.pos == n.pos && n'.chan.sent == n.chan.sent
    ensures Placed(log, p, n') && Shape(n') && Justified(log, p, n')
  {
    ShapeFrom(n, n', |n.chan.sent|);
    assert forall k :: PlaceOf(log, n', k) == PlaceOf(log, n, k);
  }

  /** Hearing a note of somebody else, short of publishing. `n0` is the speaker. */
  lemma HearOtherKeeps(log: seq<Entry>, p: Member, n: Node, n0: Node)
    requires NodeInv(log, p, n) && n.alive && n.attached && n.cursor < |log| && log[n.cursor].who != p
    requires Placed(log, log[n.cursor].who, n0) && Shape(n0)
    ensures NodeInv(log, p, n.(cursor := n.cursor + 1,
                               chan := HearOther(n.chan, log[n.cursor].who, log[n.cursor].note)))
  {
    var e := log[n.cursor];
    var n' := n.(cursor := n.cursor + 1, chan := HearOther(n.chan, e.who, e.note));
    CursorMoves(log, p, n, n');
    PhaseMoves(log, p, n, n');
    if n.chan.state != Left {
      QueuesHearOther(log, p, n, n', n0);
    }
  }

  lemma PhaseMoves(log: seq<Entry>, p: Member, n: Node, n': Node)
    requires Placed(log, p, n) && Phase(n) && n.cursor < |log| && log[n.cursor].who != p
    requires n'.cursor == n.cursor + 1 && n'.pos == n.pos
    requires n'.chan.sent == n.chan.sent && n'.chan.state == n.chan.state && n'.chan.muji == n.chan.muji
    ensures Phase(n')
  {
    forall k ensures Echoed(n', k) <==> Echoed(n, k) {
      if 0 <= k < |n.pos| { assert log[n.pos[k]].who == p; }
    }
  }

  lemma QueuesHearOther(log: seq<Entry>, p: Member, n: Node, n': Node, n0: Node)
    requires n.cursor < |log| && log[n.cursor].who != p
    requires Placed(log, p, n) && Phase(n) && QueuesOk(log[..n.cursor], p, n)
    requires Placed(log, log[n.cursor].who, n0) && Shape(n0)
    requires n'.chan == HearOther(n.chan, log[n.cursor].who, log[n.cursor].note) && n'.pos == n.pos
    ensures QueuesOk(log[..n.cursor + 1], p, n')
  {
    var e := log[n.cursor];
    HearNote(log, n.cursor);
    if IsPreparing(e.note) {
      NoDoublePreparing(log, n.cursor, e.who, n0);
      QueuesHearPreparing(log[..n.cursor], log[..n.cursor + 1], e, p, n, n');
    } else {
      QueuesHearPublished(log[..n.cursor], log[..n.cursor + 1], e, p, n, n');
    }
  }

  /** In terms of the handlers: hearing another participant is HearOther, and then publishing if
      that was a publication and nobody is left ahead of us. */
  lemma HearSplits(c: Chan, p: Member, who: Member, note: Note, contents: seq<nat>)
    requires who != p
    ensures var c1 := HearOther(c, who, note);
            Hear(c, p, who, note, contents) ==
            if IsPublished(note) && c1.state == WaitForTurn && c1.before == [] then SendNewState(c1, contents) else c1
  {
  }

  /** In PREPARING_SENT, an echo that is not that of the last note is that of the publication just
      before it, which no longer matches our tree. */
  lemma StaleEcho(log: seq<Entry>, p: Member, n: Node, k: nat)
    requires Placed(log, p, n) && Shape(n) && Phase(n) && n.chan.state == PreparingSent
    requires k < |n.pos| && n.pos[k] == n.cursor && k < |n.chan.sent| - 1
    ensures IsPublished(n.chan.sent[k])
  {
    var last := |n.chan.sent| - 1;
    assert ShapeAt(n, last) && ShapeAt(n, last - 1);
    assert k == last - 1 by { assert Echoed(n, last - 2) || last == 1; }
  }

  lemma QueuesOwn(log: seq<Entry>, p: Member, n: Node, n': Node)
    requires n.cursor < |log| && log[n.cursor].who == p && QueuesOk(log[..n.cursor], p, n)
    requires n'.pos == n.pos && n'.chan.before == n.chan.before && n'.chan.after == n.chan.after
    requires n'.chan.members == n.chan.members
    requires n'.chan.state == n.chan.state || (n.chan.state != WaitForTurn && n.pos != [] && n.pos[|n.pos| - 1] == n.cursor)
    ensures QueuesOk(log[..n.cursor + 1], p, n')
  {
    HearNote(log, n.cursor);
  }

  /** What the echo of our k-th note does to the phase, short of publishing. */
  function HearOwn(c: Chan, last: bool, matches: bool): Chan {
    if c.state == PreparingSent && last then c.(state := WaitForTurn)
    else if c.state == Stable && matches then OpenNewStreams(c)
    else c
  }

  lemma HearOwnKeeps(log: seq<Entry>, p: Member, n: Node, k: nat, matches: bool)
    requires NodeInv(log, p, n) && n.alive && n.attached && n.cursor < |log| && log[n.cursor].who == p
    requires k < |n.pos| && n.pos[k] == n.cursor
    ensures NodeInv(log, p, n.(cursor := n.cursor + 1, chan := HearOwn(n.chan, k == |n.chan.sent| - 1, matches)))
  {
    var n' := n.(cursor := n.cursor + 1, chan := HearOwn(n.chan, k == |n.chan.sent| - 1, matches));
    CursorMoves(log, p, n, n');
    assert Phase(n') by {
      assert forall j :: Echoed(n', j) <==> Echoed(n, j) || j == k;
    }
    if n.chan.state != Left { QueuesOwn(log, p, n, n'); }
  }

  /** The echo of a note of our own is HearOwn, and then publishing if we now wait for nobody. */
  lemma OwnEchoSplits(log: seq<Entry>, p: Member, n: Node, k: nat, contents: seq<nat>)
    requires Placed(log, p, n) && Shape(n) && Phase(n) && n.attached && n.cursor < |log| && log[n.cursor].who == p
    requires k < |n.pos| && n.pos[k] == n.cursor
    ensures var last := k == |n.chan.sent| - 1;
            var c1 := HearOwn(n.chan, last, log[n.cursor].note == Presence(n.chan.muji));
            HearNext(log, p, n, contents).chan ==
            if n.chan.state == PreparingSent && last && c1.before == [] then SendNewState(c1, contents) else c1
  {
    if n.chan.state == PreparingSent && k < |n.chan.sent| - 1 { StaleEcho(log, p, n, k); }
  }

  lemma OwnEchoKeeps(log: seq<Entry>, p: Member, n: Node, contents: seq<nat>)
    requires NodeInv(log, p, n) && n.alive && n.attached && n.cursor < |log| && log[n.cursor].who == p
    ensures NodeInv(log, p, HearNext(log, p, n, contents))
  {
    var k :| 0 <= k < |n.pos| && n.pos[k] == n.cursor;
    var last := k == |n.chan.sent| - 1;
    var matches := log[n.cursor].note == Presence(n.chan.muji);
    var n' := n.(cursor := n.cursor + 1, chan := HearOwn(n.chan, last, matches));
    HearOwnKeeps(log, p, n, k, matches);
    OwnEchoSplits(log, p, n, k, contents);
    if n.chan.state == PreparingSent && last && n'.chan.before == [] {
      PublishKeeps(log, p, n', contents);
    }
  }

  lemma DeliverKeeps(log: seq<Entry>, p: Member, n: Node, n0: Node, contents: seq<nat>)
    requires NodeInv(log, p, n) && n.alive && n.cursor < |log|
    requires NodeInv(log, log[n.cursor].who, n0)
    ensures NodeInv(log, p, HearNext(log, p, n, contents))
  {
    var e := log[n.cursor];
    if !n.attached {
      CursorMoves(log, p, n, HearNext(log, p, n, contents));
    } else if e.who == p {
      OwnEchoKeeps(log, p, n, contents);
    } else {
      HearOtherKeeps(log, p, n, n0);
      HearSplits(n.chan, p, e.who, e.note, contents);
      MaybePublish(log, p, n.(cursor := n.cursor + 1, chan := HearOther(n.chan, e.who, e.note)),
                   HearNext(log, p, n, contents), IsPublished(e.note), contents);
    }
  }

  lemma MaybePublish(log: seq<Entry>, p: Member, n: Node, n': Node, published: bool, contents: seq<nat>)
    requires NodeInv(log, p, n) && n.alive && n.attached
    requires n' == n.(chan := if published && n.chan.state == WaitForTurn && n.chan.before == []
                              then SendNewState(n.chan, contents) else n.chan)
    ensures NodeInv(log, p, n')
  {
    if published && n.chan.state == WaitForTurn && n.chan.before == [] {
      PublishKeeps(log, p, n, contents);
    }
  }

  /** The snapshot lists `m` as taking part in the call, or even as preparing. */
  ghost predicate Lists(known: seq<(Member, Option<Tree>)>, m: Member, preparing: bool) {
    exists i :: 0 <= i < |known| && known[i].0 == m && ListedAs(known[i].1, preparing)
  }

  predicate ListedAs(muji: Option<Tree>, preparing: bool) {
    if preparing then IsPreparing(Presence(muji)) else muji.Some?
  }

  lemma ListsLast(known: seq<(Member, Option<Tree>)>, m: Member, preparing: bool)
    requires known != []
    ensures var k := |known| - 1;
            Lists(known, m, preparing) <==>
            Lists(known[..k], m, preparing) || (known[k].0 == m && ListedAs(known[k].1, preparing))
  {
    var k := |known| - 1;
    assert known == known[..k] + [known[k]];
    if Lists(known[..k], m, preparing) {
      var i :| 0 <= i < k && known[..k][i].0 == m && ListedAs(known[..k][i].1, preparing);
      assert known[i] == known[..k][i];
    }
  }

  /** What the snapshot taken when the channel starts leaves behind. */
  lemma {:induction false} SnapshotEffect(known: seq<(Member, Option<Tree>)>)
    requires forall i, j :: 0 <= i < j < |known| ==> known[i].0 != known[j].0
    ensures var c := UpdateAllMembers(FreshChan, known);
            && c == FreshChan.(before := c.before, members := c.members, sessionsToOpen := c.sessionsToOpen)
            && Distinct(c.before)
            && (forall m :: m in c.members <==> Lists(known, m, false))
            && (forall m :: m in c.sessionsToOpen <==> m in c.members)
            && (forall m :: m in c.before <==> Lists(known, m, true))
  {
    if known != [] {
      var k := |known| - 1;
      var who := known[k].0;
      SnapshotEffect(known[..k]);
      var c, c' := UpdateAllMembers(FreshChan, known[..k]), UpdateAllMembers(FreshChan, known);
      assert c' == GotPresence(c, who, known[k].1, []);
      forall m, x { ListsLast(known, m, x); }
      assert forall x :: !Lists(known[..k], who, x) by {
        assert forall i :: 0 <= i < k ==> known[..k][i] == known[i];
      }
      assert who !in c.members && who !in c.before;
      assert c'.before == if ListedAs(known[k].1, true) then c.before + [who] else c.before;
    }
  }

  lemma AttachKeeps(log: seq<Entry>, p: Member, n: Node, known: seq<(Member, Option<Tree>)>)
    requires NodeInv(log, p, n) && n.alive && !n.attached && IsSnapshot(log[..n.cursor], p, known)
    ensures NodeInv(log, p, n.(attached := true, chan := UpdateAllMembers(n.chan, known)))
  {
    SnapshotEffect(known);
    forall m { SnapshotLists(log[..n.cursor], p, known, m); }
  }

  lemma SnapshotLists(seen: seq<Entry>, p: Member, known: seq<(Member, Option<Tree>)>, m: Member)
    requires IsSnapshot(seen, p, known)
    ensures Lists(known, m, false) <==> m != p && InCall(seen, m)
    ensures Lists(known, m, true) <==> m != p && Pending(seen, m)
  {
    if m != p && InCall(seen, m) {
      var i :| 0 <= i < |known| && known[i].0 == m;
      assert ListedAs(known[i].1, false);
      assert Pending(seen, m) ==> ListedAs(known[i].1, true);
    }
  }

  /** What an action does to the participant it belongs to. */
  lemma {:induction false} ActorKeeps(r: Room, a: Action)
    requires Inv(r) && Enabled(r, a)
    ensures NodeInv(Apply(r, a).log, a.p, Apply(r, a).nodes[a.p])
  {
    var p, n := a.p, r.nodes[a.p];
    match a {
      case Attach(_, known) => AttachKeeps(r.log, p, n, known);
      case UserAccept(_, got) => AcceptKeeps(r.log, p, n, got);
      case MediaUpdate(_, got) => DoUpdateKeeps(r.log, p, n, got);
      case Hangup(_) => LeaveKeeps(r.log, p, n);
      case Order(_) => OrderKeeps(r.log, p, n);
      case Deliver(_, contents) => DeliverKeeps(r.log, p, n, r.nodes[r.log[n.cursor].who], contents);
      case Vanish(_) => VanishKeeps(r.log, p, n);
    }
  }

  /** An action changes one participant and makes the order at most one note longer. */
  lemma {:induction false} Framed(r: Room, a: Action) returns (r': Room)
    requires Enabled(r, a)
    ensures r' == Apply(r, a) && a.p in r'.nodes && r'.nodes == r.nodes[a.p := r'.nodes[a.p]]
    ensures r'.log == r.log || (|r'.log| == |r.log| + 1 && r'.log == r.log + [r'.log[|r.log|]] && r'.log[|r.log|].who == a.p)
  {
    r' := Apply(r, a);
  }

  /** Every action keeps the invariant. */
  lemma {:induction false} StepKeeps(r: Room, a: Action)
    requires Inv(r)
    ensures Inv(Step(r, a)) && Step(r, a).nodes.Keys == r.nodes.Keys
  {
    if Enabled(r, a) {
      var r' := Framed(r, a);
      ActorKeeps(r, a);
      FramedKeeps(r, a.p, r');
    }
  }

  lemma {:induction false} FramedKeeps(r: Room, p: Member, r': Room)
    requires Inv(r) && p in r.nodes && p in r'.nodes && NodeInv(r'.log, p, r'.nodes[p])
    requires r'.nodes == r.nodes[p := r'.nodes[p]]
    requires r'.log == r.log || (|r'.log| == |r.log| + 1 && r'.log == r.log + [r'.log[|r.log|]] && r'.log[|r.log|].who == p)
    ensures Inv(r') && r'.nodes.Keys == r.nodes.Keys
  {
    forall q | q in r'.nodes ensures NodeInv(r'.log, q, r'.nodes[q]) {
      if q != p && r'.log != r.log { LogGrows(r.log, r'.log[|r.log|], q, r.nodes[q]); }
    }
  }

  lemma {:induction false} InitInv(ps: set<Member>)
    ensures Inv(Init(ps)) && Init(ps).nodes.Keys == ps
  {
  }

  /** The invariant holds after any sequence of actions. */
  lemma {:induction false} RunKeeps(ps: set<Member>, acts: seq<Action>)
    ensures Inv(Run(ps, acts))
    ensures Run(ps, acts).nodes.Keys == ps
  {
    if acts != [] {
      RunKeeps(ps, acts[..|acts| - 1]);
      StepKeeps(Run(ps, acts[..|acts| - 1]), acts[|acts| - 1]);
    } else {
      InitInv(ps);
    }
  }

  /** In every run the assertions of `call_muc_do_update` hold: there is no `<muji>` tree while
      preparing for the first time, and there is one once stable. */
  lemma {:induction false} UpdateAsserts(ps: set<Member>, acts: seq<Action>, p: Member)
    requires p in Run(ps, acts).nodes && Run(ps, acts).nodes[p].alive
    ensures var c := Run(ps, acts).nodes[p].chan;
            (c.state == Preparing ==> c.muji.None?) && (c.state == Stable ==> c.muji.Some?)
  {
    RunKeeps(ps, acts);
    var n := Run(ps, acts).nodes[p];
    assert NodeInv(Run(ps, acts).log, p, n);
  }
}
