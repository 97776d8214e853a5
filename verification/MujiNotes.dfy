/** What the participants of a Muji conference say: which action makes a participant send which presence,
    and that the room's order holds exactly these. */
module MujiNotes {
  import opened Common
  import opened MujiSpec
  import opened MujiRoom
  import opened MujiInvariant
  import opened MujiTurns

  // ---- The turn ----

  /** Hearing `e` gives `p` its turn: it is the echo of its preparation and nobody was ahead, or it
      waits and hears the publication of the only one ahead, or of anybody if it was left behind. */
  ghost predicate GivesTurn(c: Chan, p: Member, e: Entry) {
    if e.who == p then c.state == PreparingSent && c.before == [] && c.muji.Some? && e.note == Presence(c.muji)
    else c.state == WaitForTurn && IsPublished(e.note) && (c.before == [] || c.before == [e.who])
  }

  ghost predicate TurnAt(r: Room, a: Action, p: Member) {
    && a.Deliver? && a.p == p && Enabled(r, a)
    && r.nodes[p].attached && GivesTurn(r.nodes[p].chan, p, r.log[r.nodes[p].cursor])
  }

  /** The contents that the call had at each turn of `p`. */
  ghost function Turns(ps: set<Member>, acts: seq<Action>, p: Member): seq<seq<nat>> {
    if acts == [] then []
    else
      var front, a := acts[..|acts| - 1], acts[|acts| - 1];
      Turns(ps, front, p) + if TurnAt(Run(ps, front), a, p) then [a.contents] else []
  }

  // ---- What is sent ----

  const NewRound := Presence(Some(Tree(true, [])))

  /** The contents of the last note, which a further round repeats. */
  function LastContents(sent: seq<Note>): seq<nat> {
    if sent != [] && IsMuji(sent[|sent| - 1]) then sent[|sent| - 1].muji.value.contents else []
  }

  /** What an action makes its participant send. */
  ghost function NoteOf(r: Room, a: Action): seq<Note>
    requires Enabled(r, a)
  {
    var c := r.nodes[a.p].chan;
    match a
    case UserAccept(_, got) => if c.state == NotJoined && got then [NewRound] else []
    case MediaUpdate(_, got) =>
      if c.state == Preparing && got then [NewRound]
      else if c.state == Stable then [Presence(Some(Tree(true, LastContents(c.sent))))]
      else []
    case Hangup(_) => if c.state != Left then [Presence(None)] else []
    case Deliver(p, contents) => if TurnAt(r, a, p) then [Presence(Some(Tree(false, contents)))] else []
    case _ => []
  }

  lemma {:induction false} HearSends(c: Chan, p: Member, e: Entry, contents: seq<nat>)
    ensures Hear(c, p, e.who, e.note, contents).sent
            == c.sent + if GivesTurn(c, p, e) then [Presence(Some(Tree(false, contents)))] else []
  {
    assert c.sent + [] == c.sent;
    if e.who != p {
      HearSplits(c, p, e.who, e.note, contents);
      RemoveToEmpty(c.before, e.who);
    }
  }

  /** In every run, an action makes its participant send exactly that; a participant that vanishes
      takes back what the room has not ordered. */
  lemma {:induction false} NotesSent(ps: set<Member>, acts: seq<Action>, a: Action)
    requires Enabled(Run(ps, acts), a) && !a.Vanish?
    ensures var r := Run(ps, acts);
            a.p in Apply(r, a).nodes && Apply(r, a).nodes[a.p].chan.sent == r.nodes[a.p].chan.sent + NoteOf(r, a)
  {
    RunKeeps(ps, acts);
    StepSends(Run(ps, acts), a);
  }

  /** The user's part: accepting, changing the media and leaving. */
  lemma {:induction false} UserSends(n: Node, got: bool)
    requires Phase(n)
    ensures var c := n.chan;
            && Accept(c, got).sent == c.sent + (if c.state == NotJoined && got then [NewRound] else [])
            && DoUpdate(c, got).sent ==
               c.sent + (if c.state == Preparing && got then [NewRound]
                         else if c.state == Stable then [Presence(Some(Tree(true, LastContents(c.sent))))]
                         else [])
            && Leave(c).sent == c.sent + (if c.state != Left then [Presence(None)] else [])
  {
    assert n.chan.sent + [] == n.chan.sent;
  }

  lemma {:induction false} DeliverSends(r: Room, a: Action)
    requires Enabled(r, a) && a.Deliver?
    ensures HearNext(r.log, a.p, r.nodes[a.p], a.contents).chan.sent == r.nodes[a.p].chan.sent + NoteOf(r, a)
  {
    var n := r.nodes[a.p];
    assert n.chan.sent + [] == n.chan.sent;
    if n.attached { HearSends(n.chan, a.p, r.log[n.cursor], a.contents); }
  }

  lemma {:induction false} StepSends(r: Room, a: Action)
    requires Inv(r) && Enabled(r, a) && !a.Vanish?
    ensures a.p in Apply(r, a).nodes && Apply(r, a).nodes[a.p].chan.sent == r.nodes[a.p].chan.sent + NoteOf(r, a)
  {
    var n := r.nodes[a.p];
    assert NodeInv(r.log, a.p, n);
    assert n.chan.sent + [] == n.chan.sent;
    match a {
      case Attach(_, known) => SnapshotEffect(known);
      case Deliver(_, _) => DeliverSends(r, a);
      case UserAccept(_, got) => UserSends(n, got);
      case MediaUpdate(_, got) => UserSends(n, got);
      case Hangup(_) => UserSends(n, false);
      case Order(_) =>
    }
  }

  /** The state of a participant after an action of its own. */
  ghost function StateAfter(r: Room, a: Action): CallState
    requires Enabled(r, a)
  {
    var c := r.nodes[a.p].chan;
    match a
    case UserAccept(_, got) => if c.state != NotJoined then c.state else if got then PreparingSent else Preparing
    case MediaUpdate(_, got) => if c.state == Stable || (c.state == Preparing && got) then PreparingSent else c.state
    case Hangup(_) => Left
    case Deliver(p, _) =>
      if TurnAt(r, a, p) then Stable
      else if EchoAt(r, a, p) then WaitForTurn
      else c.state
    case _ => c.state
  }

  /** The echo of one's preparation, with others ahead. */
  ghost predicate EchoAt(r: Room, a: Action, p: Member) {
    && a.Deliver? && a.p == p && Enabled(r, a) && r.nodes[p].attached
    && var c, e := r.nodes[p].chan, r.log[r.nodes[p].cursor];
    e.who == p && c.state == PreparingSent && c.before != [] && c.muji.Some? && e.note == Presence(c.muji)
  }

  lemma {:induction false} HearState(c: Chan, p: Member, e: Entry, contents: seq<nat>)
    ensures Hear(c, p, e.who, e.note, contents).state ==
            if GivesTurn(c, p, e) then Stable
            else if e.who == p && c.state == PreparingSent && c.muji.Some? && e.note == Presence(c.muji) then WaitForTurn
            else c.state
  {
    if e.who != p {
      HearSplits(c, p, e.who, e.note, contents);
      RemoveToEmpty(c.before, e.who);
    }
  }

  /** In every run a participant goes through its states in exactly this way. */
  lemma {:induction false} StatesFollow(ps: set<Member>, acts: seq<Action>, a: Action)
    requires Enabled(Run(ps, acts), a)
    ensures var r := Run(ps, acts); a.p in Apply(r, a).nodes && Apply(r, a).nodes[a.p].chan.state == StateAfter(r, a)
  {
    RunKeeps(ps, acts);
    var r := Run(ps, acts);
    var n := r.nodes[a.p];
    assert NodeInv(r.log, a.p, n);
    match a {
      case Attach(_, known) => SnapshotEffect(known);
      case Deliver(p, contents) => if n.attached { HearState(n.chan, p, r.log[n.cursor], contents); }
      case _ =>
    }
  }

  // ---- Rounds ----

  /** A first round is announced with no contents, a further one with those published before. */
  ghost predicate Carries(sent: seq<Note>) {
    forall k :: 0 <= k < |sent| && IsPreparing(sent[k]) ==> sent[k].muji.value.contents == LastContents(sent[..k])
  }

  /** The contents published, in order. */
  function Published(notes: seq<Note>): seq<seq<nat>> {
    if notes == [] then []
    else
      var note := notes[|notes| - 1];
      Published(notes[..|notes| - 1]) + if IsPublished(note) then [note.muji.value.contents] else []
  }

  lemma {:induction false} PublishedSnoc(notes: seq<Note>, note: Note)
    ensures Published(notes + [note]) == Published(notes) + if IsPublished(note) then [note.muji.value.contents] else []
  {
    assert (notes + [note])[..|notes|] == notes;
  }

  lemma {:induction false} PublishedPrefix(notes: seq<Note>, k: nat)
    requires k <= |notes|
    ensures Published(notes[..k]) <= Published(notes)
    decreases |notes|
  {
    if k == |notes| {
      assert notes[..k] == notes;
    } else {
      PublishedPrefix(notes[..|notes| - 1], k);
      assert notes[..|notes| - 1][..k] == notes[..k];
    }
  }

  lemma {:induction false} CarriesSnoc(sent: seq<Note>, note: Note)
    requires Carries(sent) && (IsPreparing(note) ==> note.muji.value.contents == LastContents(sent))
    ensures Carries(sent + [note])
  {
    var all := sent + [note];
    forall k | 0 <= k < |all| && IsPreparing(all[k]) ensures all[k].muji.value.contents == LastContents(all[..k]) {
      assert all[..k] == if k < |sent| then sent[..k] else sent;
    }
  }

  lemma {:induction false} CarriesPrefix(sent: seq<Note>, k: nat)
    requires Carries(sent) && k <= |sent|
    ensures Carries(sent[..k])
  {
    forall j | 0 <= j < k && IsPreparing(sent[..k][j]) ensures sent[..k][j].muji.value.contents == LastContents(sent[..k][..j]) {
      assert sent[..k][..j] == sent[..j];
    }
  }

  /** What a participant has sent, against its turns. */
  ghost predicate Says(n: Node, turns: seq<seq<nat>>) {
    && Carries(n.chan.sent)
    && (if n.alive then Published(n.chan.sent) == turns else Published(n.chan.sent) <= turns)
  }

  /** The one note an action may send. */
  lemma {:induction false} NoteKind(r: Room, a: Action, n: Node)
    requires Enabled(r, a) && n == r.nodes[a.p] && NodeInv(r.log, a.p, n)
    ensures var more := NoteOf(r, a);
            && |more| <= 1 && (TurnAt(r, a, a.p) <==> more != [] && IsPublished(more[0]))
            && (TurnAt(r, a, a.p) ==> more[0].muji.value.contents == a.contents)
            && (more != [] && IsPreparing(more[0]) ==> more[0].muji.value.contents == LastContents(n.chan.sent))
  {
  }

  lemma {:induction false} OneMore(sent: seq<Note>, more: seq<Note>)
    requires Carries(sent) && |more| <= 1
    requires more != [] && IsPreparing(more[0]) ==> more[0].muji.value.contents == LastContents(sent)
    ensures Carries(sent + more)
    ensures Published(sent + more)
            == Published(sent) + if more != [] && IsPublished(more[0]) then [more[0].muji.value.contents] else []
  {
    assert sent + [] == sent && Published(sent) + [] == Published(sent);
    if more != [] {
      assert more == [more[0]];
      CarriesSnoc(sent, more[0]);
      PublishedSnoc(sent, more[0]);
    }
  }

  lemma {:induction false} NoteCarries(r: Room, a: Action)
    requires Inv(r) && Enabled(r, a) && !a.Vanish? && Carries(r.nodes[a.p].chan.sent)
    ensures var sent := r.nodes[a.p].chan.sent;
            && Carries(sent + NoteOf(r, a))
            && Published(sent + NoteOf(r, a)) == Published(sent) + if TurnAt(r, a, a.p) then [a.contents] else []
  {
    NoteKind(r, a, r.nodes[a.p]);
    OneMore(r.nodes[a.p].chan.sent, NoteOf(r, a));
  }

  lemma {:induction false} VanishSays(n: Node, n': Node, turns: seq<seq<nat>>)
    requires Says(n, turns) && |n.pos| <= |n.chan.sent|
    requires !n'.alive && n'.chan.sent == n.chan.sent[..|n.pos|] + [Unavailable]
    ensures Says(n', turns)
  {
    CarriesPrefix(n.chan.sent, |n.pos|);
    CarriesSnoc(n.chan.sent[..|n.pos|], Unavailable);
    PublishedPrefix(n.chan.sent, |n.pos|);
    PublishedSnoc(n.chan.sent[..|n.pos|], Unavailable);
  }

  lemma {:induction false} OwnSays(r: Room, a: Action, turns: seq<seq<nat>>)
    requires Inv(r) && Enabled(r, a) && !a.Vanish? && Says(r.nodes[a.p], turns)
    ensures a.p in Apply(r, a).nodes && Says(Apply(r, a).nodes[a.p], turns + if TurnAt(r, a, a.p) then [a.contents] else [])
  {
    StepSends(r, a);
    NoteCarries(r, a);
    AliveStays(r, a);
  }

  lemma {:induction false} StepSays(r: Room, a: Action, p: Member, turns: seq<seq<nat>>)
    requires Inv(r) && p in r.nodes && Says(r.nodes[p], turns) && Enabled(r, a)
    ensures p in Apply(r, a).nodes && Says(Apply(r, a).nodes[p], turns + if TurnAt(r, a, p) then [a.contents] else [])
  {
    assert turns + [] == turns;
    if a.p == p && !a.Vanish? {
      OwnSays(r, a, turns);
    } else {
      var r' := Framed(r, a);
      if a.p == p { VanishSays(r.nodes[p], r'.nodes[p], turns); }
    }
  }

  lemma {:induction false} AliveStays(r: Room, a: Action)
    requires Enabled(r, a) && !a.Vanish?
    ensures a.p in Apply(r, a).nodes && Apply(r, a).nodes[a.p].alive
  {
  }

  lemma {:induction false} RunSays(ps: set<Member>, acts: seq<Action>, p: Member)
    requires p in ps
    ensures p in Run(ps, acts).nodes && Says(Run(ps, acts).nodes[p], Turns(ps, acts, p))
    decreases |acts|
  {
    RunKeeps(ps, acts);
    if acts != [] {
      var front, a := acts[..|acts| - 1], acts[|acts| - 1];
      RunSays(ps, front, p);
      RunKeeps(ps, front);
      assert Turns(ps, front, p) + [] == Turns(ps, front, p);
      if Enabled(Run(ps, front), a) { StepSays(Run(ps, front), a, p, Turns(ps, front, p)); }
    }
  }

  // ---- The room's order ----

  /** The notes of one participant in the room's order. */
  function NotesOf(log: seq<Entry>, p: Member): seq<Note> {
    if log == [] then []
    else
      var e := log[|log| - 1];
      NotesOf(log[..|log| - 1], p) + if e.who == p then [e.note] else []
  }

  lemma {:induction false} NotesSnoc(log: seq<Entry>, e: Entry, p: Member)
    ensures NotesOf(log + [e], p) == NotesOf(log, p) + if e.who == p then [e.note] else []
  {
    assert (log + [e])[..|log|] == log;
  }

  ghost predicate OrderedBy(log: seq<Entry>, p: Member, n: Node) {
    |n.pos| <= |n.chan.sent| && NotesOf(log, p) == n.chan.sent[..|n.pos|]
  }

  ghost predicate Ordered(r: Room, p: Member) { p in r.nodes && OrderedBy(r.log, p, r.nodes[p]) }

  /** Somebody else's note, or none. */
  lemma {:induction false} OtherOrdered(log: seq<Entry>, log': seq<Entry>, p: Member, n: Node)
    requires OrderedBy(log, p, n)
    requires log' == log || (|log'| == |log| + 1 && log' == log + [log'[|log|]] && log'[|log|].who != p)
    ensures OrderedBy(log', p, n)
  {
    if log' != log { NotesSnoc(log, log'[|log|], p); }
  }

  /** The next of one's own notes. */
  lemma {:induction false} OwnOrdered(log: seq<Entry>, p: Member, n: Node, n': Node, note: Note)
    requires OrderedBy(log, p, n) && |n'.pos| == |n.pos| + 1 && |n'.pos| <= |n'.chan.sent|
    requires n'.chan.sent[..|n.pos|] == n.chan.sent[..|n.pos|] && n'.chan.sent[|n.pos|] == note
    ensures OrderedBy(log + [Entry(p, note)], p, n')
  {
    NotesSnoc(log, Entry(p, note), p);
    assert n'.chan.sent[..|n.pos| + 1] == n'.chan.sent[..|n.pos|] + [note];
  }

  lemma {:induction false} PlaceStays(r: Room, a: Action)
    requires Enabled(r, a) && !a.Order? && !a.Vanish?
    ensures var r' := Apply(r, a); a.p in r'.nodes && r'.log == r.log && r'.nodes[a.p].pos == r.nodes[a.p].pos
  {
  }

  lemma {:induction false} MoreOrdered(log: seq<Entry>, p: Member, n: Node, n': Node, more: seq<Note>)
    requires OrderedBy(log, p, n) && n'.pos == n.pos && n'.chan.sent == n.chan.sent + more
    ensures OrderedBy(log, p, n')
  {
    assert n'.chan.sent[..|n.pos|] == n.chan.sent[..|n.pos|];
  }

  lemma {:induction false} LocalOrdered(r: Room, a: Action)
    requires Inv(r) && Enabled(r, a) && Ordered(r, a.p) && !a.Order? && !a.Vanish?
    ensures Ordered(Apply(r, a), a.p)
  {
    PlaceStays(r, a);
    StepSends(r, a);
    MoreOrdered(r.log, a.p, r.nodes[a.p], Apply(r, a).nodes[a.p], NoteOf(r, a));
  }

  lemma {:induction false} StepOrdered(r: Room, a: Action, p: Member)
    requires Inv(r) && Ordered(r, p) && Enabled(r, a)
    ensures Ordered(Apply(r, a), p)
  {
    var r' := Framed(r, a);
    if a.p != p { OtherOrdered(r.log, r'.log, p, r.nodes[p]); }
    else if a.Order? { OwnOrdered(r.log, p, r.nodes[p], r'.nodes[p], r.nodes[p].chan.sent[|r.nodes[p].pos|]); }
    else if a.Vanish? { OwnOrdered(r.log, p, r.nodes[p], r'.nodes[p], Unavailable); }
    else { LocalOrdered(r, a); }
  }

  lemma {:induction false} RunOrdered(ps: set<Member>, acts: seq<Action>, p: Member)
    requires p in ps
    ensures Ordered(Run(ps, acts), p)
    decreases |acts|
  {
    if acts != [] {
      var front, a := acts[..|acts| - 1], acts[|acts| - 1];
      RunOrdered(ps, front, p);
      RunKeeps(ps, front);
      if Enabled(Run(ps, front), a) { StepOrdered(Run(ps, front), a, p); }
    }
  }

  /** What a preparation in the order carries. */
  ghost predicate Rounds(notes: seq<Note>) {
    forall k :: 0 <= k < |notes| && IsPreparing(notes[k]) ==>
      if k == 0 then notes[k].muji.value.contents == []
      else IsPublished(notes[k - 1]) && notes[k].muji.value.contents == notes[k - 1].muji.value.contents
  }

  lemma {:induction false} RoundsOf(n: Node)
    requires Shape(n) && Carries(n.chan.sent) && |n.pos| <= |n.chan.sent|
    ensures Rounds(n.chan.sent[..|n.pos|])
  {
    var sent := n.chan.sent;
    forall k | 0 <= k < |n.pos| && IsPreparing(sent[k])
      ensures if k == 0 then sent[k].muji.value.contents == []
              else IsPublished(sent[k - 1]) && sent[k].muji.value.contents == sent[k - 1].muji.value.contents
    {
      assert ShapeAt(n, k);
      assert sent[k].muji.value.contents == LastContents(sent[..k]);
      if k > 0 { assert sent[..k][|sent[..k]| - 1] == sent[k - 1]; }
    }
  }

  /** In every run: the contents that a participant has published in the room are those of the call at
      its turns, in order, all of them once everything it sent is ordered; and a preparation carries
      the contents of the participant's last publication, or none in its first round. */
  lemma {:induction false} ContentsPublished(ps: set<Member>, acts: seq<Action>, p: Member)
    requires p in ps
    ensures var r := Run(ps, acts); var notes, turns := NotesOf(r.log, p), Turns(ps, acts, p);
            && p in r.nodes
            && Published(notes) <= turns
            && (r.nodes[p].alive && |r.nodes[p].pos| == |r.nodes[p].chan.sent| ==> Published(notes) == turns)
            && Rounds(notes)
  {
    RunSays(ps, acts, p);
    RunOrdered(ps, acts, p);
    RunKeeps(ps, acts);
    var n := Run(ps, acts).nodes[p];
    PublishedPrefix(n.chan.sent, |n.pos|);
    assert |n.pos| == |n.chan.sent| ==> n.chan.sent[..|n.pos|] == n.chan.sent;
    assert NodeInv(Run(ps, acts).log, p, n);
    RoundsOf(n);
  }
}
