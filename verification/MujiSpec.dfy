/** One participant of a Muji conference (XEP-0272): the event handlers of
    src/call-muc-channel.c as functions on the channel's private state. */
module MujiSpec {
  import opened Common

  type Member = nat

  /** The `<muji>` element: the contents announced and the `<preparing>` child. */
  datatype Tree = Tree(preparing: bool, contents: seq<nat>)

  /** What the room says about a member: a presence, with or without a `<muji>` element, or that
      the member left the room. */
  datatype Note = Presence(muji: Option<Tree>) | Unavailable

  predicate IsMuji(n: Note) { n.Presence? && n.muji.Some? }
  predicate IsPreparing(n: Note) { IsMuji(n) && n.muji.value.preparing }
  predicate IsPublished(n: Note) { IsMuji(n) && !n.muji.value.preparing }
  predicate IsDeparture(n: Note) { !IsMuji(n) }

  datatype CallState = NotJoined | Preparing | PreparingSent | WaitForTurn | Stable | Left

  /** `priv->state < STATE_WAIT_FOR_TURN` */
  predicate BeforeWait(s: CallState) { s.NotJoined? || s.Preparing? || s.PreparingSent? }

  /** The private structure. `sent` is what was handed to `gabble_muc_channel_send_presence`, in
      order; `openedTo` the members `gabble_call_member_open_session` was called on, in order. */
  datatype Chan = Chan(
    state: CallState,
    before: seq<Member>,
    after: seq<Member>,
    sessionsToOpen: seq<Member>,
    sessionsOpened: bool,
    muji: Option<Tree>,
    members: set<Member>,
    openedTo: seq<Member>,
    sent: seq<Note>)

  const FreshChan := Chan(NotJoined, [], [], [], false, None, {}, [], [])

  /** The presence carries whatever `priv->muji` is at that moment (the pre-presence handler). */
  function SendPresence(c: Chan): Chan {
    c.(sent := c.sent + [Presence(c.muji)])
  }

  function DoUpdate(c: Chan, gotCodecs: bool): Chan {
    match c.state
    case Preparing =>
      if !gotCodecs then c
      else SendPresence(c.(muji := Some(Tree(true, [])), state := PreparingSent))
    case Stable =>
      if c.muji.None? then c
      else SendPresence(c.(muji := Some(Tree(true, c.muji.value.contents)), state := PreparingSent))
    case _ => c
  }

  function Accept(c: Chan, gotCodecs: bool): Chan {
    if c.state != NotJoined then c else DoUpdate(c.(state := Preparing), gotCodecs)
  }

  function Leave(c: Chan): Chan {
    if c.state == Left then c else SendPresence(c.(muji := None, state := Left))
  }

  /** `contents` is what the call's contents are at the moment the turn comes. */
  function SendNewState(c: Chan, contents: seq<nat>): Chan {
    SendPresence(c.(before := c.after, after := c.before, muji := Some(Tree(false, contents)), state := Stable))
  }

  function OpenNewStreams(c: Chan): Chan {
    c.(sessionsOpened := true, sessionsToOpen := [], openedTo := c.openedTo + c.sessionsToOpen)
  }

  function RemoveMember(c: Chan, who: Member): Chan {
    c.(before := RemoveFirst(c.before, who), after := RemoveFirst(c.after, who),
       sessionsToOpen := RemoveFirst(c.sessionsToOpen, who), members := c.members - {who})
  }

  function GotPresence(c: Chan, who: Member, muji: Option<Tree>, contents: seq<nat>): Chan {
    if muji.None? then
      if who in c.members then RemoveMember(c, who) else c
    else
      var c1 := c.(members := c.members + {who},
                   sessionsToOpen := if !c.sessionsOpened && BeforeWait(c.state)
                                     then c.sessionsToOpen + [who] else c.sessionsToOpen);
      if muji.value.preparing then
        if who in c1.before || who in c1.after then c1
        else if c1.state != WaitForTurn then c1.(before := c1.before + [who])
        else c1.(after := c1.after + [who])
      else
        var c2 := c1.(before := RemoveFirst(c1.before, who), after := RemoveFirst(c1.after, who));
        if c2.state == WaitForTurn && c2.before == [] then SendNewState(c2, contents) else c2
  }

  function MemberLeft(c: Chan, who: Member): Chan {
    if who in c.members then RemoveMember(c, who) else c
  }

  function OwnPresence(c: Chan, muji: Option<Tree>, contents: seq<nat>): Chan {
    if muji.None? || c.muji.None? || muji.value != c.muji.value then c
    else match c.state
      case PreparingSent =>
        var c1 := c.(state := WaitForTurn);
        if c1.before == [] then SendNewState(c1, contents) else c1
      case Stable => OpenNewStreams(c)
      case _ => c
  }

  /** What one note of the room does to the channel of `self`. */
  function Hear(c: Chan, self: Member, who: Member, note: Note, contents: seq<nat>): Chan {
    match note
    case Presence(muji) =>
      if who == self then OwnPresence(c, muji, contents) else GotPresence(c, who, muji, contents)
    case Unavailable =>
      if who == self then c else MemberLeft(c, who)
  }

  /** `call_muc_channel_update_all_members`: the presences already known when the channel starts
      listening, in whatever order the table of members yields them. */
  function UpdateAllMembers(c: Chan, known: seq<(Member, Option<Tree>)>): Chan {
    if known == [] then c
    else
      var last := known[|known| - 1];
      GotPresence(UpdateAllMembers(c, known[..|known| - 1]), last.0, last.1, [])
  }
}
