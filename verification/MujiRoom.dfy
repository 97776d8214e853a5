/** A conference: any number of channels in one chat room. The room puts the presences it is sent
    into one total order (`log`); every participant works through that order at its own pace. */
module MujiRoom {
  import opened Common
  import opened MujiSpec

  datatype Entry = Entry(who: Member, note: Note)

  /** A participant: its channel, where in the room order the presences it sent ended up (`pos`;
      those of `chan.sent` beyond `|pos|` are still on their way to the room), and how much of the
      room order it has heard. Until it is `attached` only the room's member table listens. */
  datatype Node = Node(chan: Chan, pos: seq<nat>, cursor: nat, attached: bool, alive: bool)

  datatype Room = Room(log: seq<Entry>, nodes: map<Member, Node>)

  datatype Action =
    | Attach(p: Member, known: seq<(Member, Option<Tree>)>)
    | UserAccept(p: Member, gotCodecs: bool)
    | MediaUpdate(p: Member, gotCodecs: bool)
    | Hangup(p: Member)
    | Order(p: Member)
    | Deliver(p: Member, contents: seq<nat>)
    | Vanish(p: Member)

  /** Position of the last thing the room said about `m`, or -1. */
  function LastIdx(log: seq<Entry>, m: Member): (i: int)
    ensures -1 <= i < |log|
    ensures 0 <= i ==> log[i].who == m
    ensures forall j :: i < j < |log| ==> log[j].who != m
  {
    if log == [] then -1
    else if log[|log| - 1].who == m then |log| - 1
    else LastIdx(log[..|log| - 1], m)
  }

  /** The last thing heard of `m` is a presence with a `<muji>` element. */
  predicate InCall(seen: seq<Entry>, m: Member) {
    var i := LastIdx(seen, m);
    0 <= i && IsMuji(seen[i].note)
  }

  /** The last thing heard of `m` is that it is preparing. */
  predicate Pending(seen: seq<Entry>, m: Member) {
    var i := LastIdx(seen, m);
    0 <= i && IsPreparing(seen[i].note)
  }

  /** `known` lists, in some order, the members present in the room with their latest presence. */
  ghost predicate IsSnapshot(seen: seq<Entry>, p: Member, known: seq<(Member, Option<Tree>)>) {
    && (forall i, j :: 0 <= i < j < |known| ==> known[i].0 != known[j].0)
    && (forall i :: 0 <= i < |known| ==>
          && known[i].0 != p
          && 0 <= LastIdx(seen, known[i].0)
          && seen[LastIdx(seen, known[i].0)].note == Presence(known[i].1))
    && (forall m :: m != p && 0 <= LastIdx(seen, m) && seen[LastIdx(seen, m)].note.Presence? ==>
          exists i :: 0 <= i < |known| && known[i].0 == m)
  }

  ghost predicate Enabled(r: Room, a: Action) {
    && a.p in r.nodes
    && var n := r.nodes[a.p];
    && n.alive
    && match a
       case Attach(p, known) => !n.attached && n.cursor <= |r.log| && IsSnapshot(r.log[..n.cursor], p, known)
       case UserAccept(_, _) => n.attached
       case MediaUpdate(_, _) => n.attached
       case Hangup(_) => n.attached
       case Order(_) => |n.pos| < |n.chan.sent|
       case Deliver(_, _) => n.cursor < |r.log|
       case Vanish(_) => |n.pos| <= |n.chan.sent|
  }

  function HearNext(log: seq<Entry>, p: Member, n: Node, contents: seq<nat>): Node
    requires n.cursor < |log|
  {
    var e := log[n.cursor];
    n.(cursor := n.cursor + 1,
       chan := if n.attached then Hear(n.chan, p, e.who, e.note, contents) else n.chan)
  }

  ghost function Apply(r: Room, a: Action): Room
    requires Enabled(r, a)
  {
    var n := r.nodes[a.p];
    match a
    case Attach(p, known) =>
      r.(nodes := r.nodes[p := n.(attached := true, chan := UpdateAllMembers(n.chan, known))])
    case UserAccept(p, got) => r.(nodes := r.nodes[p := n.(chan := Accept(n.chan, got))])
    case MediaUpdate(p, got) => r.(nodes := r.nodes[p := n.(chan := DoUpdate(n.chan, got))])
    case Hangup(p) => r.(nodes := r.nodes[p := n.(chan := Leave(n.chan))])
    case Order(p) =>
      Room(r.log + [Entry(p, n.chan.sent[|n.pos|])], r.nodes[p := n.(pos := n.pos + [|r.log|])])
    case Deliver(p, contents) => r.(nodes := r.nodes[p := HearNext(r.log, p, n, contents)])
    case Vanish(p) =>
      // What was still on its way is lost; the room announces the departure.
      Room(r.log + [Entry(p, Unavailable)],
           r.nodes[p := n.(alive := false, pos := n.pos + [|r.log|],
                           chan := n.chan.(sent := n.chan.sent[..|n.pos|] + [Unavailable]))])
  }

  ghost function Step(r: Room, a: Action): Room {
    if Enabled(r, a) then Apply(r, a) else r
  }

  ghost function Init(ps: set<Member>): Room {
    Room([], map p | p in ps :: Node(FreshChan, [], 0, false, true))
  }

  /** The room after any sequence of actions; an action that is not enabled changes nothing. */
  ghost function Run(ps: set<Member>, acts: seq<Action>): Room {
    if acts == [] then Init(ps) else Step(Run(ps, acts[..|acts| - 1]), acts[|acts| - 1])
  }
}
