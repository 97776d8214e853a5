/** The tables of OLPC activities, with their shared objects and reference counts, behave like a plain
    list of who has announced, invited to or joined what: an activity is there as long as anybody holds
    it, and has the id it was last given. */
module OlpcLedger {
  import opened Common
  import opened OlpcSpec
  import opened OlpcAccounting

  type Pair = (Contact, Room)

  /** Who has announced which room and who has invited to which, the rooms joined, the current activities,
      the references that nobody gives back, and the ids. */
  datatype Ledger = Ledger(
    announced: set<Pair>, invited: set<Pair>, open: multiset<Room>, current: map<Contact, Room>,
    strays: multiset<Room>, ids: map<Room, Option<string>>)

  const Blank := Ledger({}, {}, multiset{}, map[], multiset{}, map[])

  ghost predicate Exists(l: Ledger, r: Room) {
    || (exists c :: (c, r) in l.announced)
    || (exists c :: (c, r) in l.invited)
    || r in l.open
    || (exists c :: c in l.current && l.current[c] == r)
    || r in l.strays
  }

  function IdOf(l: Ledger, r: Room): Option<string> { if r in l.ids then l.ids[r] else None }

  function Without(pairs: set<Pair>, c: Contact): set<Pair> { set p | p in pairs && p.0 != c }

  function With(c: Contact, rooms: set<Room>): set<Pair> { set r | r in rooms :: (c, r) }

  /** The rooms of a list, of those items that have an id and a room. */
  function Rooms(items: seq<Item>): set<Room>
    decreases |items|
  {
    if items == [] then {}
    else (if items[0].id.Some? && items[0].room.Some? then {items[0].room.value} else {}) + Rooms(items[1..])
  }

  /** The id with which such an item lists a room first. */
  function FirstId(items: seq<Item>, r: Room): Option<string>
    decreases |items|
  {
    if items == [] then None
    else if items[0].id.Some? && items[0].room == Some(r) then items[0].id
    else FirstId(items[1..], r)
  }

  /** The rooms of the user's own list, or of its part before one that is invalid. */
  function OwnRooms(items: seq<Item>): set<Room>
    decreases |items|
  {
    if items == [] || items[0].room.None? then {} else {items[0].room.value} + OwnRooms(items[1..])
  }

  function OwnId(items: seq<Item>, r: Room): Option<string>
    decreases |items|
  {
    if items == [] || items[0].room.None? then None
    else if items[0].room.value == r then items[0].id
    else OwnId(items[1..], r)
  }

  predicate AllValid(items: seq<Item>) { forall k :: 0 <= k < |items| ==> items[k].room.Some? }

  function Given(l: Ledger, rooms: set<Room>, ids: map<Room, Option<string>>): map<Room, Option<string>>
    requires rooms <= ids.Keys
  {
    map r | r in l.ids.Keys + rooms :: if r in rooms then ids[r] else l.ids[r]
  }

  function Named(l: Ledger, r: Room, id: Option<string>): Ledger { l.(ids := l.ids[r := id]) }

  // ---- What each action does to the list ----

  function EnterAnnounced(l: Ledger, c: Contact, items: seq<Item>): Ledger {
    l.(announced := Without(l.announced, c) + With(c, Rooms(items)),
       ids := Given(l, Rooms(items), map r | r in Rooms(items) :: FirstId(items, r)))
  }

  function EnterOwn(l: Ledger, me: Contact, items: seq<Item>): Ledger {
    l.(announced := if AllValid(items) then Without(l.announced, me) + With(me, OwnRooms(items)) else l.announced,
       ids := Given(l, OwnRooms(items), map r | r in OwnRooms(items) :: OwnId(items, r)))
  }

  ghost function EnterAdded(l: Ledger, me: Contact, r: Room, id: string): Ledger {
    if (me, r) in l.announced then l
    else
      Named(l.(announced := l.announced + {(me, r)},
               strays := if Exists(l, r) then l.strays else l.strays + multiset{r}), r, Some(id))
  }

  ghost function EnterCurrent(l: Ledger, c: Contact, r: Room, id: Option<string>, create: bool): Ledger {
    if Exists(l, r) then Cached(l, c, r, id)
    else if create then Cached(l.(announced := l.announced + {(c, r)}), c, r, id)
    else l.(current := l.current - {c})
  }

  function Cached(l: Ledger, c: Contact, r: Room, id: Option<string>): Ledger {
    Named(l.(current := l.current[c := r]), r, id)
  }

  ghost function EnterProperties(l: Ledger, from: Sender, r: Room): Ledger {
    if Exists(l, r) || from == Unknown then l
    else if from == NoSender then l.(strays := l.strays + multiset{r})
    else l.(announced := l.announced + {(from.contact, r)})
  }

  function EnterInvited(l: Ledger, c: Contact, r: Room, id: string): Ledger {
    Named(l.(invited := l.invited + {(c, r)}), r, Some(id))
  }

  function EnterUninvited(l: Ledger, c: Contact, r: Room, id: string): Ledger {
    if (c, r) !in l.invited then l
    else l.(invited := l.invited - {(c, r)}, strays := if IdOf(l, r) == Some(id) then l.strays else l.strays + multiset{r})
  }

  function EnterShut(l: Ledger, me: Contact, r: Room): Ledger {
    l.(announced := l.announced - {(me, r)}, open := l.open - multiset{r})
  }

  function EnterJoined(l: Ledger, r: Room, contacts: seq<Contact>): Ledger {
    l.(invited := set p | p in l.invited && !(p.0 in contacts && p.1 == r))
  }

  function EnterGone(l: Ledger, c: Contact): Ledger {
    l.(announced := Without(l.announced, c), invited := Without(l.invited, c))
  }

  ghost function Enter(me: Contact, l: Ledger, act: Action): Ledger {
    match act
    case Announced(c, items) => EnterAnnounced(l, c, items)
    case SetOwn(items) => if NoRepeat(items, {}) then EnterOwn(l, me, items) else l
    case AddOwn(r, id) => EnterAdded(l, me, r, id)
    case Current(c, r, id, create) => EnterCurrent(l, c, r, id, create)
    case Properties(from, r) => EnterProperties(l, from, r)
    case Invited(c, r, id) => EnterInvited(l, c, r, id)
    case InRoom(r, id) => if r in l.open then Named(l, r, Some(id)) else l
    case Uninvited(c, r, id) => EnterUninvited(l, c, r, id)
    case Opened(r) => l.(open := l.open + multiset{r})
    case Shut(r) => if r in l.open then EnterShut(l, me, r) else l
    case Joined(r, contacts) => if r in l.open then EnterJoined(l, r, contacts) else l
    case Gone(c) => EnterGone(l, c)
    case Listed(_) => l
  }

  /** An activity that nobody holds is forgotten, with its id. */
  ghost function Trim(l: Ledger): Ledger { l.(ids := map r | r in l.ids && Exists(l, r) :: l.ids[r]) }

  ghost function Entered(me: Contact, acts: seq<Action>): Ledger {
    if acts == [] then Blank else Trim(Enter(me, Entered(me, acts[..|acts| - 1]), acts[|acts| - 1]))
  }

  // ---- The tables agree with the list ----

  ghost predicate SameSets(m: map<Contact, set<Room>>, pairs: set<Pair>) {
    forall c: Contact, r: Room :: r in RoomsOf(m, c) <==> (c, r) in pairs
  }

  ghost predicate SameTables(s: Olpc, l: Ledger) {
    && SameSets(s.pep, l.announced) && SameSets(s.invited, l.invited)
    && s.channels == l.open && s.current == l.current && s.leaked == l.strays
  }

  function Id(s: Olpc, r: Room): Option<string> { if r in s.info then s.info[r].id else None }

  ghost predicate SameIds(s: Olpc, l: Ledger) { forall r :: r in s.info ==> s.info[r].id == IdOf(l, r) }

  /** The ids of what is not there are forgotten. */
  ghost predicate Agrees(s: Olpc, l: Ledger) {
    SameTables(s, l) && SameIds(s, l) && forall r :: r !in s.info ==> r !in l.ids
  }

  lemma {:induction false} HoldersSome(m: map<Contact, set<Room>>, pairs: set<Pair>, r: Room)
    requires SameSets(m, pairs)
    ensures |Holders(m, r)| > 0 <==> exists c :: (c, r) in pairs
  {
    if c :| (c, r) in pairs {
      assert r in RoomsOf(m, c);
      assert c in Holders(m, r);
    }
    if |Holders(m, r)| > 0 {
      var c :| c in Holders(m, r);
      assert r in RoomsOf(m, c);
    }
  }

  lemma {:induction false} CurrentsSome(m: map<Contact, Room>, r: Room)
    ensures |Currents(m, r)| > 0 <==> exists c :: c in m && m[c] == r
  {
    if c :| c in m && m[c] == r { assert c in Currents(m, r); }
    if |Currents(m, r)| > 0 { var c :| c in Currents(m, r); }
  }

  /** An activity is there exactly while somebody in the list holds it. */
  lemma {:induction false} ExistsIff(s: Olpc, l: Ledger, r: Room)
    requires Inv(s) && SameTables(s, l)
    ensures r in s.info <==> Exists(l, r)
  {
    HoldersSome(s.pep, l.announced, r);
    HoldersSome(s.invited, l.invited, r);
    CurrentsSome(s.current, r);
    assert Refs(s, r) == Held(s, r);
  }

  lemma {:induction false} TrimAgrees(s: Olpc, l: Ledger)
    requires Inv(s) && SameTables(s, l) && SameIds(s, l)
    ensures Agrees(s, Trim(l))
  {
    forall r ensures r in s.info <==> Exists(l, r) { ExistsIff(s, l, r); }
  }

  // ---- What the operations do to ids ----

  /** What is there has the id it had, or none if it is new. */
  ghost predicate KeepsIds(s: Olpc, s': Olpc) { forall r :: r in s'.info ==> s'.info[r].id == Id(s, r) }

  /** Some may be gone, what is left keeps its id. */
  ghost predicate Shrinks(s: Olpc, s': Olpc) {
    forall r :: r in s'.info ==> r in s.info && s'.info[r].id == s.info[r].id
  }

  /** Only the objects differ. */
  predicate SameHolders(s: Olpc, s': Olpc) {
    && s'.pep == s.pep && s'.invited == s.invited && s'.channels == s.channels && s'.current == s.current
    && s'.leaked == s.leaked
  }

  lemma {:induction false} HoldIds(s: Olpc, r: Room)
    ensures var s' := Hold(s, r); SameHolders(s, s') && KeepsIds(s, s') && r in s'.info
  {
  }

  lemma {:induction false} RefIds(s: Olpc, r: Room)
    requires r in s.info
    ensures var s' := Ref(s, r); SameHolders(s, s') && KeepsIds(s, s') && s'.info.Keys == s.info.Keys
  {
  }

  lemma {:induction false} SetIdIds(s: Olpc, r: Room, id: Option<string>)
    requires r in s.info
    ensures var s' := SetId(s, r, id); SameHolders(s, s') && GivesId(s, s', r, id) && s'.info.Keys == s.info.Keys
  {
  }

  lemma {:induction false} UnrefIds(s: Olpc, r: Room)
    ensures SameHolders(s, Unref(s, r)) && Shrinks(s, Unref(s, r))
  {
  }

  lemma {:induction false} ShrinkKeeps(s: Olpc, s1: Olpc, s2: Olpc)
    requires KeepsIds(s, s1) && Shrinks(s1, s2)
    ensures KeepsIds(s, s2)
  {
  }

  lemma {:induction false} ShrinkGives(s: Olpc, s1: Olpc, s2: Olpc, r: Room, id: Option<string>)
    requires GivesId(s, s1, r, id) && Shrinks(s1, s2)
    ensures GivesId(s, s2, r, id)
  {
  }

  lemma {:induction false} KeepGives(s: Olpc, s1: Olpc, s2: Olpc, r: Room, id: Option<string>)
    requires KeepsIds(s, s1) && GivesId(s1, s2, r, id) && s2.info.Keys <= s1.info.Keys
    ensures GivesId(s, s2, r, id)
  {
  }

  /** The same, but one has been given an id. */
  ghost predicate GivesId(s: Olpc, s': Olpc, r: Room, id: Option<string>) {
    forall q :: q in s'.info ==> s'.info[q].id == if q == r then id else Id(s, q)
  }

  lemma {:induction false} KeptIds(s: Olpc, l: Ledger, s': Olpc, l': Ledger)
    requires Agrees(s, l) && KeepsIds(s, s') && l'.ids == l.ids
    ensures SameIds(s', l')
  {
  }

  lemma {:induction false} GivenId(s: Olpc, l: Ledger, s': Olpc, l': Ledger, r: Room, id: Option<string>)
    requires Agrees(s, l) && GivesId(s, s', r, id) && l'.ids == l.ids[r := id]
    ensures SameIds(s', l')
  {
  }

  lemma {:induction false} CollectOneIds(s: Olpc, item: Item, rooms: set<Room>)
    requires rooms <= s.info.Keys
    ensures var (s', rooms') := CollectOne(s, item, rooms); var valid := item.id.Some? && item.room.Some?;
            && SameHolders(s, s') && rooms' <= s'.info.Keys
            && rooms' == (if valid then rooms + {item.room.value} else rooms)
            && (forall r :: r in s'.info ==>
                  s'.info[r].id == if valid && item.room == Some(r) && r !in rooms then item.id else Id(s, r))
  {
    if item.id.Some? && item.room.Some? {
      var r := item.room.value;
      if r in rooms {
        assert rooms + {r} == rooms;
      } else {
        var s1 := Check(s, r !in rooms);
        HoldIds(s1, r);
        SetIdIds(Hold(s1, r), r, item.id);
      }
    }
  }

  lemma {:induction false} CollectIds(s: Olpc, items: seq<Item>, rooms: set<Room>)
    requires rooms <= s.info.Keys
    ensures var (s', rooms') := Collect(s, items, rooms);
            && rooms' == rooms + Rooms(items) && rooms' <= s'.info.Keys && SameHolders(s, s')
            && forall r :: r in s'.info ==>
                 s'.info[r].id == if r in Rooms(items) && r !in rooms then FirstId(items, r) else Id(s, r)
    decreases |items|
  {
    if items == [] {
      assert rooms + {} == rooms;
    } else {
      CollectOneIds(s, items[0], rooms);
      var (s1, rooms1) := CollectOne(s, items[0], rooms);
      CollectIds(s1, items[1..], rooms1);
      assert rooms1 + Rooms(items[1..]) == rooms + Rooms(items);
      CollectedIds(s, s1, Collect(s, items, rooms).0, items, rooms, rooms1);
    }
  }

  /** The first item and the rest together. */
  lemma {:induction false} CollectedIds(
    s: Olpc, s1: Olpc, s': Olpc, items: seq<Item>, rooms: set<Room>, rooms1: set<Room>)
    requires items != [] && rooms <= s.info.Keys
    requires var item := items[0]; var valid := item.id.Some? && item.room.Some?;
             && rooms1 == (if valid then rooms + {item.room.value} else rooms) && rooms1 <= s1.info.Keys
             && forall r :: r in s1.info ==>
                  s1.info[r].id == if valid && item.room == Some(r) && r !in rooms then item.id else Id(s, r)
    requires forall r :: r !in s1.info ==> r !in s.info
    requires forall r :: r in s'.info ==>
               s'.info[r].id == if r in Rooms(items[1..]) && r !in rooms1 then FirstId(items[1..], r) else Id(s1, r)
    ensures forall r :: r in s'.info ==>
              s'.info[r].id == if r in Rooms(items) && r !in rooms then FirstId(items, r) else Id(s, r)
  {
  }

  lemma {:induction false} CollectOwnIds(s: Olpc, items: seq<Item>, rooms: set<Room>)
    requires rooms <= s.info.Keys && NoRepeat(items, rooms)
    ensures var (s', rooms') := CollectOwn(s, items, rooms);
            && (rooms'.Some? <==> AllValid(items))
            && (rooms'.Some? ==> rooms'.value == rooms + OwnRooms(items)) && SameHolders(s, s')
            && forall r :: r in s'.info ==>
                 s'.info[r].id == if r in OwnRooms(items) && r !in rooms then OwnId(items, r) else Id(s, r)
    decreases |items|
  {
    if items == [] {
      assert rooms + {} == rooms;
    } else if items[0].room.Some? {
      var r := items[0].room.value;
      HoldIds(s, r);
      SetIdIds(Hold(s, r), r, items[0].id);
      var s1 := SetId(Hold(s, r), r, items[0].id);
      CollectOwnIds(s1, items[1..], rooms + {r});
      assert rooms + {r} + OwnRooms(items[1..]) == rooms + OwnRooms(items);
      assert AllValid(items) <==> AllValid(items[1..]);
      assert forall q :: q in s1.info ==> s1.info[q].id == if q == r then items[0].id else Id(s, q);
    }
  }

  // ---- Each action ----

  lemma {:induction false} ReplaceSets(m: map<Contact, set<Room>>, pairs: set<Pair>, c: Contact, rooms: set<Room>)
    requires SameSets(m, pairs)
    ensures SameSets(m[c := rooms], Without(pairs, c) + With(c, rooms))
  {
  }

  lemma {:induction false} AddSets(m: map<Contact, set<Room>>, pairs: set<Pair>, c: Contact, r: Room)
    requires SameSets(m, pairs)
    ensures SameSets(m[c := RoomsOf(m, c) + {r}], pairs + {(c, r)})
  {
  }

  lemma {:induction false} TakeSets(m: map<Contact, set<Room>>, pairs: set<Pair>, c: Contact, r: Room)
    requires SameSets(m, pairs) && c in m
    ensures SameSets(m[c := m[c] - {r}], pairs - {(c, r)})
  {
  }

  lemma {:induction false} DropSets(m: map<Contact, set<Room>>, pairs: set<Pair>, c: Contact)
    requires SameSets(m, pairs)
    ensures SameSets(m - {c}, Without(pairs, c))
  {
  }

  ghost predicate Follows(s: Olpc, l: Ledger) { SameTables(s, l) && SameIds(s, l) }

  /** Ids given to all of some rooms. */
  lemma {:induction false} GivenMany(
    s: Olpc, l: Ledger, s': Olpc, l': Ledger, rooms: set<Room>, ids: map<Room, Option<string>>)
    requires Agrees(s, l) && rooms <= ids.Keys && l'.ids == Given(l, rooms, ids)
    requires forall r :: r in s'.info ==> s'.info[r].id == if r in rooms then ids[r] else Id(s, r)
    ensures SameIds(s', l')
  {
  }

  lemma {:induction false} ReplaceTables(s: Olpc, c: Contact, rooms: set<Room>)
    ensures var s' := Replace(s, c, rooms);
            && s'.pep == s.pep[c := rooms] && s'.invited == s.invited && s'.channels == s.channels
            && s'.current == s.current && s'.leaked == s.leaked && Shrinks(s, s')
  {
  }

  lemma {:induction false} AnnouncedFollows(s: Olpc, l: Ledger, c: Contact, items: seq<Item>)
    requires Agrees(s, l)
    ensures Follows(ExtractActivities(s, c, items), EnterAnnounced(l, c, items))
  {
    CollectIds(s, items, {});
    var (s1, rooms) := Collect(s, items, {});
    assert rooms == Rooms(items);
    ReplaceTables(s1, c, rooms);
    ReplaceSets(s1.pep, l.announced, c, rooms);
    GivenMany(s, l, Replace(s1, c, rooms), EnterAnnounced(l, c, items), rooms, map r | r in rooms :: FirstId(items, r));
  }

  lemma {:induction false} SetOwnFollows(me: Contact, s: Olpc, l: Ledger, items: seq<Item>)
    requires Agrees(s, l) && NoRepeat(items, {})
    ensures Follows(SetActivities(s, me, items), EnterOwn(l, me, items))
  {
    CollectOwnIds(s, items, {});
    var (s1, rooms) := CollectOwn(s, items, {});
    var own, l' := OwnRooms(items), EnterOwn(l, me, items);
    var ids := map r | r in own :: OwnId(items, r);
    if rooms.Some? {
      assert rooms.value == own;
      ReplaceTables(s1, me, own);
      ReplaceSets(s1.pep, l.announced, me, own);
      GivenMany(s, l, Replace(s1, me, own), l', own, ids);
    } else {
      GivenMany(s, l, s1, l', own, ids);
    }
  }

  lemma {:induction false} AddOwnTables(me: Contact, s: Olpc, r: Room, id: string)
    requires r !in RoomsOf(s.pep, me)
    ensures var s' := AddActivity(s, me, r, id);
            && s'.pep == s.pep[me := RoomsOf(s.pep, me) + {r}] && s'.invited == s.invited && s'.channels == s.channels
            && s'.current == s.current && s'.leaked == (if r in s.info then s.leaked else s.leaked + multiset{r})
            && GivesId(s, s', r, Some(id))
  {
    var s1 := if r in s.info then s else Create(s, r).(leaked := s.leaked + multiset{r});
    RefIds(s1, r);
    SetIdIds(Ref(s1, r), r, Some(id));
    assert KeepsIds(s, s1);
    assert KeepsIds(s, Ref(s1, r));
    KeepGives(s, Ref(s1, r), SetId(Ref(s1, r), r, Some(id)), r, Some(id));
  }

  lemma {:induction false} AddOwnFollows(me: Contact, s: Olpc, l: Ledger, r: Room, id: string)
    requires Inv(s) && Agrees(s, l)
    ensures Follows(AddActivity(s, me, r, id), EnterAdded(l, me, r, id))
  {
    if r !in RoomsOf(s.pep, me) {
      ExistsIff(s, l, r);
      AddSets(s.pep, l.announced, me, r);
      AddOwnTables(me, s, r, id);
      GivenId(s, l, AddActivity(s, me, r, id), EnterAdded(l, me, r, id), r, Some(id));
    }
  }

  lemma {:induction false} PropertiesFollows(s: Olpc, l: Ledger, from: Sender, r: Room)
    requires Inv(s) && Agrees(s, l)
    ensures Follows(UpdateProperties(s, from, r), EnterProperties(l, from, r))
  {
    ExistsIff(s, l, r);
    if r !in s.info && from.Known? {
      CreateFollows(s, l, from.contact, r);
      KeptIds(s, l, CreateInSet(s, r, from.contact), EnterProperties(l, from, r));
    } else if r !in s.info && from.NoSender? {
      KeptIds(s, l, UpdateProperties(s, from, r), EnterProperties(l, from, r));
    }
  }

  lemma {:induction false} InvitedTables(s: Olpc, c: Contact, r: Room, id: string)
    ensures var s' := Invite(s, c, r, id);
            && s'.pep == s.pep && s'.channels == s.channels && s'.current == s.current && s'.leaked == s.leaked
            && s'.invited == s.invited[c := RoomsOf(s.invited, c) + {r}]
            && GivesId(s, s', r, Some(id))
  {
    var theirs := RoomsOf(s.invited, c);
    var s1 := if r in theirs && r in s.info then s else Hold(s, r);
    HoldIds(s, r);
    assert KeepsIds(s, s1) && r in s1.info;
    var s2 := s1.(invited := s1.invited[c := theirs + {r}]);
    SetIdIds(s2, r, Some(id));
    KeepGives(s, s2, SetId(s2, r, Some(id)), r, Some(id));
  }

  lemma {:induction false} InvitedFollows(s: Olpc, l: Ledger, c: Contact, r: Room, id: string)
    requires Agrees(s, l)
    ensures Follows(Invite(s, c, r, id), EnterInvited(l, c, r, id))
  {
    AddSets(s.invited, l.invited, c, r);
    InvitedTables(s, c, r, id);
    GivenId(s, l, Invite(s, c, r, id), EnterInvited(l, c, r, id), r, Some(id));
  }

  lemma {:induction false} UninvitedTables(s: Olpc, c: Contact, r: Room, id: string)
    requires r in RoomsOf(s.invited, c) && r in s.info
    ensures var s' := Uninvite(s, c, r, id);
            && s'.pep == s.pep && s'.channels == s.channels && s'.current == s.current
            && s'.leaked == (if s.info[r].id == Some(id) then s.leaked else s.leaked + multiset{r})
            && s'.invited == s.invited[c := s.invited[c] - {r}] && Shrinks(s, s')
  {
    UnrefIds(s.(invited := s.invited[c := s.invited[c] - {r}]), r);
  }

  lemma {:induction false} UninvitedFollows(s: Olpc, l: Ledger, c: Contact, r: Room, id: string)
    requires Inv(s) && Agrees(s, l)
    ensures Follows(Uninvite(s, c, r, id), EnterUninvited(l, c, r, id))
  {
    if r in RoomsOf(s.invited, c) {
      TakeSets(s.invited, l.invited, c, r);
      ExistsIff(s, l, r);
      UninvitedTables(s, c, r, id);
      KeptIds(s, l, Uninvite(s, c, r, id), EnterUninvited(l, c, r, id));
    }
  }

  lemma {:induction false} ShutTables(s: Olpc, me: Contact, r: Room)
    ensures var s' := ChannelClosed(s, me, r);
            && s'.channels == s.channels - multiset{r} && s'.invited == s.invited && s'.current == s.current
            && s'.leaked == s.leaked
            && s'.pep == (if r in RoomsOf(s.pep, me) then s.pep[me := s.pep[me] - {r}] else s.pep)
            && KeepsIds(s, s')
  {
    var s1 := s;
    if r in RoomsOf(s.pep, me) {
      var s0 := s.(pep := s.pep[me := s.pep[me] - {r}]);
      UnrefIds(s0, r);
      s1 := Unref(s0, r);
    }
    UnrefIds(s1, r);
    assert Shrinks(s, s1);
    ShrinkKeeps(s, s1, Unref(s1, r));
  }

  lemma {:induction false} ShutFollows(me: Contact, s: Olpc, l: Ledger, r: Room)
    requires Agrees(s, l) && r in s.channels
    ensures Follows(ChannelClosed(s, me, r), EnterShut(l, me, r))
  {
    if r in RoomsOf(s.pep, me) {
      TakeSets(s.pep, l.announced, me, r);
    } else {
      assert l.announced - {(me, r)} == l.announced;
    }
    ShutTables(s, me, r);
    KeptIds(s, l, ChannelClosed(s, me, r), EnterShut(l, me, r));
  }

  lemma {:induction false} GoneFollows(s: Olpc, l: Ledger, c: Contact)
    requires Agrees(s, l)
    ensures Follows(PresenceLost(s, c), EnterGone(l, c))
  {
    DropSets(s.pep, l.announced, c);
    DropSets(s.invited, l.invited, c);
  }

  lemma {:induction false} ForgetOneKeeps(s: Olpc, c: Contact, r: Room)
    ensures var s' := ForgetInvite(s, c, r);
            && Shrinks(s, s')
            && s'.pep == s.pep && s'.channels == s.channels && s'.current == s.current && s'.leaked == s.leaked
  {
    if r in RoomsOf(s.invited, c) {
      UnrefIds(BuddyActivities(s.(invited := s.invited[c := s.invited[c] - {r}]), c), r);
    }
  }

  lemma {:induction false} ForgetKeeps(s: Olpc, contacts: seq<Contact>, r: Room)
    ensures var s' := ForgetInvites(s, contacts, r);
            && Shrinks(s, s')
            && s'.pep == s.pep && s'.channels == s.channels && s'.current == s.current && s'.leaked == s.leaked
    decreases |contacts|
  {
    if contacts != [] {
      ForgetOneKeeps(s, contacts[0], r);
      ForgetKeeps(ForgetInvite(s, contacts[0], r), contacts[1..], r);
    }
  }

  lemma {:induction false} JoinedFollows(s: Olpc, l: Ledger, r: Room, contacts: seq<Contact>)
    requires Agrees(s, l) && r in s.channels
    ensures Follows(ForgetInvites(s, contacts, r), EnterJoined(l, r, contacts))
  {
    ForgetKeeps(s, contacts, r);
    var s', l' := ForgetInvites(s, contacts, r), EnterJoined(l, r, contacts);
    forall c: Contact, q: Room ensures q in RoomsOf(s'.invited, c) <==> (c, q) in l'.invited { JoinForgets(s, contacts, r, c); }
  }

  /** Making an activity that is missing, in the set of a contact. */
  lemma {:induction false} CreateFollows(s: Olpc, l: Ledger, c: Contact, r: Room)
    requires Agrees(s, l) && r !in s.info
    ensures SameTables(CreateInSet(s, r, c), l.(announced := l.announced + {(c, r)}))
    ensures KeepsIds(s, CreateInSet(s, r, c)) && r in CreateInSet(s, r, c).info
  {
    AddSets(s.pep, l.announced, c, r);
  }

  /** The cache of a contact is set to an activity that is there. */
  lemma {:induction false} CacheTables(s: Olpc, c: Contact, r: Room, id: Option<string>)
    requires r in s.info
    ensures var s3 := Ref(SetId(s, r, id), r).(current := s.current[c := r]);
            var s' := if c in s.current then Unref(s3, s.current[c]) else s3;
            && s'.pep == s.pep && s'.invited == s.invited && s'.channels == s.channels && s'.leaked == s.leaked
            && s'.current == s.current[c := r] && GivesId(s, s', r, id)
  {
    SetIdIds(s, r, id);
    var s2 := SetId(s, r, id);
    RefIds(s2, r);
    var s3 := Ref(s2, r).(current := s.current[c := r]);
    assert GivesId(s, s3, r, id);
    if c in s.current {
      UnrefIds(s3, s.current[c]);
      ShrinkGives(s, s3, Unref(s3, s.current[c]), r, id);
    }
  }

  lemma {:induction false} CacheFollows(s1: Olpc, l1: Ledger, s: Olpc, l: Ledger, c: Contact, r: Room, id: Option<string>)
    requires Agrees(s, l) && SameTables(s1, l1) && KeepsIds(s, s1) && l1.ids == l.ids && r in s1.info
    ensures var s3 := Ref(SetId(s1, r, id), r).(current := s1.current[c := r]);
            var s' := if c in s1.current then Unref(s3, s1.current[c]) else s3;
            var l' := Named(l1.(current := l1.current[c := r]), r, id);
            SameTables(s', l') && SameIds(s', l')
  {
    CacheTables(s1, c, r, id);
    var s3 := Ref(SetId(s1, r, id), r).(current := s1.current[c := r]);
    var s' := if c in s1.current then Unref(s3, s1.current[c]) else s3;
    assert GivesId(s, s', r, id);
    GivenId(s, l, s', Named(l1.(current := l1.current[c := r]), r, id), r, id);
  }

  lemma {:induction false} ForgetFollows(s: Olpc, l: Ledger, c: Contact)
    requires Agrees(s, l)
    ensures var s', l' := ForgetCurrent(s, c), l.(current := l.current - {c}); SameTables(s', l') && SameIds(s', l')
  {
    assert c !in s.current ==> s.current - {c} == s.current;
    if c in s.current { UnrefIds(s.(current := s.current - {c}), s.current[c]); }
    var s', l' := ForgetCurrent(s, c), l.(current := l.current - {c});
    KeptIds(s, l, s', l');
  }

  lemma {:induction false} CurrentFollows(s: Olpc, l: Ledger, c: Contact, r: Room, id: Option<string>, create: bool)
    requires Inv(s) && Agrees(s, l)
    ensures Follows(CurrentActivity(s, c, r, id, create), EnterCurrent(l, c, r, id, create))
  {
    ExistsIff(s, l, r);
    if r in s.info {
      CacheFollows(s, l, s, l, c, r, id);
    } else if create {
      CreateFollows(s, l, c, r);
      var l1 := l.(announced := l.announced + {(c, r)});
      assert (c, r) in l1.announced;
      assert CreateInSet(s, r, c).current == s.current;
      CacheFollows(CreateInSet(s, r, c), l1, s, l, c, r, id);
    } else {
      ForgetFollows(s, l, c);
    }
  }

  lemma {:induction false} RoomFollows(me: Contact, s: Olpc, l: Ledger, act: Action)
    requires Inv(s) && Agrees(s, l) && Enabled(s, act) && (act.InRoom? || act.Opened? || act.Listed?)
    ensures Follows(Apply(me, s, act), Enter(me, l, act))
  {
    match act
    case InRoom(r, id) =>
      ExistsIff(s, l, r);
      SetIdIds(s, r, Some(id));
      GivenId(s, l, SetId(s, r, Some(id)), Enter(me, l, act), r, Some(id));
    case Opened(r) =>
      HoldIds(s, r);
      KeptIds(s, l, ChannelOpened(s, r), Enter(me, l, act));
    case Listed(_) =>
  }

  lemma {:induction false} ActionFollows(me: Contact, s: Olpc, l: Ledger, act: Action)
    requires Inv(s) && Agrees(s, l) && Enabled(s, act)
    ensures Follows(Apply(me, s, act), Enter(me, l, act))
  {
    match act
    case Announced(c, items) => AnnouncedFollows(s, l, c, items);
    case SetOwn(items) => SetOwnFollows(me, s, l, items);
    case AddOwn(r, id) => AddOwnFollows(me, s, l, r, id);
    case Current(c, r, id, create) => CurrentFollows(s, l, c, r, id, create);
    case Properties(from, r) => PropertiesFollows(s, l, from, r);
    case Invited(c, r, id) => InvitedFollows(s, l, c, r, id);
    case Uninvited(c, r, id) => UninvitedFollows(s, l, c, r, id);
    case Shut(r) => ShutFollows(me, s, l, r);
    case Joined(r, contacts) => JoinedFollows(s, l, r, contacts);
    case Gone(c) => GoneFollows(s, l, c);
    case _ => RoomFollows(me, s, l, act);
  }

  /** An action that is not possible leaves the list as it is. */
  lemma {:induction false} DisabledSame(me: Contact, s: Olpc, l: Ledger, act: Action)
    requires SameTables(s, l) && !Enabled(s, act)
    ensures Enter(me, l, act) == l
  {
  }

  lemma {:induction false} StepFollows(me: Contact, s: Olpc, l: Ledger, act: Action)
    requires Inv(s) && Agrees(s, l)
    ensures SameTables(Step(me, s, act), Enter(me, l, act)) && SameIds(Step(me, s, act), Enter(me, l, act))
  {
    if Enabled(s, act) { ActionFollows(me, s, l, act); } else { DisabledSame(me, s, l, act); }
  }

  // ---- What every run guarantees ----

  /** In every run the tables hold exactly what the list says: the same announcements, invitations,
      rooms and current activities; an activity is there exactly while somebody holds it, and has the id
      it was last given. */
  lemma {:induction false} TablesAreLedger(me: Contact, acts: seq<Action>)
    ensures Agrees(Run(me, acts), Entered(me, acts))
    ensures forall r :: r in Run(me, acts).info <==> Exists(Entered(me, acts), r)
    decreases |acts|
  {
    RunKeeps(me, acts);
    if acts != [] {
      var front, act := acts[..|acts| - 1], acts[|acts| - 1];
      TablesAreLedger(me, front);
      RunKeeps(me, front);
      StepFollows(me, Run(me, front), Entered(me, front), act);
      TrimAgrees(Run(me, acts), Enter(me, Entered(me, front), act));
    }
    forall r ensures r in Run(me, acts).info <==> Exists(Entered(me, acts), r) {
      ExistsIff(Run(me, acts), Entered(me, acts), r);
    }
  }

  /** Listing a contact's activities shows exactly the rooms that it announced or invited to, and whose
      activity has an id, with that id. */
  lemma {:induction false} ListingIsLedger(me: Contact, acts: seq<Action>, c: Contact)
    ensures var s, l := Run(me, acts), Entered(me, acts);
            var listing := WithIds(s.info, RoomsOf(s.pep, c) + RoomsOf(s.invited, c));
            forall r: Room, id :: (r in listing && listing[r] == id)
              <==> ((c, r) in l.announced || (c, r) in l.invited) && IdOf(l, r) == Some(id)
  {
    TablesAreLedger(me, acts);
    var s, l := Run(me, acts), Entered(me, acts);
    forall r: Room ensures r in RoomsOf(s.pep, c) + RoomsOf(s.invited, c) ==> r in s.info {
      if (c, r) in l.announced || (c, r) in l.invited { assert Exists(l, r); }
    }
  }

  lemma {:induction false} RunSnoc(me: Contact, acts: seq<Action>, act: Action)
    ensures Run(me, acts + [act]) == Step(me, Run(me, acts), act)
  {
    assert (acts + [act])[..|acts|] == acts;
  }

  /** After any run, a contact's announcement makes its set exactly the rooms of those items that have an
      id and a room, each with the id of its first such item, and changes nobody else's. */
  lemma {:induction false} AfterAnnouncement(me: Contact, acts: seq<Action>, c: Contact, items: seq<Item>)
    ensures var s, s' := Run(me, acts), Run(me, acts + [Announced(c, items)]);
            && (forall r: Room :: r in RoomsOf(s'.pep, c) <==>
                  exists k :: 0 <= k < |items| && items[k].id.Some? && items[k].room == Some(r))
            && (forall d: Contact :: d != c ==> RoomsOf(s'.pep, d) == RoomsOf(s.pep, d))
            && s'.invited == s.invited
            && (forall k: nat :: IsFirst(items, k) ==> items[k].room.value in s'.info && s'.info[items[k].room.value].id == items[k].id)
  {
    var s, l := Run(me, acts), Entered(me, acts);
    TablesAreLedger(me, acts);
    RunKeeps(me, acts);
    RunSnoc(me, acts, Announced(c, items));
    RunKeeps(me, acts + [Announced(c, items)]);
    var s' := ExtractActivities(s, c, items);
    assert s' == Run(me, acts + [Announced(c, items)]);
    CollectIds(s, items, {});
    var (s1, rooms) := Collect(s, items, {});
    assert rooms == Rooms(items) && RoomsOf(s'.pep, c) == rooms;
    forall r: Room ensures r in Rooms(items) <==> exists k :: 0 <= k < |items| && items[k].id.Some? && items[k].room == Some(r) {
      RoomsMean(items, r);
    }
    forall k: nat | IsFirst(items, k)
      ensures items[k].room.value in s'.info && s'.info[items[k].room.value].id == items[k].id
    {
      FirstMeans(items, k);
      RoomsMean(items, items[k].room.value);
      HeldIsThere(s', c, items[k].room.value);
    }
  }

  lemma {:induction false} HeldIsThere(s: Olpc, c: Contact, r: Room)
    requires Inv(s) && r in RoomsOf(s.pep, c)
    ensures r in s.info
  {
    assert c in Holders(s.pep, r);
    assert Refs(s, r) == Held(s, r);
  }

  /** The item is the first of those with an id and its room. */
  predicate IsFirst(items: seq<Item>, k: nat) {
    && k < |items| && items[k].id.Some? && items[k].room.Some?
    && forall j :: 0 <= j < k ==> items[j].id.None? || items[j].room != items[k].room
  }

  lemma {:induction false} RoomsMean(items: seq<Item>, r: Room)
    ensures r in Rooms(items) <==> exists k :: 0 <= k < |items| && items[k].id.Some? && items[k].room == Some(r)
    decreases |items|
  {
    if items != [] {
      RoomsMean(items[1..], r);
      if k :| 0 <= k < |items| && items[k].id.Some? && items[k].room == Some(r) {
        assert k > 0 ==> items[1..][k - 1] == items[k];
      }
      if k :| 0 <= k < |items[1..]| && items[1..][k].id.Some? && items[1..][k].room == Some(r) {
        assert items[k + 1] == items[1..][k];
      }
    }
  }

  lemma {:induction false} FirstMeans(items: seq<Item>, k: nat)
    requires IsFirst(items, k)
    ensures FirstId(items, items[k].room.value) == items[k].id
    decreases |items|
  {
    if k > 0 {
      assert items[1..][k - 1] == items[k];
      forall j | 0 <= j < k - 1 ensures items[1..][j].id.None? || items[1..][j].room != items[k].room {
        assert items[1..][j] == items[j + 1];
      }
      FirstMeans(items[1..], k - 1);
    }
  }
}
