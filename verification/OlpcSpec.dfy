/** OLPC activities: who holds references on the one activity object of each room
    (src/conn-olpc.c), as functions on the tables of the connection. */
module OlpcSpec {
  import opened Common

  type Room = nat
  type Contact = nat

  /** A live activity object: its reference count and its id. */
  datatype Activity = Activity(refs: nat, id: Option<string>)

  /** `olpc_activities_info`, `olpc_pep_activities`, `olpc_invited_activities`, the open channels
      (one entry each) and `olpc_current_act`. `leaked` records references that nothing will ever
      give back; `failed` an assertion that failed or a reference dropped on a missing object. */
  datatype Olpc = Olpc(
    info: map<Room, Activity>, pep: map<Contact, set<Room>>, invited: map<Contact, set<Room>>,
    channels: multiset<Room>, current: map<Contact, Room>, leaked: multiset<Room>, failed: bool)

  function NewOlpc(): Olpc { Olpc(map[], map[], map[], multiset{}, map[], multiset{}, false) }

  // ---- References ----

  function Check(s: Olpc, holds: bool): Olpc { s.(failed := s.failed || !holds) }

  /** `add_activity_info`: a new object with one reference. */
  function Create(s: Olpc, r: Room): Olpc { s.(info := s.info[r := Activity(1, None)]) }

  function Ref(s: Olpc, r: Room): Olpc {
    if r !in s.info then Check(s, false)
    else s.(info := s.info[r := s.info[r].(refs := s.info[r].refs + 1)])
  }

  /** The last reference disposes of the object and removes it from the table. */
  function Unref(s: Olpc, r: Room): Olpc {
    if r !in s.info then Check(s, false)
    else if s.info[r].refs <= 1 then s.(info := s.info - {r})
    else s.(info := s.info[r := s.info[r].(refs := s.info[r].refs - 1)])
  }

  function SetId(s: Olpc, r: Room, id: Option<string>): Olpc {
    if r !in s.info then Check(s, false) else s.(info := s.info[r := s.info[r].(id := id)])
  }

  /** The table after one reference on each of `rooms` is dropped, in whatever order. */
  function Decremented(info: map<Room, Activity>, rooms: set<Room>): map<Room, Activity> {
    map r | r in info && (r !in rooms || info[r].refs > 1) ::
      if r in rooms then info[r].(refs := info[r].refs - 1) else info[r]
  }

  /** `tp_handle_set_foreach` with `decrement_contacts_activities_set_foreach` */
  function UnrefAll(s: Olpc, rooms: set<Room>): Olpc {
    Check(s, rooms <= s.info.Keys).(info := Decremented(s.info, rooms))
  }

  function RoomsOf(m: map<Contact, set<Room>>, c: Contact): set<Room> { if c in m then m[c] else {} }

  // ---- Activities announced in a list ----

  /** An activity in a list; either part may be missing or invalid. */
  datatype Item = Item(id: Option<string>, room: Option<Room>)

  /** The object of a room gets a reference, and is made if it is not there. */
  function Hold(s: Olpc, r: Room): Olpc {
    if r in s.info then Ref(s, r) else Create(s, r)
  }

  /** The loop of `extract_activities`; returns the rooms collected. */
  function Collect(s: Olpc, items: seq<Item>, rooms: set<Room>): (Olpc, set<Room>)
    decreases |items|
  {
    if items == [] then (s, rooms)
    else
      var (s1, rooms1) := CollectOne(s, items[0], rooms);
      Collect(s1, items[1..], rooms1)
  }

  function CollectOne(s: Olpc, item: Item, rooms: set<Room>): (Olpc, set<Room>) {
    if item.id.None? || item.room.None? then (s, rooms)
    else
      var r := item.room.value;
      if r in s.info && r in rooms then (s, rooms)
      else (SetId(Hold(Check(s, r !in rooms), r), r, item.id), rooms + {r})
  }

  /** The set of `c` is replaced and what it held is given back. */
  function Replace(s: Olpc, c: Contact, rooms: set<Room>): Olpc {
    var s1 := UnrefAll(s, RoomsOf(s.pep, c));
    s1.(pep := s1.pep[c := rooms])
  }

  function ExtractActivities(s: Olpc, sender: Contact, items: seq<Item>): Olpc {
    var (s1, rooms) := Collect(s, items, {});
    Replace(s1, sender, rooms)
  }

  /** The loop of `olpc_buddy_info_set_activities`; an invalid room gives up, and so does one listed
      twice, of which the object is then freed whoever else holds it. */
  function CollectOwn(s: Olpc, items: seq<Item>, rooms: set<Room>): (Olpc, Option<set<Room>>)
    decreases |items|
  {
    if items == [] then (s, Some(rooms))
    else if items[0].room.None? then (UnrefAll(s, rooms), None)
    else
      var r := items[0].room.value;
      if r in s.info && r in rooms then (Check(UnrefAll(s, rooms), false), None) else
      CollectOwn(SetId(Hold(s, r), r, items[0].id), items[1..], rooms + {r})
  }

  function SetActivities(s: Olpc, me: Contact, items: seq<Item>): Olpc {
    var (s1, rooms) := CollectOwn(s, items, {});
    if rooms.None? then s1 else Replace(s1, me, rooms.value)
  }

  // ---- Single activities ----

  /** `olpc_buddy_info_add_activity`: an object made here has a reference too many. */
  function AddActivity(s: Olpc, me: Contact, r: Room, id: string): Olpc {
    if r in RoomsOf(s.pep, me) then s
    else
      var s1 := if r in s.info then s else Create(s, r).(leaked := s.leaked + multiset{r});
      var s2 := SetId(Ref(s1, r), r, Some(id));
      s2.(pep := s2.pep[me := RoomsOf(s2.pep, me) + {r}])
  }

  /** `add_activity_info_in_set` */
  function CreateInSet(s: Olpc, r: Room, c: Contact): Olpc {
    var s1 := Check(Create(s, r), r !in RoomsOf(s.pep, c));
    s1.(pep := s1.pep[c := RoomsOf(s1.pep, c) + {r}])
  }

  function CurrentActivity(s: Olpc, c: Contact, r: Room, id: Option<string>, create: bool): Olpc {
    var s1 := if r !in s.info && create then CreateInSet(s, r, c) else s;
    if r in s1.info then
      var s2 := Ref(SetId(s1, r, id), r);
      var s3 := s2.(current := s2.current[c := r]);
      if c in s.current then Unref(s3, s.current[c]) else s3
    else ForgetCurrent(s1, c)
  }

  function ForgetCurrent(s: Olpc, c: Contact): Olpc {
    if c !in s.current then s
    else Unref(s.(current := s.current - {c}), s.current[c])
  }

  /** Who sent the properties of an activity: no one, someone without a handle, or a contact. */
  datatype Sender = NoSender | Unknown | Known(contact: Contact)

  /** `update_activity_properties`: an object made without a sender belongs to no one. */
  function UpdateProperties(s: Olpc, sender: Sender, r: Room): Olpc {
    if r in s.info then s
    else match sender
      case NoSender => Create(s, r).(leaked := s.leaked + multiset{r})
      case Unknown => s
      case Known(c) => CreateInSet(s, r, c)
  }

  // ---- Invitations ----

  function Invite(s: Olpc, c: Contact, r: Room, id: string): Olpc {
    var theirs := RoomsOf(s.invited, c);
    var s1 := if r in theirs && r in s.info then s else Hold(s, r);
    var s2 := SetId(s1.(invited := s1.invited[c := theirs + {r}]), r, Some(id));
    if r in theirs then s2 else BuddyActivities(s2, c)
  }

  /** Properties sent to a room in which there is a channel. */
  function RoomProperties(s: Olpc, r: Room, id: string): Olpc { SetId(s, r, Some(id)) }

  /** The invitation is forgotten even if the id is not the activity's; the reference is then lost. */
  function Uninvite(s: Olpc, c: Contact, r: Room, id: string): Olpc {
    if r !in RoomsOf(s.invited, c) then s
    else
      var s1 := s.(invited := s.invited[c := s.invited[c] - {r}]);
      if r !in s.info then s1
      else if s.info[r].id != Some(id) then s1.(leaked := s.leaked + multiset{r})
      else BuddyActivities(Unref(s1, r), c)
  }

  /** `get_buddy_activities`: every room of a contact must have an object. */
  function BuddyActivities(s: Olpc, c: Contact): Olpc {
    Check(s, RoomsOf(s.pep, c) + RoomsOf(s.invited, c) <= s.info.Keys)
  }

  /** Those of some rooms whose activity has an id, with the id. */
  function WithIds(info: map<Room, Activity>, rooms: set<Room>): map<Room, string> {
    map r | r in rooms && r in info && info[r].id.Some? :: info[r].id.value
  }

  /** `remove_invite_foreach` */
  function ForgetInvite(s: Olpc, c: Contact, r: Room): Olpc {
    if r !in RoomsOf(s.invited, c) then s
    else Unref(BuddyActivities(s.(invited := s.invited[c := s.invited[c] - {r}]), c), r)
  }

  /** `forget_activity_invites`, over the contacts in the order of the hash table. */
  function ForgetInvites(s: Olpc, contacts: seq<Contact>, r: Room): Olpc
    decreases |contacts|
  {
    if contacts == [] then s else ForgetInvites(ForgetInvite(s, contacts[0], r), contacts[1..], r)
  }

  // ---- Channels and presence ----

  function ChannelOpened(s: Olpc, r: Room): Olpc { Hold(s, r).(channels := s.channels + multiset{r}) }

  function ChannelClosed(s: Olpc, me: Contact, r: Room): Olpc {
    var s1 := if r in RoomsOf(s.pep, me) then Unref(s.(pep := s.pep[me := s.pep[me] - {r}]), r) else s;
    Unref(s1, r).(channels := s.channels - multiset{r})
  }

  function PresenceLost(s: Olpc, c: Contact): Olpc {
    var s1 := UnrefAll(s, RoomsOf(s.pep, c)).(pep := s.pep - {c});
    UnrefAll(s1, RoomsOf(s1.invited, c)).(invited := s1.invited - {c})
  }
}
