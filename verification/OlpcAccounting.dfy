/** Conservation of references: in every run, each activity has exactly the references that the sets,
    the channels and the cache hold on it, and those that were leaked. */
module OlpcAccounting {
  import opened Common
  import opened OlpcSpec

  // ---- Who holds what ----

  function Holders(m: map<Contact, set<Room>>, r: Room): set<Contact> { set c | c in m && r in m[c] }

  function Currents(m: map<Contact, Room>, r: Room): set<Contact> { set c | c in m && m[c] == r }

  /** The references held on the activity of a room. */
  function Held(s: Olpc, r: Room): nat {
    |Holders(s.pep, r)| + |Holders(s.invited, r)| + s.channels[r] + |Currents(s.current, r)| + s.leaked[r]
  }

  function Refs(s: Olpc, r: Room): nat { if r in s.info then s.info[r].refs else 0 }

  /** Every reference is held by someone, except for those in `spare`, which are in hand. */
  ghost predicate Balanced(s: Olpc, spare: multiset<Room>) {
    && !s.failed
    && (forall r :: r in s.info ==> s.info[r].refs > 0)
    && (forall r :: Refs(s, r) == Held(s, r) + spare[r])
  }

  ghost predicate Inv(s: Olpc) { Balanced(s, multiset{}) }

  // ---- Giving and taking ----

  /** Everyone but `c`, and `c`. */
  lemma {:induction false} HoldersSplit(m: map<Contact, set<Room>>, c: Contact, r: Room)
    ensures |Holders(m, r)| == |Holders(m - {c}, r)| + (if r in RoomsOf(m, c) then 1 else 0)
  {
    var others := Holders(m - {c}, r);
    assert Holders(m, r) == if r in RoomsOf(m, c) then others + {c} else others;
  }

  lemma {:induction false} HoldersUpdate(m: map<Contact, set<Room>>, c: Contact, rooms: set<Room>, r: Room)
    ensures |Holders(m[c := rooms], r)| + (if r in RoomsOf(m, c) then 1 else 0)
            == |Holders(m, r)| + (if r in rooms then 1 else 0)
  {
    HoldersSplit(m, c, r);
    HoldersSplit(m[c := rooms], c, r);
    assert m[c := rooms] - {c} == m - {c};
  }

  lemma CurrentsUpdate(m: map<Contact, Room>, c: Contact, q: Room, r: Room)
    ensures |Currents(m[c := q], r)| + (if c in m && m[c] == r then 1 else 0)
            == |Currents(m, r)| + (if q == r then 1 else 0)
  {
    var others := Currents(m, r) - {c};
    assert Currents(m[c := q], r) == if q == r then others + {c} else others;
    assert Currents(m, r) == if c in m && m[c] == r then others + {c} else others;
  }

  lemma CurrentsRemove(m: map<Contact, Room>, c: Contact, r: Room)
    ensures |Currents(m - {c}, r)| + (if c in m && m[c] == r then 1 else 0) == |Currents(m, r)|
  {
    var others := Currents(m, r) - {c};
    assert Currents(m - {c}, r) == others;
    assert Currents(m, r) == if c in m && m[c] == r then others + {c} else others;
  }

  /** A set may be given references in hand, and then those it held before are in hand. */
  lemma PepUpdate(s: Olpc, spare: multiset<Room>, c: Contact, rooms: set<Room>)
    requires Balanced(s, spare + multiset(rooms))
    ensures Balanced(s.(pep := s.pep[c := rooms]), spare + multiset(RoomsOf(s.pep, c)))
  {
    var s', spare' := s.(pep := s.pep[c := rooms]), spare + multiset(RoomsOf(s.pep, c));
    forall r ensures Refs(s', r) == Held(s', r) + spare'[r] {
      HoldersUpdate(s.pep, c, rooms, r);
      assert Refs(s, r) == Held(s, r) + (spare + multiset(rooms))[r];
    }
  }

  lemma PepRemove(s: Olpc, spare: multiset<Room>, c: Contact)
    requires Balanced(s, spare)
    ensures Balanced(s.(pep := s.pep - {c}), spare + multiset(RoomsOf(s.pep, c)))
  {
    var s', spare' := s.(pep := s.pep - {c}), spare + multiset(RoomsOf(s.pep, c));
    forall r ensures Refs(s', r) == Held(s', r) + spare'[r] {
      HoldersSplit(s.pep, c, r);
      assert Refs(s, r) == Held(s, r) + spare[r];
    }
  }

  lemma InvitedRemove(s: Olpc, spare: multiset<Room>, c: Contact)
    requires Balanced(s, spare)
    ensures Balanced(s.(invited := s.invited - {c}), spare + multiset(RoomsOf(s.invited, c)))
  {
    var s', spare' := s.(invited := s.invited - {c}), spare + multiset(RoomsOf(s.invited, c));
    forall r ensures Refs(s', r) == Held(s', r) + spare'[r] {
      HoldersSplit(s.invited, c, r);
      assert Refs(s, r) == Held(s, r) + spare[r];
    }
  }

  lemma HoldBalanced(s: Olpc, spare: multiset<Room>, r: Room)
    requires Balanced(s, spare)
    ensures Balanced(Hold(s, r), spare + multiset{r}) && r in Hold(s, r).info
  {
  }

  lemma UnrefBalanced(s: Olpc, spare: multiset<Room>, r: Room)
    requires Balanced(s, spare + multiset{r})
    ensures Balanced(Unref(s, r), spare)
  {
    assert Refs(s, r) == Held(s, r) + (spare + multiset{r})[r];
    var s' := Unref(s, r);
    forall q ensures Refs(s', q) == Held(s', q) + spare[q] {
      assert Refs(s, q) == Held(s, q) + (spare + multiset{r})[q];
    }
  }

  lemma SetIdBalanced(s: Olpc, spare: multiset<Room>, r: Room, id: Option<string>)
    requires Balanced(s, spare) && r in s.info
    ensures Balanced(SetId(s, r, id), spare)
  {
  }

  lemma UnrefAllBalanced(s: Olpc, spare: multiset<Room>, rooms: set<Room>)
    requires Balanced(s, spare + multiset(rooms))
    ensures Balanced(UnrefAll(s, rooms), spare)
  {
    forall r | r in rooms ensures r in s.info {
      assert Refs(s, r) == Held(s, r) + (spare + multiset(rooms))[r];
    }
    var s' := UnrefAll(s, rooms);
    forall r ensures Refs(s', r) == Held(s', r) + spare[r] {
      assert Refs(s, r) == Held(s, r) + (spare + multiset(rooms))[r];
    }
  }

  /** What someone holds or has in hand is there. */
  lemma HeldIsLive(s: Olpc, spare: multiset<Room>, r: Room)
    requires Balanced(s, spare) && (Held(s, r) > 0 || r in spare)
    ensures r in s.info
  {
    assert Refs(s, r) == Held(s, r) + spare[r];
  }

  lemma RoomsLive(s: Olpc, spare: multiset<Room>, c: Contact)
    requires Balanced(s, spare)
    ensures RoomsOf(s.pep, c) + RoomsOf(s.invited, c) <= s.info.Keys
    ensures BuddyActivities(s, c) == s
  {
    forall r | r in RoomsOf(s.pep, c) + RoomsOf(s.invited, c) ensures r in s.info {
      if r in RoomsOf(s.pep, c) { assert c in Holders(s.pep, r); } else { assert c in Holders(s.invited, r); }
      HeldIsLive(s, spare, r);
    }
  }

  // ---- The entry points ----

  lemma {:induction false} CollectBalanced(s: Olpc, items: seq<Item>, rooms: set<Room>)
    requires Balanced(s, multiset(rooms))
    ensures var (s', rooms') := Collect(s, items, rooms);
            Balanced(s', multiset(rooms')) && s'.pep == s.pep
    decreases |items|
  {
    if items != [] {
      CollectOneBalanced(s, items[0], rooms);
      var (s1, rooms1) := CollectOne(s, items[0], rooms);
      CollectBalanced(s1, items[1..], rooms1);
    }
  }

  lemma CollectOneBalanced(s: Olpc, item: Item, rooms: set<Room>)
    requires Balanced(s, multiset(rooms))
    ensures var (s', rooms') := CollectOne(s, item, rooms);
            Balanced(s', multiset(rooms')) && s'.pep == s.pep
  {
    if item.id.Some? && item.room.Some? {
      var r := item.room.value;
      if r in rooms {
        HeldIsLive(s, multiset(rooms), r);
      } else {
        HoldBalanced(s, multiset(rooms), r);
        SetIdBalanced(Hold(s, r), multiset(rooms) + multiset{r}, r, item.id);
        assert multiset(rooms + {r}) == multiset(rooms) + multiset{r};
        assert Check(s, true) == s;
      }
    }
  }

  lemma ReplaceBalanced(s: Olpc, c: Contact, rooms: set<Room>)
    requires Balanced(s, multiset(rooms))
    ensures Inv(Replace(s, c, rooms))
  {
    var former := RoomsOf(s.pep, c);
    var none: multiset<Room> := multiset{};
    assert none + multiset(rooms) == multiset(rooms);
    PepUpdate(s, none, c, rooms);
    UnrefAllBalanced(s.(pep := s.pep[c := rooms]), none, former);
    RoomsLive(s, multiset(rooms), c);
    assert Replace(s, c, rooms) == UnrefAll(s.(pep := s.pep[c := rooms]), former);
  }

  lemma {:induction false} ExtractKeeps(s: Olpc, sender: Contact, items: seq<Item>)
    requires Inv(s)
    ensures Inv(ExtractActivities(s, sender, items))
  {
    var none: set<Room> := {};
    assert multiset(none) == multiset{};
    CollectBalanced(s, items, none);
    var (s1, rooms) := Collect(s, items, none);
    ReplaceBalanced(s1, sender, rooms);
  }

  /** No valid room is listed twice (before the first invalid one, if any). */
  predicate NoRepeat(items: seq<Item>, rooms: set<Room>)
    decreases |items|
  {
    items != [] && items[0].room.Some? ==>
      items[0].room.value !in rooms && NoRepeat(items[1..], rooms + {items[0].room.value})
  }

  lemma {:induction false} CollectOwnBalanced(s: Olpc, items: seq<Item>, rooms: set<Room>)
    requires Balanced(s, multiset(rooms)) && NoRepeat(items, rooms)
    ensures var (s', rooms') := CollectOwn(s, items, rooms);
            && s'.pep == s.pep
            && (if rooms'.Some? then Balanced(s', multiset(rooms'.value)) else Inv(s'))
    decreases |items|
  {
    if items != [] {
      if items[0].room.None? {
        var none: multiset<Room> := multiset{};
        assert none + multiset(rooms) == multiset(rooms);
        UnrefAllBalanced(s, none, rooms);
      } else {
        var r := items[0].room.value;
        HoldBalanced(s, multiset(rooms), r);
        SetIdBalanced(Hold(s, r), multiset(rooms) + multiset{r}, r, items[0].id);
        assert multiset(rooms + {r}) == multiset(rooms) + multiset{r};
        CollectOwnBalanced(SetId(Hold(s, r), r, items[0].id), items[1..], rooms + {r});
      }
    }
  }

  lemma {:induction false} SetActivitiesKeeps(s: Olpc, me: Contact, items: seq<Item>)
    requires Inv(s) && NoRepeat(items, {})
    ensures Inv(SetActivities(s, me, items))
  {
    var none: set<Room> := {};
    assert multiset(none) == multiset{};
    CollectOwnBalanced(s, items, none);
    var (s1, rooms) := CollectOwn(s, items, none);
    if rooms.Some? { ReplaceBalanced(s1, me, rooms.value); }
  }

  lemma {:induction false} CollectOwnRepeats(s: Olpc, items: seq<Item>, rooms: set<Room>)
    requires Balanced(s, multiset(rooms)) && !NoRepeat(items, rooms)
    ensures var (s', rooms') := CollectOwn(s, items, rooms); s'.failed && rooms'.None?
    decreases |items|
  {
    var r := items[0].room.value;
    if r in rooms {
      HeldIsLive(s, multiset(rooms), r);
    } else {
      HoldBalanced(s, multiset(rooms), r);
      SetIdBalanced(Hold(s, r), multiset(rooms) + multiset{r}, r, items[0].id);
      assert multiset(rooms + {r}) == multiset(rooms) + multiset{r};
      CollectOwnRepeats(SetId(Hold(s, r), r, items[0].id), items[1..], rooms + {r});
    }
  }

  /** Setting one's own list frees an object behind its count if and only if it lists a room twice. */
  lemma {:induction false} RepeatFreesIff(s: Olpc, me: Contact, items: seq<Item>)
    requires Inv(s)
    ensures SetActivities(s, me, items).failed <==> !NoRepeat(items, {})
  {
    var none: set<Room> := {};
    assert multiset(none) == multiset{};
    if NoRepeat(items, none) { SetActivitiesKeeps(s, me, items); } else { CollectOwnRepeats(s, items, none); }
  }

  /** A reference in hand goes into the set of `c`. */
  lemma PepAdd(s: Olpc, c: Contact, r: Room)
    requires Balanced(s, multiset{r}) && r !in RoomsOf(s.pep, c)
    ensures Inv(s.(pep := s.pep[c := RoomsOf(s.pep, c) + {r}]))
  {
    var s' := s.(pep := s.pep[c := RoomsOf(s.pep, c) + {r}]);
    forall q ensures Refs(s', q) == Held(s', q) {
      HoldersUpdate(s.pep, c, RoomsOf(s.pep, c) + {r}, q);
      assert Refs(s, q) == Held(s, q) + multiset{r}[q];
    }
  }

  lemma InvitedAdd(s: Olpc, c: Contact, r: Room)
    requires Balanced(s, multiset{r}) && r !in RoomsOf(s.invited, c)
    ensures Inv(s.(invited := s.invited[c := RoomsOf(s.invited, c) + {r}]))
  {
    var s' := s.(invited := s.invited[c := RoomsOf(s.invited, c) + {r}]);
    forall q ensures Refs(s', q) == Held(s', q) {
      HoldersUpdate(s.invited, c, RoomsOf(s.invited, c) + {r}, q);
      assert Refs(s, q) == Held(s, q) + multiset{r}[q];
    }
  }

  /** ... and the other way round. */
  lemma PepTake(s: Olpc, c: Contact, r: Room)
    requires Inv(s) && r in RoomsOf(s.pep, c)
    ensures Balanced(s.(pep := s.pep[c := s.pep[c] - {r}]), multiset{r})
  {
    var s' := s.(pep := s.pep[c := s.pep[c] - {r}]);
    forall q ensures Refs(s', q) == Held(s', q) + multiset{r}[q] {
      HoldersUpdate(s.pep, c, s.pep[c] - {r}, q);
      assert Refs(s, q) == Held(s, q);
    }
  }

  lemma InvitedTake(s: Olpc, c: Contact, r: Room)
    requires Inv(s) && r in RoomsOf(s.invited, c)
    ensures Balanced(s.(invited := s.invited[c := s.invited[c] - {r}]), multiset{r})
  {
    var s' := s.(invited := s.invited[c := s.invited[c] - {r}]);
    forall q ensures Refs(s', q) == Held(s', q) + multiset{r}[q] {
      HoldersUpdate(s.invited, c, s.invited[c] - {r}, q);
      assert Refs(s, q) == Held(s, q);
    }
  }

  /** A reference in hand is lost. */
  lemma Leak(s: Olpc, r: Room)
    requires Balanced(s, multiset{r})
    ensures Inv(s.(leaked := s.leaked + multiset{r}))
  {
    var s' := s.(leaked := s.leaked + multiset{r});
    forall q ensures Refs(s', q) == Held(s', q) {
      assert Refs(s, q) == Held(s, q) + multiset{r}[q];
    }
  }

  lemma HoldOne(s: Olpc, r: Room)
    requires Inv(s)
    ensures Balanced(Hold(s, r), multiset{r}) && r in Hold(s, r).info
  {
    var none: multiset<Room> := multiset{};
    assert none + multiset{r} == multiset{r};
    HoldBalanced(s, none, r);
  }

  lemma UnrefOne(s: Olpc, r: Room)
    requires Balanced(s, multiset{r})
    ensures Inv(Unref(s, r))
  {
    var none: multiset<Room> := multiset{};
    assert none + multiset{r} == multiset{r};
    UnrefBalanced(s, none, r);
  }

  lemma AddActivityKeeps(s: Olpc, me: Contact, r: Room, id: string)
    requires Inv(s)
    ensures Inv(AddActivity(s, me, r, id))
  {
    if r !in RoomsOf(s.pep, me) {
      var s1 := if r in s.info then s else Create(s, r).(leaked := s.leaked + multiset{r});
      if r !in s.info {
        HoldOne(s, r);
        Leak(Create(s, r), r);
      }
      HoldOne(s1, r);
      SetIdBalanced(Ref(s1, r), multiset{r}, r, Some(id));
      PepAdd(SetId(Ref(s1, r), r, Some(id)), me, r);
    }
  }

  lemma CreateInSetKeeps(s: Olpc, r: Room, c: Contact)
    requires Inv(s) && r !in s.info
    ensures Inv(CreateInSet(s, r, c)) && r in CreateInSet(s, r, c).info && CreateInSet(s, r, c).current == s.current
  {
    RoomsLive(s, multiset{}, c);
    HoldOne(s, r);
    PepAdd(Create(s, r), c, r);
  }

  /** The cache takes a reference in hand and gives back the one it had. */
  lemma CurrentSwap(s: Olpc, c: Contact, r: Room)
    requires Balanced(s, multiset{r})
    ensures var s' := s.(current := s.current[c := r]);
            if c in s.current then Balanced(s', multiset{s.current[c]}) else Inv(s')
  {
    var s' := s.(current := s.current[c := r]);
    var spare := if c in s.current then multiset{s.current[c]} else multiset{};
    forall q ensures Refs(s', q) == Held(s', q) + spare[q] {
      CurrentsUpdate(s.current, c, r, q);
      assert Refs(s, q) == Held(s, q) + multiset{r}[q];
    }
  }

  lemma ForgetCurrentKeeps(s: Olpc, c: Contact)
    requires Inv(s)
    ensures Inv(ForgetCurrent(s, c))
  {
    if c in s.current {
      var s' := s.(current := s.current - {c});
      forall q ensures Refs(s', q) == Held(s', q) + multiset{s.current[c]}[q] {
        CurrentsRemove(s.current, c, q);
        assert Refs(s, q) == Held(s, q);
      }
      UnrefOne(s', s.current[c]);
    }
  }

  lemma {:induction false} CurrentKeeps(s: Olpc, c: Contact, r: Room, id: Option<string>, create: bool)
    requires Inv(s)
    ensures Inv(CurrentActivity(s, c, r, id, create))
  {
    if r !in s.info && create { CreateInSetKeeps(s, r, c); }
    var s1 := if r !in s.info && create then CreateInSet(s, r, c) else s;
    if r in s1.info {
      SetIdBalanced(s1, multiset{}, r, id);
      HoldOne(SetId(s1, r, id), r);
      var s2 := Ref(SetId(s1, r, id), r);
      CurrentSwap(s2, c, r);
      if c in s.current { UnrefOne(s2.(current := s2.current[c := r]), s.current[c]); }
    } else {
      ForgetCurrentKeeps(s1, c);
    }
  }

  lemma PropertiesKeeps(s: Olpc, sender: Sender, r: Room)
    requires Inv(s)
    ensures Inv(UpdateProperties(s, sender, r))
  {
    if r !in s.info {
      match sender
      case NoSender => HoldOne(s, r); Leak(Create(s, r), r);
      case Unknown =>
      case Known(c) => CreateInSetKeeps(s, r, c);
    }
  }

  lemma InviteKeeps(s: Olpc, c: Contact, r: Room, id: string)
    requires Inv(s)
    ensures Inv(Invite(s, c, r, id))
  {
    var theirs := RoomsOf(s.invited, c);
    RoomsLive(s, multiset{}, c);
    var s1 := if r in theirs then s else Hold(s, r);
    var s1' := s1.(invited := s1.invited[c := theirs + {r}]);
    if r in theirs {
      assert theirs + {r} == theirs && s1'.invited == s.invited;
    } else {
      HoldOne(s, r);
      InvitedAdd(s1, c, r);
    }
    SetIdBalanced(s1', multiset{}, r, Some(id));
    RoomsLive(SetId(s1', r, Some(id)), multiset{}, c);
  }

  lemma {:induction false} UninviteKeeps(s: Olpc, c: Contact, r: Room, id: string)
    requires Inv(s)
    ensures Inv(Uninvite(s, c, r, id))
  {
    if r in RoomsOf(s.invited, c) {
      InvitedTake(s, c, r);
      RoomsLive(s, multiset{}, c);
      var s1 := s.(invited := s.invited[c := s.invited[c] - {r}]);
      if s.info[r].id != Some(id) {
        Leak(s1, r);
      } else {
        UnrefOne(s1, r);
        RoomsLive(Unref(s1, r), multiset{}, c);
      }
    }
  }

  lemma ForgetInviteKeeps(s: Olpc, c: Contact, r: Room)
    requires Inv(s)
    ensures Inv(ForgetInvite(s, c, r))
  {
    if r in RoomsOf(s.invited, c) {
      InvitedTake(s, c, r);
      var s1 := s.(invited := s.invited[c := s.invited[c] - {r}]);
      RoomsLive(s1, multiset{r}, c);
      UnrefOne(s1, r);
    }
  }

  lemma {:induction false} ForgetInvitesKeeps(s: Olpc, contacts: seq<Contact>, r: Room)
    requires Inv(s)
    ensures Inv(ForgetInvites(s, contacts, r))
    decreases |contacts|
  {
    if contacts != [] {
      ForgetInviteKeeps(s, contacts[0], r);
      ForgetInvitesKeeps(ForgetInvite(s, contacts[0], r), contacts[1..], r);
    }
  }

  lemma ChannelOpenedKeeps(s: Olpc, r: Room)
    requires Inv(s)
    ensures Inv(ChannelOpened(s, r))
  {
    HoldOne(s, r);
    var s1, s' := Hold(s, r), ChannelOpened(s, r);
    forall q ensures Refs(s', q) == Held(s', q) {
      assert Refs(s1, q) == Held(s1, q) + multiset{r}[q];
    }
  }

  lemma {:induction false} ChannelHeld(s: Olpc, r: Room, q: Room)
    requires r in s.channels
    ensures Held(s.(channels := s.channels - multiset{r}), q) + multiset{r}[q] == Held(s, q)
  {
    assert (s.channels - multiset{r})[q] + multiset{r}[q] == s.channels[q];
  }

  lemma {:induction false} ChannelTake(s: Olpc, r: Room)
    requires Inv(s) && r in s.channels
    ensures Balanced(s.(channels := s.channels - multiset{r}), multiset{r})
  {
    var s1 := s.(channels := s.channels - multiset{r});
    forall q ensures Refs(s1, q) == Held(s1, q) + multiset{r}[q] {
      ChannelHeld(s, r, q);
      assert Refs(s, q) == Held(s, q);
    }
  }

  lemma {:induction false} ChannelReturns(s: Olpc, r: Room)
    requires Inv(s) && r in s.channels
    ensures Inv(Unref(s, r).(channels := s.channels - multiset{r}))
  {
    var s1 := s.(channels := s.channels - multiset{r});
    ChannelTake(s, r);
    UnrefOne(s1, r);
    assert Unref(s, r).(channels := s.channels - multiset{r}) == Unref(s1, r);
  }

  lemma {:induction false} ChannelClosedKeeps(s: Olpc, me: Contact, r: Room)
    requires Inv(s) && r in s.channels
    ensures Inv(ChannelClosed(s, me, r))
  {
    if r in RoomsOf(s.pep, me) {
      PepTake(s, me, r);
      var s1 := s.(pep := s.pep[me := s.pep[me] - {r}]);
      UnrefOne(s1, r);
      ChannelReturns(Unref(s1, r), r);
    } else {
      ChannelReturns(s, r);
    }
  }

  lemma {:induction false} PresenceLostKeeps(s: Olpc, c: Contact)
    requires Inv(s)
    ensures Inv(PresenceLost(s, c))
  {
    var none: multiset<Room> := multiset{};
    var mine, theirs := RoomsOf(s.pep, c), RoomsOf(s.invited, c);
    PepRemove(s, none, c);
    UnrefAllBalanced(s.(pep := s.pep - {c}), none, mine);
    var s1 := UnrefAll(s, mine).(pep := s.pep - {c});
    assert s1 == UnrefAll(s.(pep := s.pep - {c}), mine);
    InvitedRemove(s1, none, c);
    UnrefAllBalanced(s1.(invited := s1.invited - {c}), none, theirs);
    assert PresenceLost(s, c) == UnrefAll(s1.(invited := s1.invited - {c}), theirs);
  }

  // ---- Runs ----

  datatype Action =
    | Announced(sender: Contact, items: seq<Item>)
    | SetOwn(items: seq<Item>)
    | AddOwn(room: Room, id: string)
    | Current(contact: Contact, room: Room, actId: Option<string>, create: bool)
    | Properties(from: Sender, room: Room)
    | Invited(contact: Contact, room: Room, id: string)
    | InRoom(room: Room, id: string)
    | Uninvited(contact: Contact, room: Room, id: string)
    | Opened(room: Room)
    | Shut(room: Room)
    | Joined(room: Room, contacts: seq<Contact>)
    | Gone(contact: Contact)
    | Listed(contact: Contact)

  /** Channels speak for rooms in which there is one. Setting the same activity twice in one call,
      which frees an object behind its count, is left out. */
  predicate Enabled(s: Olpc, act: Action) {
    match act
    case SetOwn(items) => NoRepeat(items, {})
    case InRoom(r, _) => r in s.channels
    case Shut(r) => r in s.channels
    case Joined(r, _) => r in s.channels
    case _ => true
  }

  function Apply(me: Contact, s: Olpc, act: Action): Olpc {
    match act
    case Announced(sender, items) => ExtractActivities(s, sender, items)
    case SetOwn(items) => SetActivities(s, me, items)
    case AddOwn(r, id) => AddActivity(s, me, r, id)
    case Current(c, r, id, create) => CurrentActivity(s, c, r, id, create)
    case Properties(from, r) => UpdateProperties(s, from, r)
    case Invited(c, r, id) => Invite(s, c, r, id)
    case InRoom(r, id) => RoomProperties(s, r, id)
    case Uninvited(c, r, id) => Uninvite(s, c, r, id)
    case Opened(r) => ChannelOpened(s, r)
    case Shut(r) => ChannelClosed(s, me, r)
    case Joined(r, contacts) => ForgetInvites(s, contacts, r)
    case Gone(c) => PresenceLost(s, c)
    case Listed(c) => BuddyActivities(s, c)
  }

  function Step(me: Contact, s: Olpc, act: Action): Olpc {
    if Enabled(s, act) then Apply(me, s, act) else s
  }

  function Run(me: Contact, acts: seq<Action>): Olpc {
    if acts == [] then NewOlpc() else Step(me, Run(me, acts[..|acts| - 1]), acts[|acts| - 1])
  }

  lemma StepKeeps(me: Contact, s: Olpc, act: Action)
    requires Inv(s)
    ensures Inv(Step(me, s, act))
  {
    if Enabled(s, act) {
      match act
      case Announced(sender, items) => ExtractKeeps(s, sender, items);
      case SetOwn(items) => SetActivitiesKeeps(s, me, items);
      case AddOwn(r, id) => AddActivityKeeps(s, me, r, id);
      case Current(c, r, id, create) => CurrentKeeps(s, c, r, id, create);
      case Properties(from, r) => PropertiesKeeps(s, from, r);
      case Invited(c, r, id) => InviteKeeps(s, c, r, id);
      case InRoom(r, id) => HeldIsLive(s, multiset{}, r); SetIdBalanced(s, multiset{}, r, Some(id));
      case Uninvited(c, r, id) => UninviteKeeps(s, c, r, id);
      case Opened(r) => ChannelOpenedKeeps(s, r);
      case Shut(r) => ChannelClosedKeeps(s, me, r);
      case Joined(r, contacts) => ForgetInvitesKeeps(s, contacts, r);
      case Gone(c) => PresenceLostKeeps(s, c);
      case Listed(c) => RoomsLive(s, multiset{}, c);
    }
  }

  lemma {:induction false} RunKeeps(me: Contact, acts: seq<Action>)
    ensures Inv(Run(me, acts))
    decreases |acts|
  {
    if acts != [] {
      RunKeeps(me, acts[..|acts| - 1]);
      StepKeeps(me, Run(me, acts[..|acts| - 1]), acts[|acts| - 1]);
    } else {
      forall r ensures Refs(NewOlpc(), r) == Held(NewOlpc(), r) {
        assert Holders(map[], r) == {} && Currents(map[], r) == {};
      }
    }
  }

  /** In every run, the references on the activity of a room are those of the contacts' announced
      sets, the invitations, the open channels, the current activities and the leaks; so the object is
      there exactly while one of these is, and no assertion on it fails. */
  lemma {:induction false} Conservation(me: Contact, acts: seq<Action>, r: Room)
    ensures var s := Run(me, acts);
            && !s.failed
            && Refs(s, r) == |Holders(s.pep, r)| + |Holders(s.invited, r)| + s.channels[r]
                             + |Currents(s.current, r)| + s.leaked[r]
            && (r in s.info <==>
                  || (exists c :: r in RoomsOf(s.pep, c)) || (exists c :: r in RoomsOf(s.invited, c))
                  || r in s.channels || (exists c :: c in s.current && s.current[c] == r) || r in s.leaked)
  {
    RunKeeps(me, acts);
    var s := Run(me, acts);
    assert Refs(s, r) == Held(s, r);
    if r in s.info {
      SomeoneHolds(s, r);
    } else {
      assert Holders(s.pep, r) == {} && Holders(s.invited, r) == {} && Currents(s.current, r) == {};
      forall c
        ensures r !in RoomsOf(s.pep, c) && r !in RoomsOf(s.invited, c) && !(c in s.current && s.current[c] == r)
      {
        assert c !in Holders(s.pep, r) && c !in Holders(s.invited, r) && c !in Currents(s.current, r);
      }
    }
  }

  lemma SomeoneHolds(s: Olpc, r: Room)
    requires Held(s, r) > 0
    ensures || (exists c :: r in RoomsOf(s.pep, c)) || (exists c :: r in RoomsOf(s.invited, c))
            || r in s.channels || (exists c :: c in s.current && s.current[c] == r) || r in s.leaked
  {
    if Holders(s.pep, r) != {} {
      var c :| c in Holders(s.pep, r);
      assert r in RoomsOf(s.pep, c);
    } else if Holders(s.invited, r) != {} {
      var c :| c in Holders(s.invited, r);
      assert r in RoomsOf(s.invited, c);
    } else if Currents(s.current, r) != {} {
      var c :| c in Currents(s.current, r);
    }
  }

  /** In every run each room of a contact's sets has an activity, so listing them never fails. */
  lemma {:induction false} ListedSafely(me: Contact, acts: seq<Action>, c: Contact)
    ensures var s := Run(me, acts);
            BuddyActivities(s, c) == s && RoomsOf(s.pep, c) + RoomsOf(s.invited, c) <= s.info.Keys
  {
    RunKeeps(me, acts);
    RoomsLive(Run(me, acts), multiset{}, c);
  }

  // ---- Leaks and invitations ----

  /** The three ways of losing a reference for ever. */
  function Lost(s: Olpc, me: Contact, act: Action): multiset<Room> {
    match act
    case AddOwn(r, _) => if r !in s.info then multiset{r} else multiset{}
    case Properties(from, r) => if r !in s.info && from.NoSender? then multiset{r} else multiset{}
    case Uninvited(c, r, id) =>
      if r in RoomsOf(s.invited, c) && r in s.info && s.info[r].id != Some(id) then multiset{r} else multiset{}
    case _ => multiset{}
  }

  lemma {:induction false} CollectLeaks(s: Olpc, items: seq<Item>, rooms: set<Room>)
    ensures Collect(s, items, rooms).0.leaked == s.leaked
    decreases |items|
  {
    if items != [] {
      var (s1, rooms1) := CollectOne(s, items[0], rooms);
      CollectLeaks(s1, items[1..], rooms1);
    }
  }

  lemma {:induction false} CollectOwnLeaks(s: Olpc, items: seq<Item>, rooms: set<Room>)
    ensures CollectOwn(s, items, rooms).0.leaked == s.leaked
    decreases |items|
  {
    if items != [] && items[0].room.Some? {
      var r := items[0].room.value;
      CollectOwnLeaks(SetId(Hold(s, r), r, items[0].id), items[1..], rooms + {r});
    }
  }

  lemma {:induction false} ForgetLeaks(s: Olpc, contacts: seq<Contact>, r: Room)
    ensures ForgetInvites(s, contacts, r).leaked == s.leaked
    decreases |contacts|
  {
    if contacts != [] { ForgetLeaks(ForgetInvite(s, contacts[0], r), contacts[1..], r); }
  }

  lemma CurrentLeaks(s: Olpc, c: Contact, r: Room, id: Option<string>, create: bool)
    ensures CurrentActivity(s, c, r, id, create).leaked == s.leaked
  {
  }

  lemma UnrefLeaks(s: Olpc, r: Room)
    ensures Unref(s, r).leaked == s.leaked
  {
  }

  lemma ChannelLeaks(s: Olpc, me: Contact, r: Room)
    ensures ChannelClosed(s, me, r).leaked == s.leaked
  {
    if r in RoomsOf(s.pep, me) {
      var s1 := s.(pep := s.pep[me := s.pep[me] - {r}]);
      UnrefLeaks(s1, r);
      UnrefLeaks(Unref(s1, r), r);
    } else {
      UnrefLeaks(s, r);
    }
  }

  lemma InviteLeaks(s: Olpc, c: Contact, r: Room, id: string)
    ensures Invite(s, c, r, id).leaked == s.leaked
  {
  }

  lemma LosingLeaks(me: Contact, s: Olpc, act: Action)
    requires RoomsOf(s.pep, me) <= s.info.Keys && (act.AddOwn? || act.Properties? || act.Uninvited?)
    ensures Apply(me, s, act).leaked == s.leaked + Lost(s, me, act)
  {
    assert s.leaked + multiset{} == s.leaked;
  }

  lemma OtherLeaks(me: Contact, s: Olpc, act: Action)
    requires !(act.AddOwn? || act.Properties? || act.Uninvited?)
    ensures Apply(me, s, act).leaked == s.leaked
  {
    match act
    case Announced(_, items) => CollectLeaks(s, items, {});
    case SetOwn(items) => CollectOwnLeaks(s, items, {});
    case Joined(r, contacts) => ForgetLeaks(s, contacts, r);
    case Current(c, r, id, create) => CurrentLeaks(s, c, r, id, create);
    case Shut(r) => ChannelLeaks(s, me, r);
    case Invited(c, r, id) => InviteLeaks(s, c, r, id);
    case _ =>
  }

  lemma StepLeaks(me: Contact, s: Olpc, act: Action)
    requires RoomsOf(s.pep, me) <= s.info.Keys
    ensures Step(me, s, act).leaked == s.leaked + Lost(s, me, act)
  {
    assert s.leaked + multiset{} == s.leaked;
    if act.AddOwn? || act.Properties? || act.Uninvited? {
      LosingLeaks(me, s, act);
    } else if Enabled(s, act) {
      OtherLeaks(me, s, act);
    }
  }

  /** Leaks only grow, and by no other action. */
  lemma {:induction false} LeaksExactly(me: Contact, acts: seq<Action>, act: Action)
    ensures var s := Run(me, acts); Run(me, acts + [act]).leaked == s.leaked + Lost(s, me, act)
  {
    RunKeeps(me, acts);
    RoomsLive(Run(me, acts), multiset{}, me);
    StepLeaks(me, Run(me, acts), act);
    assert (acts + [act])[..|acts|] == acts;
  }

  /** An activity added by the user before anything else was known of it outlives everything. */
  lemma {:induction false} LeakExample(me: Contact)
    ensures var s := Run(me, [AddOwn(7, "x"), SetOwn([])]);
            && 7 in s.info && s.info[7].refs == 1
            && Holders(s.pep, 7) == {} && Holders(s.invited, 7) == {}
            && 7 !in s.channels && Currents(s.current, 7) == {}
  {
    var acts := [AddOwn(7, "x"), SetOwn([])];
    assert acts[..1] == [AddOwn(7, "x")] && acts[..1][..0] == [];
    var s0 := Run(me, []);
    var s1 := Step(me, s0, AddOwn(7, "x"));
    assert Run(me, acts[..1]) == s1;
    assert s1.info[7].refs == 2 && RoomsOf(s1.pep, me) == {7};
    assert Run(me, acts) == Step(me, s1, SetOwn([]));
    assert Step(me, s1, SetOwn([])) == Replace(s1, me, {});
  }

  const Twice := [Item(Some("a"), Some(7)), Item(Some("b"), Some(7))]

  /** Listing room 7 twice, on a connection that has seen nothing else and on one where contact 1 has
      announced it: in the one the object has gone with its last reference before it is freed again, in
      the other it is freed while contact 1 still holds it. */
  lemma {:induction false} RepeatExample(me: Contact)
    ensures var s := SetActivities(Run(me, []), me, Twice); s.failed && 7 !in s.info
    ensures var s := SetActivities(Run(me, [Announced(1, [Item(Some("a"), Some(7))])]), me, Twice);
            s.failed && 7 in s.info && s.info[7].refs == 1 && Holders(s.pep, 7) == {1}
  {
    var item := Item(Some("a"), Some(7));
    assert Twice[1..] == [Item(Some("b"), Some(7))];
    var acts := [Announced(1, [item])];
    assert acts[..0] == [] && [item][1..] == [];
    var s0, s1 := Run(me, []), Run(me, acts);
    var (c, rooms) := CollectOne(s0, item, {});
    assert Collect(s0, [item], {}) == Collect(c, [], rooms);
    assert s1 == Replace(c, 1, rooms);
    assert rooms == {7};
    assert s1.info[7].refs == 1 && s1.pep == map[1 := {7}];
    assert Holders(s1.pep, 7) == {1};
  }

  lemma ForgetOne(s: Olpc, d: Contact, r: Room, c: Contact)
    ensures RoomsOf(ForgetInvite(s, d, r).invited, c)
            == if c == d then RoomsOf(s.invited, c) - {r} else RoomsOf(s.invited, c)
  {
  }

  /** Joining a room forgets every invitation to it, and nothing else. */
  lemma {:induction false} JoinForgets(s: Olpc, contacts: seq<Contact>, r: Room, c: Contact)
    ensures RoomsOf(ForgetInvites(s, contacts, r).invited, c)
            == if c in contacts then RoomsOf(s.invited, c) - {r} else RoomsOf(s.invited, c)
    decreases |contacts|
  {
    if contacts != [] {
      ForgetOne(s, contacts[0], r, c);
      JoinForgets(ForgetInvite(s, contacts[0], r), contacts[1..], r, c);
      assert c in contacts <==> c == contacts[0] || c in contacts[1..];
    }
  }
}
