/** The OLPC tables of a connection as the object that src/conn-olpc.c updates in place. */
module OlpcConnection {
  import opened Common
  import Spec = OlpcSpec
  import opened OlpcSpec

  lemma OneMore(info: map<Room, Activity>, rooms: set<Room>, r: Room)
    ensures WithIds(info, rooms + {r})
            == if r in info && info[r].id.Some? then WithIds(info, rooms)[r := info[r].id.value] else WithIds(info, rooms)
    ensures rooms + {r} <= info.Keys <==> rooms <= info.Keys && r in info
  {
  }

  /** The loop over a contact's rooms: the ids found, and whether a room has no activity. */
  method ListRooms(info: map<Room, Activity>, rooms: set<Room>) returns (activities: map<Room, string>, missing: bool)
    ensures activities == WithIds(info, rooms) && missing == !(rooms <= info.Keys)
  {
    var rest := rooms;
    ghost var done: set<Room> := {};
    activities, missing := map[], false;
    while rest != {}
      invariant done + rest == rooms
      invariant activities == WithIds(info, done) && missing == !(done <= info.Keys)
    {
      var r :| r in rest;
      OneMore(info, done, r);
      if r !in info {
        missing := true;
      } else if info[r].id.Some? {
        activities := activities[r := info[r].id.value];
      }
      rest := rest - {r};
      done := done + {r};
    }
    assert done == rooms;
  }

  class GabbleConnection {
    const selfHandle: Contact
    var activitiesInfo: map<Room, Activity>
    var pepActivities: map<Contact, set<Room>>
    var invitedActivities: map<Contact, set<Room>>
    var channels: multiset<Room>
    var currentAct: map<Contact, Room>
    var leaked: multiset<Room>
    var failed: bool

    function View(): Olpc reads this {
      Olpc(activitiesInfo, pepActivities, invitedActivities, channels, currentAct, leaked, failed)
    }

    constructor (selfHandle: Contact)
      ensures View() == NewOlpc() && this.selfHandle == selfHandle
    {
      this.selfHandle := selfHandle;
      activitiesInfo, pepActivities, invitedActivities := map[], map[], map[];
      channels, currentAct, leaked, failed := multiset{}, map[], multiset{}, false;
    }

    // ---- References ----

    method Check(holds: bool)
      modifies this`failed
      ensures View() == Spec.Check(old(View()), holds)
    {
      if !holds { failed := true; }
    }

    method AddActivityInfo(r: Room)
      modifies this`activitiesInfo
      ensures View() == Create(old(View()), r)
    {
      activitiesInfo := activitiesInfo[r := Activity(1, None)];
    }

    method Ref(r: Room)
      modifies this`activitiesInfo, this`failed
      ensures View() == Spec.Ref(old(View()), r)
    {
      if r !in activitiesInfo {
        failed := true;
      } else {
        activitiesInfo := activitiesInfo[r := activitiesInfo[r].(refs := activitiesInfo[r].refs + 1)];
      }
    }

    method Unref(r: Room)
      modifies this`activitiesInfo, this`failed
      ensures View() == Spec.Unref(old(View()), r)
    {
      if r !in activitiesInfo {
        failed := true;
      } else if activitiesInfo[r].refs <= 1 {
        activitiesInfo := activitiesInfo - {r};
      } else {
        activitiesInfo := activitiesInfo[r := activitiesInfo[r].(refs := activitiesInfo[r].refs - 1)];
      }
    }

    method SetId(r: Room, id: Option<string>)
      modifies this`activitiesInfo, this`failed
      ensures View() == Spec.SetId(old(View()), r, id)
    {
      if r !in activitiesInfo {
        failed := true;
      } else {
        activitiesInfo := activitiesInfo[r := activitiesInfo[r].(id := id)];
      }
    }

    method Hold(r: Room)
      modifies this`activitiesInfo, this`failed
      ensures View() == Spec.Hold(old(View()), r)
    {
      if r in activitiesInfo { Ref(r); } else { AddActivityInfo(r); }
    }

    /** Drops one reference on each room of a set, one at a time in any order. */
    method UnrefAll(rooms: set<Room>)
      modifies this`activitiesInfo, this`failed
      ensures View() == Spec.UnrefAll(old(View()), rooms)
    {
      var rest := rooms;
      ghost var info0, failed0 := activitiesInfo, failed;
      assert Decremented(info0, {}) == info0;
      while rest != {}
        invariant rest <= rooms
        invariant activitiesInfo == Decremented(info0, rooms - rest)
        invariant failed == (failed0 || !(rooms - rest <= info0.Keys))
      {
        var r :| r in rest;
        ghost var done := rooms - rest;
        Unref(r);
        rest := rest - {r};
        assert rooms - rest == done + {r};
      }
      assert rooms - rest == rooms;
    }

    // ---- Lists of activities ----

    method ExtractActivities(sender: Contact, items: seq<Item>)
      modifies this
      ensures View() == Spec.ExtractActivities(old(View()), sender, items)
    {
      var activitiesSet: set<Room> := {};
      var i := 0;
      ghost var expected := Collect(View(), items, {});
      assert items[0..] == items;
      while i < |items|
        invariant 0 <= i <= |items|
        invariant Collect(View(), items[i..], activitiesSet) == expected
      {
        var item := items[i];
        assert items[i..][0] == item && items[i..][1..] == items[i + 1..];
        if item.id.Some? && item.room.Some? {
          var r := item.room.value;
          if r !in activitiesInfo {
            AddActivityInfo(r);
            Check(r !in activitiesSet);
            activitiesSet := activitiesSet + {r};
            SetId(r, item.id);
          } else if r !in activitiesSet {
            Ref(r);
            activitiesSet := activitiesSet + {r};
            SetId(r, item.id);
          }
        }
        i := i + 1;
      }
      if sender in pepActivities { UnrefAll(pepActivities[sender]); } else { UnrefAll({}); }
      pepActivities := pepActivities[sender := activitiesSet];
    }

    method SetActivities(items: seq<Item>)
      modifies this
      ensures View() == Spec.SetActivities(old(View()), selfHandle, items)
    {
      var activitiesSet: set<Room> := {};
      var i := 0;
      ghost var expected := CollectOwn(View(), items, {});
      assert items[0..] == items;
      while i < |items|
        invariant 0 <= i <= |items|
        invariant CollectOwn(View(), items[i..], activitiesSet) == expected
      {
        var item := items[i];
        assert items[i..][0] == item && items[i..][1..] == items[i + 1..];
        if item.room.None? {
          UnrefAll(activitiesSet);
          return;
        }
        var r := item.room.value;
        if r in activitiesInfo && r in activitiesSet {
          UnrefAll(activitiesSet);
          Check(false);
          return;
        }
        Hold(r);
        SetId(r, item.id);
        activitiesSet := activitiesSet + {r};
        i := i + 1;
      }
      if selfHandle in pepActivities { UnrefAll(pepActivities[selfHandle]); } else { UnrefAll({}); }
      pepActivities := pepActivities[selfHandle := activitiesSet];
    }

    // ---- Single activities ----

    method AddActivity(r: Room, id: string) returns (ok: bool)
      modifies this
      ensures View() == Spec.AddActivity(old(View()), selfHandle, r, id)
      ensures ok <==> r !in RoomsOf(old(pepActivities), selfHandle)
    {
      var mine := RoomsOf(pepActivities, selfHandle);
      if r in mine { return false; }
      if r !in activitiesInfo {
        AddActivityInfo(r);
        leaked := leaked + multiset{r};
      }
      Ref(r);
      SetId(r, Some(id));
      pepActivities := pepActivities[selfHandle := mine + {r}];
      return true;
    }

    method AddActivityInfoInSet(r: Room, c: Contact)
      modifies this
      ensures View() == CreateInSet(old(View()), r, c)
    {
      AddActivityInfo(r);
      var theirs := RoomsOf(pepActivities, c);
      Check(r !in theirs);
      pepActivities := pepActivities[c := theirs + {r}];
    }

    method ExtractCurrentActivity(c: Contact, r: Room, id: Option<string>, create: bool) returns (known: bool)
      modifies this
      ensures View() == CurrentActivity(old(View()), c, r, id, create)
      ensures known <==> r in old(activitiesInfo) || create
    {
      if r !in activitiesInfo && create { AddActivityInfoInSet(r, c); }
      known := r in activitiesInfo;
      var had := c in currentAct;
      var previous := if had then currentAct[c] else r;
      if known {
        SetId(r, id);
        Ref(r);
        currentAct := currentAct[c := r];
      } else {
        currentAct := currentAct - {c};
      }
      if had { Unref(previous); }
    }

    method UpdateActivityProperties(sender: Sender, r: Room)
      modifies this
      ensures View() == UpdateProperties(old(View()), sender, r)
    {
      if r !in activitiesInfo {
        match sender {
          case NoSender =>
            AddActivityInfo(r);
            leaked := leaked + multiset{r};
          case Unknown =>
          case Known(c) => AddActivityInfoInSet(r, c);
        }
      }
    }

    // ---- Invitations ----

    /** The activities of a contact, room by room with their ids; those without an id are skipped. Every
        room must have an activity. */
    method GetBuddyActivities(c: Contact) returns (activities: map<Room, string>)
      modifies this`failed
      ensures View() == BuddyActivities(old(View()), c)
      ensures activities == WithIds(activitiesInfo, RoomsOf(pepActivities, c) + RoomsOf(invitedActivities, c))
    {
      var missing;
      activities, missing := ListRooms(activitiesInfo, RoomsOf(pepActivities, c) + RoomsOf(invitedActivities, c));
      Check(!missing);
    }

    method ProcessInvite(c: Contact, r: Room, id: string)
      modifies this
      ensures View() == Invite(old(View()), c, r, id)
    {
      var theirs := RoomsOf(invitedActivities, c);
      var changed := r !in theirs;
      if r !in activitiesInfo {
        AddActivityInfo(r);
      } else if changed {
        Ref(r);
      }
      invitedActivities := invitedActivities[c := theirs + {r}];
      SetId(r, Some(id));
      if changed { var activities := GetBuddyActivities(c); }
    }

    method ProcessUninvite(c: Contact, r: Room, id: string)
      modifies this
      ensures View() == Uninvite(old(View()), c, r, id)
    {
      if c !in invitedActivities || r !in invitedActivities[c] { return; }
      invitedActivities := invitedActivities[c := invitedActivities[c] - {r}];
      if r !in activitiesInfo { return; }
      if activitiesInfo[r].id != Some(id) {
        leaked := leaked + multiset{r};
        return;
      }
      Unref(r);
      var activities := GetBuddyActivities(c);
    }

    /** Forgets every invitation to a room that the user has joined. */
    method ForgetActivityInvites(contacts: seq<Contact>, r: Room)
      modifies this
      ensures View() == ForgetInvites(old(View()), contacts, r)
    {
      var i := 0;
      ghost var expected := ForgetInvites(View(), contacts, r);
      assert contacts[0..] == contacts;
      while i < |contacts|
        invariant 0 <= i <= |contacts|
        invariant ForgetInvites(View(), contacts[i..], r) == expected
      {
        var c := contacts[i];
        assert contacts[i..][0] == c && contacts[i..][1..] == contacts[i + 1..];
        if c in invitedActivities && r in invitedActivities[c] {
          invitedActivities := invitedActivities[c := invitedActivities[c] - {r}];
          var activities := GetBuddyActivities(c);
          Unref(r);
        }
        i := i + 1;
      }
    }

    // ---- Channels and presence ----

    method MucChannelOpened(r: Room)
      modifies this
      ensures View() == ChannelOpened(old(View()), r)
    {
      Hold(r);
      channels := channels + multiset{r};
    }

    method MucChannelClosed(r: Room)
      modifies this
      ensures View() == ChannelClosed(old(View()), selfHandle, r)
    {
      if selfHandle in pepActivities && r in pepActivities[selfHandle] {
        pepActivities := pepActivities[selfHandle := pepActivities[selfHandle] - {r}];
        Unref(r);
      }
      Unref(r);
      channels := channels - multiset{r};
    }

    method ContactUnavailable(c: Contact)
      modifies this
      ensures View() == PresenceLost(old(View()), c)
    {
      UnrefAll(RoomsOf(pepActivities, c));
      pepActivities := pepActivities - {c};
      UnrefAll(RoomsOf(invitedActivities, c));
      invitedActivities := invitedActivities - {c};
    }
  }
}
