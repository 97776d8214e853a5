/** The channel object of src/call-muc-channel.c. Each handler changes the fields in place and is
    proved to do what the function of the same name in MujiSpec says. */
module MujiChannel {
  import opened Common
  import opened MujiSpec

  class CallMucChannel {
    var state: CallState
    var before: seq<Member>
    var after: seq<Member>
    var sessionsToOpen: seq<Member>
    var sessionsOpened: bool
    var muji: Option<Tree>
    var members: set<Member>
    var openedTo: seq<Member>
    var sent: seq<Note>

    ghost function View(): Chan
      reads this
    {
      Chan(state, before, after, sessionsToOpen, sessionsOpened, muji, members, openedTo, sent)
    }

    constructor ()
      ensures View() == FreshChan
    {
      state, before, after, sessionsToOpen := NotJoined, [], [], [];
      sessionsOpened, muji, members, openedTo, sent := false, None, {}, [], [];
    }

    method DoUpdate(gotCodecs: bool)
      modifies this
      ensures View() == MujiSpec.DoUpdate(old(View()), gotCodecs)
    {
      if state == Preparing {
        if !gotCodecs { return; }
        muji := Some(Tree(true, []));
      } else if state == Stable && muji.Some? {
        muji := Some(muji.value.(preparing := true));
      } else {
        return;
      }
      state := PreparingSent;
      sent := sent + [Presence(muji)];
    }

    method Accept(gotCodecs: bool)
      modifies this
      ensures View() == MujiSpec.Accept(old(View()), gotCodecs)
    {
      if state != NotJoined { return; }
      state := Preparing;
      DoUpdate(gotCodecs);
    }

    method Leave()
      modifies this
      ensures View() == MujiSpec.Leave(old(View()))
    {
      if state == Left { return; }
      muji := None;
      state := Left;
      sent := sent + [Presence(muji)];
    }

    method SendNewState(contents: seq<nat>)
      modifies this
      ensures View() == MujiSpec.SendNewState(old(View()), contents)
    {
      var t := before;
      before := after;
      after := t;
      muji := Some(Tree(false, contents));
      state := Stable;
      sent := sent + [Presence(muji)];
    }

    /** Pops the queue until it is empty, opening a session to each member. */
    method OpenNewStreams()
      modifies this
      ensures View() == MujiSpec.OpenNewStreams(old(View()))
    {
      sessionsOpened := true;
      while sessionsToOpen != []
        invariant openedTo + sessionsToOpen == old(openedTo + sessionsToOpen)
        invariant View() == old(View()).(sessionsOpened := true, sessionsToOpen := sessionsToOpen, openedTo := openedTo)
        decreases |sessionsToOpen|
      {
        openedTo := openedTo + [sessionsToOpen[0]];
        sessionsToOpen := sessionsToOpen[1..];
      }
      assert openedTo == openedTo + sessionsToOpen;
    }

    method RemoveMember(who: Member)
      modifies this
      ensures View() == MujiSpec.RemoveMember(old(View()), who)
    {
      before := RemoveFirst(before, who);
      after := RemoveFirst(after, who);
      sessionsToOpen := RemoveFirst(sessionsToOpen, who);
      members := members - {who};
    }

    method GotParticipantPresence(who: Member, presence: Option<Tree>, contents: seq<nat>)
      modifies this
      ensures View() == GotPresence(old(View()), who, presence, contents)
    {
      if presence == None {
        if who in members { RemoveMember(who); }
        return;
      }
      members := members + {who};
      if !sessionsOpened && BeforeWait(state) {
        sessionsToOpen := sessionsToOpen + [who];
      }
      if presence.value.preparing {
        if who !in before && who !in after {
          if state != WaitForTurn { before := before + [who]; } else { after := after + [who]; }
        }
      } else {
        before := RemoveFirst(before, who);
        after := RemoveFirst(after, who);
        if state == WaitForTurn && before == [] { SendNewState(contents); }
      }
    }

    method UpdateAllMembers(known: seq<(Member, Option<Tree>)>)
      modifies this
      ensures View() == MujiSpec.UpdateAllMembers(old(View()), known)
    {
      for i := 0 to |known|
        invariant View() == MujiSpec.UpdateAllMembers(old(View()), known[..i])
      {
        assert known[..i + 1][..i] == known[..i];
        GotParticipantPresence(known[i].0, known[i].1, []);
      }
      assert known[..|known|] == known;
    }

    method LeftCb(who: Member)
      modifies this
      ensures View() == MemberLeft(old(View()), who)
    {
      if who in members { RemoveMember(who); }
    }

    method OwnPresenceCb(presence: Option<Tree>, contents: seq<nat>)
      modifies this
      ensures View() == OwnPresence(old(View()), presence, contents)
    {
      if presence == None || muji == None || presence.value != muji.value { return; }
      if state == PreparingSent {
        state := WaitForTurn;
        if before == [] { SendNewState(contents); }
      } else if state == Stable {
        OpenNewStreams();
      }
    }
  }
}
