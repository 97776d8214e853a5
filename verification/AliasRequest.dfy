/** A call to RequestAliases as the object that src/conn-aliasing.c keeps until it is answered. */
module AliasRequest {
  import opened Common
  import Spec = AliasSpec
  import opened AliasSpec

  class AliasesRequest {
    const contacts: seq<Handle>
    var pepRequests: seq<Option<nat>>
    var vcardRequests: seq<Option<nat>>
    var pendingPep: int
    var pendingVcard: int
    var aliases: seq<Option<Alias>>
    var nextId: nat
    var answers: seq<seq<Option<Alias>>>
    var failed: bool

    function View(): Request reads this {
      Request(contacts, pepRequests, vcardRequests, pendingPep, pendingVcard, aliases, nextId, answers, failed)
    }

    /** Asks for every alias that is not known well enough. */
    constructor (contacts: seq<Handle>, cache: Cache, pep: bool)
      ensures View() == RequestAliases(contacts, cache, pep)
    {
      this.contacts := contacts;
      pepRequests := seq(|contacts|, _ => None);
      vcardRequests := seq(|contacts|, _ => None);
      aliases := seq(|contacts|, _ => None);
      pendingPep, pendingVcard, nextId, answers, failed := 0, 0, 0, [], false;
      new;
      ghost var expected := AskAll(View(), 0, cache, pep);
      var i := 0;
      while i < |contacts|
        invariant 0 <= i <= |contacts| && Sized(View())
        invariant AskAll(View(), i, cache, pep) == expected
      {
        var handle := contacts[i];
        if cache(handle).good {
          aliases := aliases[i := Some(LookUp(cache, handle))];
        } else if pep {
          pendingPep := pendingPep + 1;
          pepRequests := pepRequests[i := Some(nextId)];
          nextId := nextId + 1;
        } else {
          SendVcardRequest(i);
        }
        i := i + 1;
      }
      TryReturn();
    }

    method SendVcardRequest(i: nat)
      requires Sized(View()) && i < |contacts|
      modifies this
      ensures View() == AskVcard(old(View()), i)
    {
      vcardRequests := vcardRequests[i := Some(nextId)];
      pendingVcard := pendingVcard + 1;
      nextId := nextId + 1;
    }

    method TryReturn()
      modifies this`answers
      ensures View() == Spec.TryReturn(old(View()))
    {
      if pendingVcard == 0 && pendingPep == 0 { answers := answers + [aliases]; }
    }

    method PepCb(index: nat, cache: Cache, connected: bool)
      requires Sized(View()) && index < |contacts|
      modifies this
      ensures View() == PepDone(old(View()), index, cache, connected)
    {
      pendingPep := pendingPep - 1;
      pepRequests := pepRequests[index := None];
      var handle := contacts[index];
      if cache(handle).good {
        aliases := aliases[index := Some(LookUp(cache, handle))];
      } else if connected {
        SendVcardRequest(index);
      }
      TryReturn();
    }

    method VcardCb(id: nat, cache: Cache)
      requires Sized(View())
      modifies this
      ensures View() == VcardDone(old(View()), id, cache)
    {
      if pendingVcard <= 0 {
        failed := true;
        return;
      }
      var i := 0;
      assert vcardRequests[0..] == vcardRequests;
      while i < |vcardRequests| && vcardRequests[i] != Some(id)
        invariant 0 <= i <= |vcardRequests|
        invariant i + IndexOf(vcardRequests[i..], id) == IndexOf(vcardRequests, id)
      {
        assert vcardRequests[i..][1..] == vcardRequests[i + 1..];
        i := i + 1;
      }
      if i == |vcardRequests| {
        failed := true;
        return;
      }
      var alias := LookUp(cache, contacts[i]);
      pendingVcard := pendingVcard - 1;
      vcardRequests := vcardRequests[i := None];
      aliases := aliases[i := Some(alias)];
      TryReturn();
    }
  }
}
