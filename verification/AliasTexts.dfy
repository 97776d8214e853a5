/** Where the aliases that a call is answered with come from: for each contact the reply that settles it,
    and the text the caches had then. */
module AliasTexts {
  import opened Common
  import opened AliasSpec
  import opened AliasAccounting

  // ---- One PEP reply ----

  /** Only the slot `i` differs. */
  predicate OnlySlot(q: Request, q': Request, i: nat)
    requires Sized(q) && Sized(q') && |q'.contacts| == |q.contacts|
  {
    forall j :: 0 <= j < |q.contacts| && j != i ==>
      q'.pep[j] == q.pep[j] && q'.vcard[j] == q.vcard[j] && q'.aliases[j] == q.aliases[j]
  }

  /** In every run, a PEP reply fills its slot if the caches then have an alias that no vCard would better;
      otherwise a vCard request of its own takes its place while the connection is up, and nothing if
      it is down. */
  lemma {:induction false} PepChains(contacts: seq<Handle>, cache: Cache, pep: bool, evs: seq<Event>, ev: Event)
    requires ev.PepReply? && Enabled(Run(contacts, cache, pep, evs), ev)
    ensures var q := Run(contacts, cache, pep, evs); var q', i := Step(q, ev), ev.index;
            && Sized(q) && Sized(q') && q.contacts == contacts && q'.contacts == contacts && i < |contacts|
            && q'.pep[i].None? && OnlySlot(q, q', i)
            && var c := ev.cache(contacts[i]);
               if c.good then q'.aliases[i] == Some(Alias(contacts[i], c.text)) && q'.vcard[i].None?
               else
                 && q'.aliases[i].None? && q'.vcard[i].Some? == ev.connected
                 && (ev.connected ==> q'.vcard[i] !in q.vcard)
  {
    RunKeeps(contacts, cache, pep, evs);
    RunUnique(contacts, cache, pep, evs);
    var q := Run(contacts, cache, pep, evs);
    assert SlotOk(q, ev.index, Lost(evs));
  }

  // ---- Requests have numbers of their own ----

  ghost predicate Unique(q: Request) {
    && (forall i, x :: 0 <= i < |q.vcard| && q.vcard[i] == Some(x) ==> x < q.nextId)
    && (forall i, j :: 0 <= i < j < |q.vcard| && q.vcard[i].Some? ==> q.vcard[i] != q.vcard[j])
  }

  lemma {:induction false} AskAllUnique(q: Request, i: nat, cache: Cache, pep: bool)
    requires Sized(q) && i <= |q.contacts| && Unique(q)
    ensures Unique(AskAll(q, i, cache, pep))
    decreases |q.contacts| - i
  {
    if i < |q.contacts| { AskAllUnique(Ask(q, i, cache, pep), i + 1, cache, pep); }
  }

  lemma {:induction false} PepUnique(q: Request, i: nat, cache: Cache, connected: bool)
    requires Sized(q) && i < |q.contacts| && Unique(q)
    ensures Unique(PepDone(q, i, cache, connected))
  {
  }

  lemma {:induction false} VcardUnique(q: Request, id: nat, cache: Cache)
    requires Sized(q) && Unique(q)
    ensures Unique(VcardDone(q, id, cache))
  {
  }

  lemma {:induction false} RunUnique(contacts: seq<Handle>, cache: Cache, pep: bool, evs: seq<Event>)
    ensures Unique(Run(contacts, cache, pep, evs))
    decreases |evs|
  {
    if evs == [] {
      AskAllUnique(NewRequest(contacts), 0, cache, pep);
    } else {
      var front := evs[..|evs| - 1];
      var q, ev := Run(contacts, cache, pep, front), evs[|evs| - 1];
      RunUnique(contacts, cache, pep, front);
      if Enabled(q, ev) {
        match ev
        case PepReply(i, c, connected) => PepUnique(q, i, c, connected);
        case VcardReply(id, c) => VcardUnique(q, id, c);
      }
    }
  }

  // ---- The call ----

  lemma {:induction false} AskAllSlots(q: Request, i: nat, cache: Cache, pep: bool, k: nat)
    requires Sized(q) && i <= |q.contacts| && k < |q.contacts|
    ensures var r := AskAll(q, i, cache, pep);
            && (r.pep[k].Some? <==> q.pep[k].Some? || (k >= i && !cache(q.contacts[k]).good && pep))
            && (r.vcard[k].Some? <==> q.vcard[k].Some? || (k >= i && !cache(q.contacts[k]).good && !pep))
    decreases |q.contacts| - i
  {
    if i < |q.contacts| { AskAllSlots(Ask(q, i, cache, pep), i + 1, cache, pep, k); }
  }

  /** The call asks for the contacts whose alias in the caches is not good enough, and for no others: by
      PEP if that is supported, otherwise for their vCards. */
  lemma {:induction false} FirstAsked(contacts: seq<Handle>, cache: Cache, pep: bool, i: nat)
    requires i < |contacts|
    ensures var q := RequestAliases(contacts, cache, pep);
            && Sized(q) && q.contacts == contacts
            && (q.pep[i].Some? <==> !cache(contacts[i]).good && pep)
            && (q.vcard[i].Some? <==> !cache(contacts[i]).good && !pep)
  {
    AskAllSlots(NewRequest(contacts), 0, cache, pep, i);
  }

  // ---- The texts ----

  /** The text in the caches at the event that settles an index: that of the call itself, the PEP reply or
      the vCard reply. */
  ghost function TextAt(contacts: seq<Handle>, cache: Cache, pep: bool, evs: seq<Event>, i: nat): Option<string>
    requires i < |contacts|
  {
    var h := contacts[i];
    if evs == [] then (if cache(h).good then Some(cache(h).text) else None)
    else
      var front, ev := evs[..|evs| - 1], evs[|evs| - 1];
      var q := Run(contacts, cache, pep, front);
      if Enabled(q, ev) && ev.PepReply? && ev.index == i && ev.cache(h).good then Some(ev.cache(h).text)
      else if Enabled(q, ev) && ev.VcardReply? && i < |q.vcard| && q.vcard[i] == Some(ev.id) then Some(ev.cache(h).text)
      else TextAt(contacts, cache, pep, front, i)
  }

  ghost predicate HasText(q: Request, i: nat, text: Option<string>) {
    i < |q.contacts| && i < |q.aliases| &&
    q.aliases[i] == if text.Some? then Some(Alias(q.contacts[i], text.value)) else None
  }

  lemma {:induction false} AskAllTexts(q: Request, i: nat, cache: Cache, pep: bool, k: nat)
    requires Sized(q) && i <= |q.contacts| && k < |q.contacts| && (k >= i ==> q.aliases[k].None?)
    ensures AskAll(q, i, cache, pep).aliases[k]
            == if k < i then q.aliases[k]
               else if cache(q.contacts[k]).good then Some(Alias(q.contacts[k], cache(q.contacts[k]).text))
               else None
    decreases |q.contacts| - i
  {
    if i < |q.contacts| { AskAllTexts(Ask(q, i, cache, pep), i + 1, cache, pep, k); }
  }

  lemma {:induction false} IndexIs(requests: seq<Option<nat>>, id: nat, i: nat)
    requires i < |requests| && requests[i] == Some(id)
    requires forall j, k :: 0 <= j < k < |requests| && requests[j].Some? ==> requests[j] != requests[k]
    ensures IndexOf(requests, id) == i
  {
  }

  lemma {:induction false} StepTexts(q: Request, ev: Event, i: nat, text: Option<string>)
    requires Sized(q) && Unique(q) && q.pendingVcard == Count(q.vcard) && HasText(q, i, text) && Enabled(q, ev)
    requires ev.PepReply? && ev.index == i ==> q.aliases[i].None?
    ensures var h := q.contacts[i];
            HasText(Step(q, ev), i,
                    if ev.PepReply? && ev.index == i && ev.cache(h).good then Some(ev.cache(h).text)
                    else if ev.VcardReply? && q.vcard[i] == Some(ev.id) then Some(ev.cache(h).text)
                    else text)
  {
    if ev.VcardReply? {
      var k := IndexOf(q.vcard, ev.id);
      assert k < |q.vcard|;
      CountZero(q.vcard);
      IndexIs(q.vcard, ev.id, k);
      if q.vcard[i] == Some(ev.id) { IndexIs(q.vcard, ev.id, i); }
    }
  }

  /** In every run, the alias at an index is the contact's text in the caches at the event that settled
      it, and the answer consists of these. */
  lemma {:induction false} TextsAnswered(contacts: seq<Handle>, cache: Cache, pep: bool, evs: seq<Event>, i: nat)
    requires i < |contacts|
    ensures var q, text := Run(contacts, cache, pep, evs), TextAt(contacts, cache, pep, evs, i);
            && q.contacts == contacts && HasText(q, i, text)
            && (q.answers != [] ==>
                  |q.answers[0]| == |contacts|
                  && q.answers[0][i] == if text.Some? then Some(Alias(contacts[i], text.value)) else None)
    decreases |evs|
  {
    RunKeeps(contacts, cache, pep, evs);
    if evs == [] {
      AskAllTexts(NewRequest(contacts), 0, cache, pep, i);
    } else {
      var front, ev := evs[..|evs| - 1], evs[|evs| - 1];
      var q := Run(contacts, cache, pep, front);
      TextsAnswered(contacts, cache, pep, front, i);
      RunUnique(contacts, cache, pep, front);
      RunKeeps(contacts, cache, pep, front);
      assert SlotOk(q, i, Lost(front));
      if Enabled(q, ev) { StepTexts(q, ev, i, TextAt(contacts, cache, pep, front, i)); }
    }
  }
}
