/** Every call is answered exactly once, when nothing is pending, in every interleaving of PEP and
    vCard replies. */
module AliasAccounting {
  import opened Common
  import opened AliasSpec

  datatype Event =
    | PepReply(index: nat, cache: Cache, connected: bool)
    | VcardReply(id: nat, cache: Cache)

  /** A request ends once, and only if it was made. */
  predicate Enabled(q: Request, ev: Event) {
    match ev
    case PepReply(i, _, _) => Sized(q) && i < |q.pep| && q.pep[i].Some?
    case VcardReply(id, _) => Sized(q) && Some(id) in q.vcard
  }

  function Step(q: Request, ev: Event): Request {
    if !Enabled(q, ev) then q
    else match ev
      case PepReply(i, cache, connected) => PepDone(q, i, cache, connected)
      case VcardReply(id, cache) => VcardDone(q, id, cache)
  }

  function Run(contacts: seq<Handle>, cache: Cache, pep: bool, evs: seq<Event>): Request
  {
    if evs == [] then RequestAliases(contacts, cache, pep)
    else Step(Run(contacts, cache, pep, evs[..|evs| - 1]), evs[|evs| - 1])
  }

  // ---- Counting ----

  function Count(slots: seq<Option<nat>>): nat
    decreases |slots|
  {
    if slots == [] then 0 else (if slots[0].Some? then 1 else 0) + Count(slots[1..])
  }

  lemma {:induction false} CountUpdate(slots: seq<Option<nat>>, i: nat, x: Option<nat>)
    requires i < |slots|
    ensures Count(slots[i := x]) + (if slots[i].Some? then 1 else 0) == Count(slots) + (if x.Some? then 1 else 0)
    decreases |slots|
  {
    if i == 0 {
      assert slots[0 := x][1..] == slots[1..];
    } else {
      assert slots[i := x][1..] == slots[1..][i - 1 := x];
      CountUpdate(slots[1..], i - 1, x);
    }
  }

  lemma {:induction false} CountZero(slots: seq<Option<nat>>)
    ensures Count(slots) == 0 <==> forall i :: 0 <= i < |slots| ==> slots[i].None?
    decreases |slots|
  {
    if slots != [] {
      CountZero(slots[1..]);
      if Count(slots) == 0 {
        forall i | 0 <= i < |slots| ensures slots[i].None? {
          if i > 0 { assert slots[i] == slots[1..][i - 1]; }
        }
      } else if slots[0].None? {
        var i :| 0 <= i < |slots[1..]| && slots[1..][i].Some?;
        assert slots[i + 1].Some?;
      }
    }
  }

  // ---- The invariant ----

  ghost predicate Counted(q: Request) {
    && Sized(q) && !q.failed
    && q.pendingPep == Count(q.pep) && q.pendingVcard == Count(q.vcard)
  }

  /** What stands at an index: a PEP request, a vCard request or the alias of that contact; or nothing,
      if the connection was lost meanwhile. */
  ghost predicate SlotOk(q: Request, i: nat, lost: bool)
    requires Sized(q) && i < |q.contacts|
  {
    && (q.pep[i].Some? ==> q.vcard[i].None? && q.aliases[i].None?)
    && (q.vcard[i].Some? ==> q.aliases[i].None?)
    && (q.aliases[i].Some? ==> q.aliases[i].value.contact == q.contacts[i])
    && (q.pep[i].Some? || q.vcard[i].Some? || q.aliases[i].Some? || lost)
  }

  ghost predicate Inv(q: Request, lost: bool) {
    && Counted(q)
    && (forall i :: 0 <= i < |q.contacts| ==> SlotOk(q, i, lost))
    && q.answers == if q.pendingPep == 0 && q.pendingVcard == 0 then [q.aliases] else []
  }

  // ---- The first round ----

  /** The loop has dealt with the first `i` contacts. */
  ghost predicate Asking(q: Request, i: nat) {
    && Counted(q) && i <= |q.contacts| && q.answers == []
    && (forall j :: 0 <= j < i ==> SlotOk(q, j, false))
    && (forall j :: i <= j < |q.contacts| ==> q.pep[j].None? && q.vcard[j].None? && q.aliases[j].None?)
  }

  lemma AskKeeps(q: Request, i: nat, cache: Cache, pep: bool)
    requires Asking(q, i) && i < |q.contacts|
    ensures Asking(Ask(q, i, cache, pep), i + 1)
  {
    CountUpdate(q.pep, i, Some(q.nextId));
    CountUpdate(q.vcard, i, Some(q.nextId));
    var q' := Ask(q, i, cache, pep);
    forall j | 0 <= j < i + 1 ensures SlotOk(q', j, false) {
      if j < i { assert SlotOk(q, j, false); }
    }
  }

  lemma {:induction false} AskAllKeeps(q: Request, i: nat, cache: Cache, pep: bool)
    requires Asking(q, i)
    ensures Asking(AskAll(q, i, cache, pep), |q.contacts|)
    decreases |q.contacts| - i
  {
    if i < |q.contacts| {
      AskKeeps(q, i, cache, pep);
      AskAllKeeps(Ask(q, i, cache, pep), i + 1, cache, pep);
    }
  }

  lemma StartKeeps(contacts: seq<Handle>, cache: Cache, pep: bool)
    ensures Inv(RequestAliases(contacts, cache, pep), false)
    ensures RequestAliases(contacts, cache, pep).contacts == contacts
  {
    var q := NewRequest(contacts);
    CountZero(q.pep);
    CountZero(q.vcard);
    AskAllKeeps(q, 0, cache, pep);
    var q1, q2 := AskAll(q, 0, cache, pep), RequestAliases(contacts, cache, pep);
    forall i | 0 <= i < |contacts| ensures SlotOk(q2, i, false) {
      assert SlotOk(q1, i, false);
    }
  }

  // ---- The replies ----

  lemma PepKeeps(q: Request, i: nat, cache: Cache, connected: bool, lost: bool)
    requires Inv(q, lost) && i < |q.pep| && q.pep[i].Some?
    ensures Inv(PepDone(q, i, cache, connected), lost || !connected)
  {
    CountUpdate(q.pep, i, None);
    CountUpdate(q.vcard, i, Some(q.nextId));
    var q', lost' := PepDone(q, i, cache, connected), lost || !connected;
    assert SlotOk(q, i, lost);
    assert q.answers == [];
    forall j | 0 <= j < |q.contacts| ensures SlotOk(q', j, lost') {
      assert SlotOk(q, j, lost);
    }
  }

  lemma VcardKeeps(q: Request, id: nat, cache: Cache, lost: bool)
    requires Inv(q, lost) && Some(id) in q.vcard
    ensures Inv(VcardDone(q, id, cache), lost)
  {
    var i := IndexOf(q.vcard, id);
    assert i < |q.vcard|;
    CountUpdate(q.vcard, i, None);
    var q' := VcardDone(q, id, cache);
    assert SlotOk(q, i, lost);
    assert q.answers == [];
    forall j | 0 <= j < |q.contacts| ensures SlotOk(q', j, lost) {
      assert SlotOk(q, j, lost);
    }
  }

  /** Whether a PEP reply found the connection down. */
  predicate Lost(evs: seq<Event>) {
    exists k :: 0 <= k < |evs| && evs[k].PepReply? && !evs[k].connected
  }

  lemma LostSnoc(evs: seq<Event>, ev: Event)
    ensures Lost(evs + [ev]) <==> Lost(evs) || (ev.PepReply? && !ev.connected)
  {
    var evs' := evs + [ev];
    if Lost(evs) {
      var k :| 0 <= k < |evs| && evs[k].PepReply? && !evs[k].connected;
      assert evs'[k] == evs[k];
    }
    assert evs'[|evs|] == ev;
  }

  lemma {:induction false} RunKeeps(contacts: seq<Handle>, cache: Cache, pep: bool, evs: seq<Event>)
    ensures Inv(Run(contacts, cache, pep, evs), Lost(evs)) && Run(contacts, cache, pep, evs).contacts == contacts
    decreases |evs|
  {
    if evs == [] {
      StartKeeps(contacts, cache, pep);
    } else {
      var front, ev := evs[..|evs| - 1], evs[|evs| - 1];
      RunKeeps(contacts, cache, pep, front);
      assert evs == front + [ev];
      LostSnoc(front, ev);
      StepKeeps(Run(contacts, cache, pep, front), ev, Lost(front));
    }
  }

  lemma Weaken(q: Request, lost: bool, lost': bool)
    requires Inv(q, lost) && (lost ==> lost')
    ensures Inv(q, lost')
  {
    forall i | 0 <= i < |q.contacts| ensures SlotOk(q, i, lost') { assert SlotOk(q, i, lost); }
  }

  lemma StepKeeps(q: Request, ev: Event, lost: bool)
    requires Inv(q, lost)
    ensures Inv(Step(q, ev), lost || (ev.PepReply? && !ev.connected)) && Step(q, ev).contacts == q.contacts
  {
    if !Enabled(q, ev) { Weaken(q, lost, lost || (ev.PepReply? && !ev.connected)); }
    else if ev.PepReply? { PepKeeps(q, ev.index, ev.cache, ev.connected, lost); }
    else { VcardKeeps(q, ev.id, ev.cache, lost); }
  }

  // ---- What every run guarantees ----

  /** In every interleaving: no assertion fails; each counter is the number of requests standing in its
      array; the call is answered once, with the aliases found, exactly when nothing is pending; and
      every alias is that of the contact at its index. */
  lemma {:induction false} Accounting(contacts: seq<Handle>, cache: Cache, pep: bool, evs: seq<Event>)
    ensures var q := Run(contacts, cache, pep, evs);
            && !q.failed && Sized(q) && q.contacts == contacts
            && q.pendingPep == Count(q.pep) && q.pendingVcard == Count(q.vcard)
            && (forall i :: 0 <= i < |contacts| && q.aliases[i].Some? ==> q.aliases[i].value.contact == contacts[i])
            && (if (forall i :: 0 <= i < |contacts| ==> q.pep[i].None? && q.vcard[i].None?)
                then q.answers == [q.aliases] else q.answers == [])
  {
    RunKeeps(contacts, cache, pep, evs);
    var q := Run(contacts, cache, pep, evs);
    CountZero(q.pep);
    CountZero(q.vcard);
    forall i | 0 <= i < |contacts| && q.aliases[i].Some? ensures q.aliases[i].value.contact == contacts[i] {
      assert SlotOk(q, i, Lost(evs));
    }
  }

  /** If the connection stays up, the answer has an alias for every contact. */
  lemma {:induction false} AllAliases(contacts: seq<Handle>, cache: Cache, pep: bool, evs: seq<Event>, i: nat)
    requires !Lost(evs) && i < |contacts|
    requires Run(contacts, cache, pep, evs).answers != []
    ensures var a := Run(contacts, cache, pep, evs).answers[0];
            |a| == |contacts| && a[i].Some? && a[i].value.contact == contacts[i]
  {
    RunKeeps(contacts, cache, pep, evs);
    var q := Run(contacts, cache, pep, evs);
    CountZero(q.pep);
    CountZero(q.vcard);
    assert SlotOk(q, i, false);
  }
}
