/** One call to RequestAliases and the PEP and vCard requests it waits for (src/conn-aliasing.c). */
module AliasSpec {
  import opened Common

  type Handle = nat

  /** What the caches hold for a contact: the text, and whether it comes from a vCard or better, or no
      vCard would help. */
  datatype Cached = Cached(text: string, good: bool)

  type Cache = Handle -> Cached

  /** An alias, and the contact it was looked up for. */
  datatype Alias = Alias(contact: Handle, text: string)

  /** `_gabble_connection_get_cached_alias` */
  function LookUp(cache: Cache, h: Handle): Alias { Alias(h, cache(h).text) }

  /** The request: `contacts`, `pep_requests`, `vcard_requests` (by number, `None` for NULL), the two
      counters and `aliases`; the answers given to the caller, and whether an assertion failed. */
  datatype Request = Request(
    contacts: seq<Handle>, pep: seq<Option<nat>>, vcard: seq<Option<nat>>, pendingPep: int, pendingVcard: int,
    aliases: seq<Option<Alias>>, nextId: nat, answers: seq<seq<Option<Alias>>>, failed: bool)

  function NewRequest(contacts: seq<Handle>): Request {
    var n := |contacts|;
    Request(contacts, seq(n, _ => None), seq(n, _ => None), 0, 0, seq(n, _ => None), 0, [], false)
  }

  predicate Sized(q: Request) {
    |q.pep| == |q.contacts| && |q.vcard| == |q.contacts| && |q.aliases| == |q.contacts|
  }

  function AskPep(q: Request, i: nat): Request
    requires Sized(q) && i < |q.contacts|
  {
    q.(pep := q.pep[i := Some(q.nextId)], pendingPep := q.pendingPep + 1, nextId := q.nextId + 1)
  }

  function AskVcard(q: Request, i: nat): Request
    requires Sized(q) && i < |q.contacts|
  {
    q.(vcard := q.vcard[i := Some(q.nextId)], pendingVcard := q.pendingVcard + 1, nextId := q.nextId + 1)
  }

  function Fill(q: Request, i: nat, alias: Alias): Request
    requires Sized(q) && i < |q.contacts|
  {
    q.(aliases := q.aliases[i := Some(alias)])
  }

  /** One turn of the loop of `gabble_connection_request_aliases`. */
  function Ask(q: Request, i: nat, cache: Cache, pep: bool): Request
    requires Sized(q) && i < |q.contacts|
  {
    var handle := q.contacts[i];
    if cache(handle).good then Fill(q, i, LookUp(cache, handle)) else if pep then AskPep(q, i) else AskVcard(q, i)
  }

  function AskAll(q: Request, i: nat, cache: Cache, pep: bool): (r: Request)
    requires Sized(q) && i <= |q.contacts|
    ensures Sized(r) && r.contacts == q.contacts
    decreases |q.contacts| - i
  {
    if i == |q.contacts| then q else AskAll(Ask(q, i, cache, pep), i + 1, cache, pep)
  }

  /** `aliases_request_try_return` */
  function TryReturn(q: Request): Request {
    if q.pendingVcard == 0 && q.pendingPep == 0 then q.(answers := q.answers + [q.aliases]) else q
  }

  function RequestAliases(contacts: seq<Handle>, cache: Cache, pep: bool): Request {
    TryReturn(AskAll(NewRequest(contacts), 0, cache, pep))
  }

  /** The PEP request at an index has ended, in whatever way. */
  function PepDone(q: Request, i: nat, cache: Cache, connected: bool): Request
    requires Sized(q) && i < |q.contacts|
  {
    var q1 := q.(pendingPep := q.pendingPep - 1, pep := q.pep[i := None]);
    var handle := q.contacts[i];
    TryReturn(
      if cache(handle).good then Fill(q1, i, LookUp(cache, handle))
      else if !connected then q1
      else AskVcard(q1, i))
  }

  /** The first index at which a request stands. */
  function IndexOf(requests: seq<Option<nat>>, id: nat): (k: nat)
    ensures k <= |requests| && (k < |requests| ==> requests[k] == Some(id))
    ensures forall j :: 0 <= j < k ==> requests[j] != Some(id)
    decreases |requests|
  {
    if requests == [] || requests[0] == Some(id) then 0 else
      assert forall j :: 1 <= j < |requests| ==> requests[j] == requests[1..][j - 1];
      1 + IndexOf(requests[1..], id)
  }

  function VcardDone(q: Request, id: nat, cache: Cache): Request
    requires Sized(q)
  {
    var i := IndexOf(q.vcard, id);
    if q.pendingVcard <= 0 || i == |q.vcard| then q.(failed := true)
    else
      var alias := LookUp(cache, q.contacts[i]);
      TryReturn(Fill(q.(pendingVcard := q.pendingVcard - 1, vcard := q.vcard[i := None]), i, alias))
  }
}
