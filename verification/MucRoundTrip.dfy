/** Reassembly undoes fragmentation, whatever else is said in the room. */
module MucRoundTrip {
  import opened Common
  import opened MucSpec

  // ---- The fragments of one message ----

  function DataOf(stanzas: seq<Stanza>): Bytes {
    if stanzas == [] then [] else stanzas[0].data + DataOf(stanzas[1..])
  }

  /** Characters after base64 encoding. */
  function Base64Length(n: nat): nat { (n + 2) / 3 * 4 }

  /** Every fragment is at most 45k, 60k after encoding, and together they are the message. */
  lemma {:induction false} FragmentSizes(str: Bytes, sent: nat, count: nat)
    requires sent <= |str|
    ensures var f := FragmentsFrom(str, sent, count);
            && DataOf(f) == str[sent..]
            && |f| == (|str| - sent + MAX_BLOCK_SIZE - 1) / MAX_BLOCK_SIZE
            && forall k :: 0 <= k < |f| ==>
                 0 < |f[k].data| <= MAX_BLOCK_SIZE == 46080 && Base64Length(|f[k].data|) <= 61440
    decreases |str| - sent
  {
    if sent < |str| {
      var s := NextStanza(str, sent, count);
      FragmentSizes(str, sent + |s.data|, count + 1);
      assert s.data + str[sent + |s.data|..] == str[sent..];
    }
  }

  /** A message that fits one stanza is sent as complete; otherwise the first fragment is marked as such,
      the last one too, and those between as middle. */
  lemma {:induction false} FragmentMarks(str: Bytes, sent: nat, count: nat, k: nat)
    requires sent <= |str| && k < |FragmentsFrom(str, sent, count)|
    ensures var f := FragmentsFrom(str, sent, count);
            f[k].frag == if k == |f| - 1 then (if count + k == 0 then Complete else Last)
                         else (if count + k == 0 then First else Middle)
    decreases |str| - sent
  {
    var s := NextStanza(str, sent, count);
    var rest := FragmentsFrom(str, sent + |s.data|, count + 1);
    if k > 0 { FragmentMarks(str, sent + |s.data|, count + 1, k - 1); }
  }

  // ---- One sender ----

  /** The buffer and the messages after a run of stanzas from one sender. */
  function Deliver(buffer: Option<Bytes>, stanzas: seq<Stanza>): (Option<Bytes>, seq<Bytes>)
    decreases |stanzas|
  {
    if stanzas == [] then (buffer, [])
    else
      var (b, m) := Reassemble(buffer, stanzas[0]);
      var (b', ms) := Deliver(b, stanzas[1..]);
      (b', if m.Some? then [m.value] + ms else ms)
  }

  lemma DeliverOne(buffer: Option<Bytes>, s: Stanza)
    ensures var (b, m) := Reassemble(buffer, s);
            Deliver(buffer, [s]) == (b, if m.Some? then [m.value] else [])
  {
    assert [s][1..] == [];
    var m := Reassemble(buffer, s).1;
    if m.Some? { assert [m.value] + [] == [m.value]; }
  }

  lemma {:induction false} DeliverConcat(buffer: Option<Bytes>, xs: seq<Stanza>, ys: seq<Stanza>)
    ensures var (b, ms) := Deliver(buffer, xs);
            Deliver(buffer, xs + ys) == (Deliver(b, ys).0, ms + Deliver(b, ys).1)
    decreases |xs|
  {
    if xs == [] {
      assert xs + ys == ys;
      assert [] + Deliver(buffer, ys).1 == Deliver(buffer, ys).1;
    } else {
      var (b, m) := Reassemble(buffer, xs[0]);
      DeliverConcat(b, xs[1..], ys);
      assert (xs + ys)[0] == xs[0] && (xs + ys)[1..] == xs[1..] + ys;
      var (b1, ms) := Deliver(b, xs[1..]);
      if m.Some? { assert [m.value] + (ms + Deliver(b1, ys).1) == [m.value] + ms + Deliver(b1, ys).1; }
    }
  }

  /** The rest of a message, after its first stanza. */
  lemma {:induction false} RestDelivered(str: Bytes, sent: nat, count: nat, n: nat, buffer: Option<Bytes>)
    requires sent <= |str| && count > 0 && n <= |FragmentsFrom(str, sent, count)|
    requires buffer.Some? ==> buffer.value == str[..sent]
    ensures var f := FragmentsFrom(str, sent, count);
            var (b, ms) := Deliver(buffer, f[..n]);
            && ms == (if n == |f| > 0 && buffer.Some? then [str] else [])
            && (buffer.None? ==> b.None?)
    decreases n
  {
    var f := FragmentsFrom(str, sent, count);
    if n > 0 {
      var s := NextStanza(str, sent, count);
      var sent' := sent + |s.data|;
      assert f[..n][0] == s && f[..n][1..] == f[1..][..n - 1];
      assert str[..sent] + s.data == str[..sent'];
      if s.frag == Last {
        assert str[..sent'] == str;
        assert f[1..][..n - 1] == [];
      } else {
        RestDelivered(str, sent', count + 1, n - 1, Reassemble(buffer, s).0);
      }
    }
  }

  /** The first `n` stanzas of a message deliver it if they are all of them, and otherwise nothing,
      whatever was buffered before. */
  lemma AttemptDelivered(str: Bytes, n: nat, buffer: Option<Bytes>)
    requires n <= |Fragments(str)|
    ensures Deliver(buffer, Fragments(str)[..n]).1 == if n == |Fragments(str)| > 0 then [str] else []
  {
    var f := Fragments(str);
    if n > 0 {
      var s := NextStanza(str, 0, 0);
      assert f[..n][0] == s && f[..n][1..] == f[1..][..n - 1];
      if s.frag == Complete {
        assert s.data == str && FragmentsFrom(str, |str|, 1) == [];
        assert f == [s] && f[1..][..n - 1] == [];
      } else {
        assert s.data == str[..MAX_BLOCK_SIZE];
        RestDelivered(str, MAX_BLOCK_SIZE, 1, n - 1, Some(s.data));
      }
    }
  }

  /** Stanzas that continue a message. */
  predicate Headless(stanzas: seq<Stanza>) {
    forall k :: 0 <= k < |stanzas| ==> stanzas[k].frag == Middle || stanzas[k].frag == Last
  }

  lemma {:induction false} HeadlessDropped(stanzas: seq<Stanza>)
    requires Headless(stanzas)
    ensures Deliver(None, stanzas) == (None, [])
    decreases |stanzas|
  {
    if stanzas != [] { HeadlessDropped(stanzas[1..]); }
  }

  lemma {:induction false} RestHeadless(str: Bytes, sent: nat, count: nat)
    requires sent <= |str| && count > 0
    ensures Headless(FragmentsFrom(str, sent, count))
    decreases |str| - sent
  {
    if sent < |str| { RestHeadless(str, sent + |NextStanza(str, sent, count).data|, count + 1); }
  }

  /** A message whose first stanza was missed delivers nothing and leaves nothing behind. */
  lemma TailDropped(str: Bytes, n: nat, d: nat)
    requires 0 < d <= n <= |Fragments(str)|
    ensures Deliver(None, Fragments(str)[..n][d..]) == (None, [])
  {
    RestHeadless(str, |NextStanza(str, 0, 0).data|, 1);
    var f := Fragments(str);
    assert f[1..] == FragmentsFrom(str, |NextStanza(str, 0, 0).data|, 1);
    assert forall k :: 1 <= k < |f| ==> f[k] == f[1..][k - 1];
    HeadlessDropped(f[..n][d..]);
  }

  /** A message handed over, of which the connection took `taken` stanzas. */
  datatype Attempt = Attempt(str: Bytes, taken: nat)

  function StanzasOf(a: Attempt): seq<Stanza> {
    if a.taken <= |Fragments(a.str)| then Fragments(a.str)[..a.taken] else Fragments(a.str)
  }

  predicate Whole(a: Attempt) { a.str != [] && a.taken >= |Fragments(a.str)| }

  function Sent(attempts: seq<Attempt>): seq<Stanza> {
    if attempts == [] then [] else StanzasOf(attempts[0]) + Sent(attempts[1..])
  }

  /** The messages sent whole, those begun before the `d`-th stanza excepted. */
  function Expected(attempts: seq<Attempt>, d: nat): seq<Bytes> {
    if attempts == [] then []
    else
      var k := |StanzasOf(attempts[0])|;
      if d > 0 then Expected(attempts[1..], if d < k then 0 else d - k)
      else (if Whole(attempts[0]) then [attempts[0].str] else []) + Expected(attempts[1..], 0)
  }

  lemma FragmentsEmpty(str: Bytes)
    ensures Fragments(str) == [] <==> str == []
  {
  }

  lemma AttemptStanzas(a: Attempt, buffer: Option<Bytes>)
    ensures Deliver(buffer, StanzasOf(a)).1 == if Whole(a) then [a.str] else []
  {
    var f := Fragments(a.str);
    var n := if a.taken <= |f| then a.taken else |f|;
    assert StanzasOf(a) == f[..n];
    FragmentsEmpty(a.str);
    AttemptDelivered(a.str, n, buffer);
  }

  lemma AttemptTail(a: Attempt, d: nat)
    requires 0 < d <= |StanzasOf(a)|
    ensures Deliver(None, StanzasOf(a)[d..]) == (None, [])
  {
    var f := Fragments(a.str);
    var n := if a.taken <= |f| then a.taken else |f|;
    assert StanzasOf(a) == f[..n];
    TailDropped(a.str, n, d);
  }

  lemma {:induction false} SenderFromStart(attempts: seq<Attempt>, buffer: Option<Bytes>)
    ensures Deliver(buffer, Sent(attempts)).1 == Expected(attempts, 0)
    decreases |attempts|
  {
    if attempts != [] {
      var f, rest := StanzasOf(attempts[0]), Sent(attempts[1..]);
      AttemptStanzas(attempts[0], buffer);
      DeliverConcat(buffer, f, rest);
      SenderFromStart(attempts[1..], Deliver(buffer, f).0);
    }
  }

  lemma TailThenRest(a: Attempt, d: nat, rest: seq<Stanza>)
    requires 0 < d <= |StanzasOf(a)|
    ensures Deliver(None, (StanzasOf(a) + rest)[d..]) == Deliver(None, rest)
  {
    var tail := StanzasOf(a)[d..];
    AttemptTail(a, d);
    DeliverConcat(None, tail, rest);
    assert (StanzasOf(a) + rest)[d..] == tail + rest;
    assert [] + Deliver(None, rest).1 == Deliver(None, rest).1;
  }

  /** One sender's stanzas, heard from the `d`-th on, give exactly the messages expected. */
  lemma {:induction false} SenderRoundTrip(attempts: seq<Attempt>, d: nat)
    requires d <= |Sent(attempts)|
    ensures Deliver(None, Sent(attempts)[d..]).1 == Expected(attempts, d)
    decreases |attempts|
  {
    if d == 0 {
      SenderFromStart(attempts, None);
      assert Sent(attempts)[0..] == Sent(attempts);
    } else if attempts != [] {
      var f, rest := StanzasOf(attempts[0]), Sent(attempts[1..]);
      if d < |f| {
        TailThenRest(attempts[0], d, rest);
        SenderFromStart(attempts[1..], None);
      } else {
        SenderRoundTrip(attempts[1..], d - |f|);
        assert (f + rest)[d..] == rest[d - |f|..];
      }
    }
  }

  // ---- The room ----

  function Hear(r: Receiver, log: seq<Entry>): Receiver {
    if log == [] then r else Receive(Hear(r, log[..|log| - 1]), log[|log| - 1])
  }

  /** The stanzas of one member. */
  function From(log: seq<Entry>, from: Member): seq<Stanza> {
    if log == [] then []
    else
      var e := log[|log| - 1];
      var heard := From(log[..|log| - 1], from);
      if e.known && e.from == from then heard + [e.stanza] else heard
  }

  function DeliveredFrom(d: seq<(Member, Bytes)>, from: Member): seq<Bytes> {
    if d == [] then []
    else
      var front := DeliveredFrom(d[..|d| - 1], from);
      if d[|d| - 1].0 == from then front + [d[|d| - 1].1] else front
  }

  /** What is buffered for and delivered from one member depends on that member's stanzas only. */
  lemma {:induction false} Projection(log: seq<Entry>, from: Member)
    ensures var r := Hear(Receiver(map[], []), log);
            (BufferOf(r, from), DeliveredFrom(r.delivered, from)) == Deliver(None, From(log, from))
    decreases |log|
  {
    if log != [] {
      var front, e := log[..|log| - 1], log[|log| - 1];
      var r := Hear(Receiver(map[], []), front);
      Projection(front, from);
      if e.known { ProjectionStep(r, e, from, From(front, from)); }
    }
  }

  lemma ProjectionStep(r: Receiver, e: Entry, from: Member, heard: seq<Stanza>)
    requires e.known && (BufferOf(r, from), DeliveredFrom(r.delivered, from)) == Deliver(None, heard)
    ensures var r' := Receive(r, e);
            (BufferOf(r', from), DeliveredFrom(r'.delivered, from))
            == Deliver(None, if e.from == from then heard + [e.stanza] else heard)
  {
    var (buffer, message) := Reassemble(BufferOf(r, e.from), e.stanza);
    var r' := Receive(r, e);
    if message.Some? {
      assert r'.delivered[..|r.delivered|] == r.delivered;
    }
    if e.from == from {
      DeliverConcat(None, heard, [e.stanza]);
      DeliverOne(BufferOf(r, from), e.stanza);
      assert DeliveredFrom(r.delivered, from) + [] == DeliveredFrom(r.delivered, from);
    }
  }

  /** Whatever the interleaving of the members' stanzas, and wherever the receiver began to listen:
      if the stanzas of a member are what it sent from the `d`-th on, the messages delivered from it
      are those it sent whole and of which the first stanza was heard, in order. */
  lemma {:induction false} RoundTrip(log: seq<Entry>, from: Member, attempts: seq<Attempt>, d: nat)
    requires d <= |Sent(attempts)| && From(log, from) == Sent(attempts)[d..]
    ensures DeliveredFrom(Hear(Receiver(map[], []), log).delivered, from) == Expected(attempts, d)
  {
    Projection(log, from);
    SenderRoundTrip(attempts, d);
  }

  // ---- Any stanzas at all ----

  /** A message begun at `i` is not over before `k`: there is no other beginning, end or complete message. */
  predicate Begun(stanzas: seq<Stanza>, i: nat, k: nat) {
    && i < k <= |stanzas| && stanzas[i].frag == First
    && forall j :: i < j < k ==> stanzas[j].frag == Middle || stanzas[j].frag == Invalid
  }

  /** The data of the stanzas from `i` to `k` that are understood. */
  function Gathered(stanzas: seq<Stanza>, i: nat, k: nat): Bytes
    requires i <= k <= |stanzas|
  {
    if i == k then []
    else Gathered(stanzas, i, k - 1) + if stanzas[k - 1].frag == Invalid then [] else stanzas[k - 1].data
  }

  lemma {:induction false} GatheredPrefix(stanzas: seq<Stanza>, more: seq<Stanza>, i: nat, k: nat)
    requires i <= k <= |stanzas|
    ensures Gathered(stanzas + more, i, k) == Gathered(stanzas, i, k)
    decreases k
  {
    if i < k { GatheredPrefix(stanzas, more, i, k - 1); }
  }

  /** What is buffered after any stanzas of one sender: the message begun and not over, if there is one. */
  ghost predicate BufferIs(stanzas: seq<Stanza>, buffer: Option<Bytes>) {
    && (buffer.None? ==> forall i: nat :: !Begun(stanzas, i, |stanzas|))
    && (buffer.Some? ==> exists i: nat :: Begun(stanzas, i, |stanzas|) && buffer.value == Gathered(stanzas, i, |stanzas|))
  }

  lemma {:induction false} BegunSnoc(stanzas: seq<Stanza>, s: Stanza, i: nat)
    ensures var all := stanzas + [s];
            Begun(all, i, |all|) <==>
              || (i == |stanzas| && s.frag == First)
              || (Begun(stanzas, i, |stanzas|) && (s.frag == Middle || s.frag == Invalid))
  {
    var all := stanzas + [s];
    assert all[|stanzas|] == s;
    if Begun(all, i, |all|) && i < |stanzas| { assert forall j :: i <= j < |stanzas| ==> all[j] == stanzas[j]; }
  }

  lemma {:induction false} BufferSnoc(stanzas: seq<Stanza>, s: Stanza, buffer: Option<Bytes>)
    requires BufferIs(stanzas, buffer)
    ensures BufferIs(stanzas + [s], Reassemble(buffer, s).0)
  {
    var all, n := stanzas + [s], |stanzas|;
    var b := Reassemble(buffer, s).0;
    forall i: nat ensures Begun(all, i, |all|) <==>
                       (i == n && s.frag == First) || (Begun(stanzas, i, n) && (s.frag == Middle || s.frag == Invalid)) {
      BegunSnoc(stanzas, s, i);
    }
    if b.Some? {
      if s.frag == First {
        assert Begun(all, n, |all|) && Gathered(all, n, n) == [];
        assert b.value == Gathered(all, n, |all|);
      } else {
        var i :| Begun(stanzas, i, n) && buffer.value == Gathered(stanzas, i, n);
        GatheredPrefix(stanzas, [s], i, n);
        assert Begun(all, i, |all|);
        assert buffer.value + [] == buffer.value;
        assert b.value == Gathered(all, i, |all|);
      }
    }
  }

  lemma {:induction false} BufferAfter(stanzas: seq<Stanza>)
    ensures BufferIs(stanzas, Deliver(None, stanzas).0)
    decreases |stanzas|
  {
    if stanzas != [] {
      var front, s := stanzas[..|stanzas| - 1], stanzas[|stanzas| - 1];
      BufferAfter(front);
      assert stanzas == front + [s];
      DeliverConcat(None, front, [s]);
      DeliverOne(Deliver(None, front).0, s);
      BufferSnoc(front, s, Deliver(None, front).0);
    }
  }

  lemma {:induction false} OneBeginning(stanzas: seq<Stanza>, i: nat, j: nat)
    requires Begun(stanzas, i, |stanzas|) && Begun(stanzas, j, |stanzas|)
    ensures i == j
  {
  }

  /** Whatever stanzas a sender sends, in whatever order: one more delivers its data if it is a complete
      message, and the message begun before if it is the end of that; and nothing else is delivered. */
  lemma {:induction false} Delivers(stanzas: seq<Stanza>, s: Stanza)
    ensures var before, after := Deliver(None, stanzas).1, Deliver(None, stanzas + [s]).1;
            && (s.frag == Complete ==> after == before + [s.data])
            && (s.frag == Last ==>
                  && (forall i: nat :: Begun(stanzas, i, |stanzas|) ==>
                        after == before + [Gathered(stanzas, i, |stanzas|) + s.data])
                  && ((forall i: nat :: !Begun(stanzas, i, |stanzas|)) ==> after == before))
            && (s.frag != Complete && s.frag != Last ==> after == before)
  {
    DeliverConcat(None, stanzas, [s]);
    BufferAfter(stanzas);
    var (b, before) := Deliver(None, stanzas);
    DeliverOne(b, s);
    assert before + [] == before;
    if s.frag == Last && b.Some? {
      var k :| Begun(stanzas, k, |stanzas|) && b.value == Gathered(stanzas, k, |stanzas|);
      forall i: nat | Begun(stanzas, i, |stanzas|) ensures i == k { OneBeginning(stanzas, i, k); }
    }
  }
}
