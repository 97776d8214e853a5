/** A client that applies every signal holds the same mails as the connection. */
module MailReplication {
  import opened Common
  import opened MailSpec

  /** What a client makes of a signal. */
  function Follow(mine: map<Tid, Mail>, signal: Signal): map<Tid, Mail> { (mine - signal.removed) + signal.added }

  /** The connection's table and a client's copy after a series of replies in one subscription. */
  function Run(replies: seq<seq<Thread>>): (map<Tid, Mail>, map<Tid, Mail>) {
    if replies == [] then (map[], map[])
    else
      var (unread, mine) := Run(replies[..|replies| - 1]);
      var (unread', signal) := Store(unread, replies[|replies| - 1]);
      (unread', Follow(mine, signal))
  }

  /** No thread is listed twice in a reply. */
  ghost predicate DistinctTids(threads: seq<Thread>) {
    forall i, j :: 0 <= i < j < |threads| && threads[i].tid.Some? ==> threads[i].tid != threads[j].tid
  }

  /** The two copies of a mail agree on all but who the senders are. */
  predicate Same(a: Mail, b: Mail) {
    && DateOf(a) == DateOf(b) && a.subject == b.subject && a.content == b.content && a.truncated == b.truncated
    && a.senders.Some? == b.senders.Some? && (a.senders.Some? ==> |a.senders.value| == |b.senders.value|)
  }

  ghost predicate Agree(unread: map<Tid, Mail>, mine: map<Tid, Mail>) {
    unread.Keys == mine.Keys && forall tid :: tid in unread ==> Same(unread[tid], mine[tid])
  }

  /** A mail that is not announced again has not changed. */
  lemma CleanIsSame(m: Mail, t: Thread, copy: Mail)
    requires !Update(m, t).1 && Same(m, copy)
    ensures Same(Update(m, t).0, copy)
  {
  }

  /** Half way through a reply that began with `start`: `done` are the threads handled. */
  ghost predicate Collecting(start: map<Tid, Mail>, c: Collector, done: set<Tid>) {
    && c.former == start - done
    && c.unread.Keys == done
    && (forall tid :: tid in c.added ==> tid in done)
    && (forall tid :: tid in done && tid !in c.added ==> tid in start && Unannounced(start[tid], c.unread[tid]))
  }

  /** A copy of `before` is as good as a copy of `after`. */
  ghost predicate Unannounced(before: Mail, after: Mail) {
    forall copy :: Same(before, copy) ==> Same(after, copy)
  }

  lemma CollectKeeps(start: map<Tid, Mail>, c: Collector, done: set<Tid>, t: Thread)
    requires Collecting(start, c, done) && t.tid.Some? && t.tid.value !in done
    ensures Collecting(start, Collect(c, t), done + {t.tid.value})
  {
    var tid := t.tid.value;
    var c' := Collect(c, t);
    assert c'.former == start - (done + {tid});
    if tid !in c'.added {
      assert tid in c.former;
      forall copy | Same(start[tid], copy) ensures Same(c'.unread[tid], copy) {
        CleanIsSame(start[tid], t, copy);
      }
    }
  }

  function TidsOf(threads: seq<Thread>): set<Tid> { set t | t in threads && t.tid.Some? :: t.tid.value }

  lemma {:induction false} CollectAllKeeps(start: map<Tid, Mail>, c: Collector, done: set<Tid>, threads: seq<Thread>)
    requires Collecting(start, c, done) && DistinctTids(threads) && TidsOf(threads) !! done
    ensures Collecting(start, CollectAll(c, threads), done + TidsOf(threads))
    decreases |threads|
  {
    if threads == [] {
      assert done + TidsOf(threads) == done;
    } else {
      var t, rest := threads[0], threads[1..];
      assert threads == [t] + rest;
      if t.tid.Some? {
        assert t.tid.value in TidsOf(threads);
        CollectKeeps(start, c, done, t);
        RestDistinct(threads);
        CollectAllKeeps(start, Collect(c, t), done + {t.tid.value}, rest);
        assert done + {t.tid.value} + TidsOf(rest) == done + TidsOf(threads);
      } else {
        assert TidsOf(rest) == TidsOf(threads);
        CollectAllKeeps(start, c, done, rest);
      }
    }
  }

  lemma RestDistinct(threads: seq<Thread>)
    requires threads != [] && threads[0].tid.Some? && DistinctTids(threads)
    ensures threads[0].tid.value !in TidsOf(threads[1..])
    ensures TidsOf(threads) == {threads[0].tid.value} + TidsOf(threads[1..])
  {
    assert threads == [threads[0]] + threads[1..];
    forall t | t in threads[1..] ensures t.tid != threads[0].tid {
      var j :| 0 <= j < |threads[1..]| && threads[1..][j] == t;
      assert threads[j + 1] == t;
    }
  }

  lemma {:induction false} StoreAgrees(unread: map<Tid, Mail>, mine: map<Tid, Mail>, threads: seq<Thread>)
    requires Agree(unread, mine) && DistinctTids(threads)
    ensures var (unread', signal) := Store(unread, threads); Agree(unread', Follow(mine, signal))
    ensures Store(unread, threads).0.Keys == TidsOf(threads)
  {
    var c := CollectAll(Collector(unread, map[], []), threads);
    CollectAllKeeps(unread, Collector(unread, map[], []), {}, threads);
    var tids := TidsOf(threads);
    assert {} + tids == tids;
    var (unread', signal) := Store(unread, threads);
    var mine' := Follow(mine, signal);
    assert signal.removed == unread.Keys - tids;
    assert mine'.Keys == tids;
    forall tid | tid in unread' ensures Same(unread'[tid], mine'[tid]) {
      if tid !in c.added { assert Unannounced(unread[tid], unread'[tid]); }
    }
  }

  /** Replication: after every series of replies the client has exactly the threads of the last reply,
      as the connection does, and agrees with it on date, subject, snippet and number of senders. */
  lemma {:induction false} Replication(replies: seq<seq<Thread>>)
    requires forall k :: 0 <= k < |replies| ==> DistinctTids(replies[k])
    ensures Agree(Run(replies).0, Run(replies).1)
    ensures replies != [] ==> Run(replies).1.Keys == TidsOf(replies[|replies| - 1])
    decreases |replies|
  {
    if replies != [] {
      var front := replies[..|replies| - 1];
      Replication(front);
      StoreAgrees(Run(front).0, Run(front).1, replies[|replies| - 1]);
    }
  }

  // ---- Who the senders are ----

  /** The signal that the last reply gave rise to. */
  function LastSignal(replies: seq<seq<Thread>>): Signal
    requires replies != []
  {
    Store(Run(replies[..|replies| - 1]).0, replies[|replies| - 1]).1
  }

  /** How many replies there had been when a thread was last announced. */
  function LastAnnounced(replies: seq<seq<Thread>>, tid: Tid): (k: nat)
    ensures k <= |replies|
  {
    if replies == [] then 0
    else if tid in LastSignal(replies).added then |replies|
    else LastAnnounced(replies[..|replies| - 1], tid)
  }

  /** The client's copy of a mail is the connection's mail as it was when last announced. */
  lemma {:induction false} CopyIsAsAnnounced(replies: seq<seq<Thread>>, tid: Tid)
    requires tid in Run(replies).1
    ensures var before := Run(replies[..LastAnnounced(replies, tid)]).0;
            tid in before && Run(replies).1[tid] == before[tid]
    decreases |replies|
  {
    if tid in LastSignal(replies).added {
      assert replies[..|replies|] == replies;
    } else {
      var front := replies[..|replies| - 1];
      CopyIsAsAnnounced(front, tid);
      var k := LastAnnounced(front, tid);
      assert front[..k] == replies[..k];
    }
  }

  function ThreadOf(threads: seq<Thread>, tid: Tid): Option<Thread>
    decreases |threads|
  {
    if threads == [] then None
    else if threads[0].tid == Some(tid) then Some(threads[0])
    else ThreadOf(threads[1..], tid)
  }

  /** The senders last listed for a thread since it appeared in the mailbox. */
  function Listed(replies: seq<seq<Thread>>, tid: Tid): Option<seq<Address>> {
    if replies == [] then None
    else
      var t := ThreadOf(replies[|replies| - 1], tid);
      if t.None? then None
      else if t.value.senders.Some? then Some(UnreadSenders(t.value.senders.value))
      else Listed(replies[..|replies| - 1], tid)
  }

  lemma {:induction false} AbsentUntouched(c: Collector, threads: seq<Thread>, tid: Tid)
    requires tid !in TidsOf(threads)
    ensures var c' := CollectAll(c, threads);
            (tid in c'.unread <==> tid in c.unread) && (tid in c.unread ==> c'.unread[tid] == c.unread[tid])
    decreases |threads|
  {
    if threads != [] {
      assert threads == [threads[0]] + threads[1..];
      assert threads[0] in threads;
      AbsentUntouched(Collect(c, threads[0]), threads[1..], tid);
    }
  }

  /** What becomes of one thread of a reply. */
  lemma {:induction false} ThreadStored(c: Collector, threads: seq<Thread>, tid: Tid)
    requires DistinctTids(threads) && tid in TidsOf(threads)
    ensures var t := ThreadOf(threads, tid); var c' := CollectAll(c, threads);
            && t.Some? && tid in c'.unread
            && c'.unread[tid] == Update(if tid in c.former then c.former[tid] else NewMail(), t.value).0
    decreases |threads|
  {
    var t, rest := threads[0], threads[1..];
    assert threads == [t] + rest;
    if t.tid == Some(tid) {
      RestDistinct(threads);
      AbsentUntouched(Collect(c, t), rest, tid);
    } else {
      assert DistinctTids(rest);
      ThreadStored(Collect(c, t), rest, tid);
    }
  }

  lemma UpdatedSenders(m: Mail, t: Thread)
    ensures Update(m, t).0.senders
            == if t.senders.Some? then Some(UnreadSenders(t.senders.value)) else m.senders
  {
  }

  lemma {:induction false} ThreadAbsent(threads: seq<Thread>, tid: Tid)
    requires tid !in TidsOf(threads)
    ensures ThreadOf(threads, tid).None?
    decreases |threads|
  {
    if threads != [] {
      assert threads == [threads[0]] + threads[1..];
      assert threads[0] in threads;
      ThreadAbsent(threads[1..], tid);
    }
  }

  /** The connection has the senders last listed. */
  lemma {:induction false} SendersAreListed(replies: seq<seq<Thread>>, tid: Tid)
    requires forall k :: 0 <= k < |replies| ==> DistinctTids(replies[k])
    ensures tid in Run(replies).0 ==> Run(replies).0[tid].senders == Listed(replies, tid)
    ensures tid !in Run(replies).0 ==> Listed(replies, tid).None?
    decreases |replies|
  {
    if replies != [] {
      var front, threads := replies[..|replies| - 1], replies[|replies| - 1];
      Replication(replies);
      Replication(front);
      SendersAreListed(front, tid);
      if tid in TidsOf(threads) {
        ThreadStored(Collector(Run(front).0, map[], []), threads, tid);
        UpdatedSenders(if tid in Run(front).0 then Run(front).0[tid] else NewMail(), ThreadOf(threads, tid).value);
      } else {
        ThreadAbsent(threads, tid);
      }
    }
  }

  /** Who the senders are is not replicated: in every run, for every thread held, the client's list is
      the connection's if and only if the senders last listed are those last listed when the thread
      was last announced. */
  lemma {:induction false} SendersStale(replies: seq<seq<Thread>>, tid: Tid)
    requires forall k :: 0 <= k < |replies| ==> DistinctTids(replies[k])
    requires tid in Run(replies).0
    ensures tid in Run(replies).1
    ensures Run(replies).0[tid].senders == Run(replies).1[tid].senders
            <==> Listed(replies, tid) == Listed(replies[..LastAnnounced(replies, tid)], tid)
  {
    Replication(replies);
    CopyIsAsAnnounced(replies, tid);
    SendersAreListed(replies, tid);
    SendersAreListed(replies[..LastAnnounced(replies, tid)], tid);
  }

  lemma {:induction false} SendersStaleExample()
    ensures var a, b := Address("a", "a@x"), Address("b", "b@x");
            var first := Thread(Some("1"), None, Some([Sender(true, a)]), None, None);
            var second := first.(senders := Some([Sender(true, b)]));
            var (unread, mine) := Run([[first], [second]]);
            "1" in unread && "1" in mine && unread["1"].senders == Some([b]) && mine["1"].senders == Some([a])
  {
    var a, b := Address("a", "a@x"), Address("b", "b@x");
    var first := Thread(Some("1"), None, Some([Sender(true, a)]), None, None);
    var second := first.(senders := Some([Sender(true, b)]));
    OneSender(a);
    OneSender(b);
    var m1 := NewMail().(senders := Some([a]));
    var m2 := m1.(senders := Some([b]));
    assert Update(NewMail(), first) == (m1, true);
    assert Update(m1, second) == (m2, false);
    OneThread(map[], first);
    OneThread(map["1" := m1], second);
    var none: map<Tid, Mail> := map[];
    var c1 := Collect(Collector(none, none, []), first);
    assert c1.unread == map["1" := m1] && c1.former == none && c1.added == ["1"];
    assert Announced(c1.unread, c1.added) == map["1" := m1] && c1.former.Keys == {};
    assert Store(none, [first]) == (map["1" := m1], Signal(map["1" := m1], {}));
    var r1 := [[first]];
    assert r1[..0] == [] && r1[0] == [first];
    assert Follow(none, Signal(map["1" := m1], {})) == map["1" := m1];
    assert Run(r1) == (map["1" := m1], map["1" := m1]);
    var r2 := [[first], [second]];
    assert r2[..1] == r1;
  }

  lemma OneSender(a: Address)
    ensures UnreadSenders([Sender(true, a)]) == [a]
  {
    assert [Sender(true, a)][1..] == [];
  }

  lemma OneThread(unread: map<Tid, Mail>, t: Thread)
    ensures CollectAll(Collector(unread, map[], []), [t]) == Collect(Collector(unread, map[], []), t)
  {
    assert [t][1..] == [];
  }
}
