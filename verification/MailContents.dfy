/** The unread mails in terms of the mailbox replies: every key of a mail is what was last given for it,
    and exactly the mails that are new or changed are announced. */
module MailContents {
  import opened Common
  import opened MailSpec
  import opened MailReplication

  // ---- What was last given ----

  /** The senders of a list that have unread mails in the thread, in order. */
  function UnreadOf(senders: seq<Sender>): seq<Address> {
    if senders == [] then []
    else
      var last := senders[|senders| - 1];
      UnreadOf(senders[..|senders| - 1]) + if last.unread then [last.address] else []
  }

  /** The date last given for a thread since it appeared in the mailbox, in milliseconds. */
  function DateGiven(replies: seq<seq<Thread>>, tid: Tid): Option<int> {
    if replies == [] then None
    else
      var t := ThreadOf(replies[|replies| - 1], tid);
      if t.None? then None
      else if t.value.date.Some? then t.value.date
      else DateGiven(replies[..|replies| - 1], tid)
  }

  function SendersGiven(replies: seq<seq<Thread>>, tid: Tid): Option<seq<Sender>> {
    if replies == [] then None
    else
      var t := ThreadOf(replies[|replies| - 1], tid);
      if t.None? then None
      else if t.value.senders.Some? then t.value.senders
      else SendersGiven(replies[..|replies| - 1], tid)
  }

  /** The text of the subject element last given. */
  function SubjectGiven(replies: seq<seq<Thread>>, tid: Tid): Option<string> {
    if replies == [] then None
    else
      var t := ThreadOf(replies[|replies| - 1], tid);
      if t.None? then None
      else if t.value.subject.Some? then t.value.subject.value
      else SubjectGiven(replies[..|replies| - 1], tid)
  }

  function SnippetGiven(replies: seq<seq<Thread>>, tid: Tid): Option<string> {
    if replies == [] then None
    else
      var t := ThreadOf(replies[|replies| - 1], tid);
      if t.None? then None
      else if t.value.snippet.Some? then t.value.snippet.value
      else SnippetGiven(replies[..|replies| - 1], tid)
  }

  /** A snippet with a text was given at all. */
  predicate HadSnippet(replies: seq<seq<Thread>>, tid: Tid) {
    replies != [] &&
    var t := ThreadOf(replies[|replies| - 1], tid);
    t.Some? && ((t.value.snippet.Some? && t.value.snippet.value.Some?) || HadSnippet(replies[..|replies| - 1], tid))
  }

  /** `seconds` is a time in milliseconds, cut off towards zero. */
  predicate InSeconds(milliseconds: int, seconds: int) {
    if milliseconds >= 0 then 1000 * seconds <= milliseconds < 1000 * seconds + 1000
    else 1000 * seconds - 1000 < milliseconds <= 1000 * seconds
  }

  /** A mail has what was last given, and nothing where nothing was. */
  predicate IsLastGiven(m: Mail, replies: seq<seq<Thread>>, tid: Tid) {
    var date, senders := DateGiven(replies, tid), SendersGiven(replies, tid);
    && m.date.Some? == date.Some? && (date.Some? ==> InSeconds(date.value, m.date.value))
    && m.senders == (if senders.Some? then Some(UnreadOf(senders.value)) else None)
    && m.subject == SubjectGiven(replies, tid) && m.content == SnippetGiven(replies, tid)
    && m.truncated == HadSnippet(replies, tid)
  }

  lemma {:induction false} UnreadSnoc(senders: seq<Sender>, x: Sender)
    ensures UnreadSenders(senders + [x]) == UnreadSenders(senders) + if x.unread then [x.address] else []
    decreases |senders|
  {
    if senders == [] {
      assert senders + [x] == [x] && [x][1..] == [];
    } else {
      assert (senders + [x])[0] == senders[0] && (senders + [x])[1..] == senders[1..] + [x];
      UnreadSnoc(senders[1..], x);
    }
  }

  lemma {:induction false} UnreadSame(senders: seq<Sender>)
    ensures UnreadSenders(senders) == UnreadOf(senders)
    decreases |senders|
  {
    if senders != [] {
      var front, last := senders[..|senders| - 1], senders[|senders| - 1];
      UnreadSame(front);
      UnreadSnoc(front, last);
      assert senders == front + [last];
    }
  }

  /** What one reply makes of a mail, key by key. */
  lemma {:induction false} UpdatedKeys(m: Mail, t: Thread)
    ensures var m' := Update(m, t).0;
            && m'.date == (if t.date.Some? then Some(Quotient(t.date.value, 1000)) else m.date)
            && m'.senders == (if t.senders.Some? then Some(UnreadSenders(t.senders.value)) else m.senders)
            && m'.subject == (if t.subject.Some? then t.subject.value else m.subject)
            && m'.content == (if t.snippet.Some? then t.snippet.value else m.content)
            && m'.truncated == (m.truncated || (t.snippet.Some? && t.snippet.value != m.content))
  {
  }

  lemma {:induction false} Seconds(a: int)
    ensures InSeconds(a, Quotient(a, 1000))
  {
  }

  /** What holds of a thread in the connection's table. */
  predicate Kept(unread: map<Tid, Mail>, replies: seq<seq<Thread>>, tid: Tid) {
    if tid in unread then IsLastGiven(unread[tid], replies, tid) && (unread[tid].content.Some? ==> HadSnippet(replies, tid))
    else
      && DateGiven(replies, tid).None? && SendersGiven(replies, tid).None? && SubjectGiven(replies, tid).None?
      && SnippetGiven(replies, tid).None? && !HadSnippet(replies, tid)
  }

  lemma {:induction false} ReplyKept(m: Mail, t: Thread, front: seq<seq<Thread>>, replies: seq<seq<Thread>>, tid: Tid)
    requires replies != [] && front == replies[..|replies| - 1] && ThreadOf(replies[|replies| - 1], tid) == Some(t)
    requires IsLastGiven(m, front, tid) && (m.content.Some? ==> HadSnippet(front, tid))
    ensures var m' := Update(m, t).0; IsLastGiven(m', replies, tid) && (m'.content.Some? ==> HadSnippet(replies, tid))
  {
    UpdatedKeys(m, t);
    if t.date.Some? { Seconds(t.date.value); }
    if t.senders.Some? { UnreadSame(t.senders.value); }
  }

  /** In every run, every mail the connection holds has the date last given for its thread since that
      appeared, in seconds, the senders last listed as far as they are unread, and the subject and
      snippet last given; it counts as truncated if a snippet was ever given. */
  lemma {:induction false} MailsAreLastGiven(replies: seq<seq<Thread>>, tid: Tid)
    requires forall k :: 0 <= k < |replies| ==> DistinctTids(replies[k])
    ensures Kept(Run(replies).0, replies, tid)
    decreases |replies|
  {
    if replies != [] {
      var front, threads := replies[..|replies| - 1], replies[|replies| - 1];
      MailsAreLastGiven(front, tid);
      Replication(replies);
      if tid in TidsOf(threads) {
        ThreadStored(Collector(Run(front).0, map[], []), threads, tid);
        var m := if tid in Run(front).0 then Run(front).0[tid] else NewMail();
        ReplyKept(m, ThreadOf(threads, tid).value, front, replies, tid);
      } else {
        ThreadAbsent(threads, tid);
      }
    }
  }

  // ---- What is announced ----

  /** A thread of a reply says something new of a mail; of the senders only the number counts. */
  predicate Changes(m: Mail, t: Thread) {
    || (t.date.Some? && Quotient(t.date.value, 1000) != (if m.date.Some? then m.date.value else 0))
    || (t.senders.Some? && (m.senders.None? || |UnreadSenders(t.senders.value)| != |m.senders.value|))
    || (t.subject.Some? && t.subject.value != m.subject)
    || (t.snippet.Some? && t.snippet.value != m.content)
  }

  lemma {:induction false} DirtyIff(m: Mail, t: Thread)
    ensures Update(m, t).1 <==> Changes(m, t)
  {
  }

  lemma {:induction false} AddedUntouched(c: Collector, threads: seq<Thread>, tid: Tid)
    requires tid !in TidsOf(threads)
    ensures tid in CollectAll(c, threads).added <==> tid in c.added
    decreases |threads|
  {
    if threads != [] {
      assert threads == [threads[0]] + threads[1..];
      assert threads[0] in threads;
      AddedUntouched(Collect(c, threads[0]), threads[1..], tid);
    }
  }

  lemma {:induction false} AddedIff(c: Collector, threads: seq<Thread>, tid: Tid)
    requires DistinctTids(threads) && tid in TidsOf(threads) && tid !in c.added
    ensures ThreadOf(threads, tid).Some?
    ensures tid in CollectAll(c, threads).added
            <==> tid !in c.former || Changes(c.former[tid], ThreadOf(threads, tid).value)
    decreases |threads|
  {
    var t, rest := threads[0], threads[1..];
    assert threads == [t] + rest;
    if t.tid == Some(tid) {
      RestDistinct(threads);
      DirtyIff(if tid in c.former then c.former[tid] else NewMail(), t);
      AddedUntouched(Collect(c, t), rest, tid);
    } else {
      assert DistinctTids(rest);
      AddedIff(Collect(c, t), rest, tid);
    }
  }

  /** In every run, the signal for a reply announces exactly the threads of it that the connection did not
      hold or of which it says something new, and removes exactly those held that it does not list. */
  lemma {:induction false} AnnouncedIff(replies: seq<seq<Thread>>, tid: Tid)
    requires replies != [] && forall k :: 0 <= k < |replies| ==> DistinctTids(replies[k])
    ensures var unread, threads := Run(replies[..|replies| - 1]).0, replies[|replies| - 1];
            && (tid in TidsOf(threads) <==> ThreadOf(threads, tid).Some?)
            && (tid in LastSignal(replies).added <==>
                  tid in TidsOf(threads) && (tid !in unread || Changes(unread[tid], ThreadOf(threads, tid).value)))
            && (tid in LastSignal(replies).removed <==> tid in unread && tid !in TidsOf(threads))
  {
    var unread, threads := Run(replies[..|replies| - 1]).0, replies[|replies| - 1];
    var c := Collector(unread, map[], []);
    CollectAllKeeps(unread, c, {}, threads);
    assert {} + TidsOf(threads) == TidsOf(threads);
    if tid in TidsOf(threads) { AddedIff(c, threads, tid); } else { ThreadAbsent(threads, tid); AddedUntouched(c, threads, tid); }
  }
}
