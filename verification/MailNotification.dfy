/** The table of unread mails as the object that src/conn-mail-notif.c updates in place. */
module MailNotification {
  import opened Common
  import opened MailSpec

  class Mailbox {
    var unreadMails: map<Tid, Mail>

    constructor ()
      ensures unreadMails == map[]
    {
      unreadMails := map[];
    }

    /** Rebuilds the table from a reply, taking over the mails that were there already. */
    method StoreUnreadMails(threads: seq<Thread>) returns (signal: Signal)
      modifies this
      ensures (unreadMails, signal) == Store(old(unreadMails), threads)
    {
      var oldMails := unreadMails;
      var mailsAdded: seq<Tid> := [];
      ghost var expected := CollectAll(Collector(oldMails, map[], []), threads);
      unreadMails := map[];
      var i := 0;
      assert threads[0..] == threads;
      while i < |threads|
        invariant 0 <= i <= |threads|
        invariant CollectAll(Collector(oldMails, unreadMails, mailsAdded), threads[i..]) == expected
      {
        var t := threads[i];
        assert threads[i..][0] == t && threads[i..][1..] == threads[i + 1..];
        if t.tid.Some? {
          var tid := t.tid.value;
          var mail, dirty := NewMail(), true;
          if tid in oldMails {
            mail, dirty := oldMails[tid], false;
          }
          oldMails := oldMails - {tid};
          mail, dirty := HandleNode(mail, t, dirty);
          unreadMails := unreadMails[tid := mail];
          if dirty { mailsAdded := mailsAdded + [tid]; }
        }
        i := i + 1;
      }
      signal := Signal(Announced(unreadMails, mailsAdded), oldMails.Keys);
    }

    method HandleNode(mail: Mail, t: Thread, wasDirty: bool) returns (m: Mail, dirty: bool)
      ensures m == Update(mail, t).0 && dirty == (wasDirty || Update(mail, t).1)
    {
      m, dirty := mail, wasDirty;
      if t.date.Some? {
        var date := Quotient(t.date.value, 1000);
        if date != DateOf(m) { dirty := true; }
        m := m.(date := Some(date));
      }
      if t.senders.Some? {
        var senders := CountUnread(t.senders.value);
        if m.senders.None? || |senders| != |m.senders.value| { dirty := true; }
        m := m.(senders := Some(senders));
      }
      if t.subject.Some? && t.subject.value != m.subject {
        dirty := true;
        m := m.(subject := t.subject.value);
      }
      if t.snippet.Some? && t.snippet.value != m.content {
        dirty := true;
        m := m.(truncated := true, content := t.snippet.value);
      }
    }

    method CountUnread(nodes: seq<Sender>) returns (senders: seq<Address>)
      ensures senders == UnreadSenders(nodes)
    {
      senders := [];
      var i := 0;
      assert nodes[0..] == nodes;
      while i < |nodes|
        invariant 0 <= i <= |nodes|
        invariant senders + UnreadSenders(nodes[i..]) == UnreadSenders(nodes)
      {
        assert nodes[i..][0] == nodes[i] && nodes[i..][1..] == nodes[i + 1..];
        if nodes[i].unread { senders := senders + [nodes[i].address]; }
        i := i + 1;
      }
    }
  }
}
