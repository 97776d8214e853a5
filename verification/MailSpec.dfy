/** Unread mail notification (src/conn-mail-notif.c): each mailbox reply is turned into the lists of
    what was added or changed and of what was removed. */
module MailSpec {
  import opened Common

  type Tid = string

  datatype Address = Address(name: string, address: string)

  /** A mail as stored: keys that are not set are `None`. */
  datatype Mail = Mail(
    date: Option<int>, senders: Option<seq<Address>>, subject: Option<string>, content: Option<string>,
    truncated: bool)

  /** One thread of a mailbox reply; an element or attribute that is missing is `None`. The content of
      an element may itself be missing. */
  datatype Thread = Thread(
    tid: Option<Tid>, date: Option<int>, senders: Option<seq<Sender>>, subject: Option<Option<string>>,
    snippet: Option<Option<string>>)

  datatype Sender = Sender(unread: bool, address: Address)

  function NewMail(): Mail { Mail(None, None, None, None, false) }

  /** Division as C does it, towards zero. */
  function Quotient(a: int, b: int): int
    requires b > 0
  {
    if a >= 0 then a / b else -(-a / b)
  }

  /** A key that is not set reads as 0. */
  function DateOf(m: Mail): int { if m.date.Some? then m.date.value else 0 }

  function UnreadSenders(senders: seq<Sender>): seq<Address>
    decreases |senders|
  {
    if senders == [] then []
    else if senders[0].unread then [senders[0].address] + UnreadSenders(senders[1..])
    else UnreadSenders(senders[1..])
  }

  // Each handler returns the mail and whether it has changed.

  function HandleDate(m: Mail, t: Thread): (Mail, bool) {
    if t.date.None? then (m, false)
    else
      var date := Quotient(t.date.value, 1000);
      (m.(date := Some(date)), date != DateOf(m))
  }

  /** Only the number of senders is compared. */
  function HandleSenders(m: Mail, t: Thread): (Mail, bool) {
    if t.senders.None? then (m, false)
    else
      var senders := UnreadSenders(t.senders.value);
      (m.(senders := Some(senders)), m.senders.None? || |senders| != |m.senders.value|)
  }

  function HandleSubject(m: Mail, t: Thread): (Mail, bool) {
    if t.subject.None? || t.subject.value == m.subject then (m, false)
    else (m.(subject := t.subject.value), true)
  }

  function HandleSnippet(m: Mail, t: Thread): (Mail, bool) {
    if t.snippet.None? || t.snippet.value == m.content then (m, false)
    else (m.(content := t.snippet.value, truncated := true), true)
  }

  function Update(m: Mail, t: Thread): (Mail, bool) {
    var (m1, d1) := HandleDate(m, t);
    var (m2, d2) := HandleSenders(m1, t);
    var (m3, d3) := HandleSubject(m2, t);
    var (m4, d4) := HandleSnippet(m3, t);
    (m4, d1 || d2 || d3 || d4)
  }

  /** The collector: mails left from before, mails stored now, threads to be announced. */
  datatype Collector = Collector(former: map<Tid, Mail>, unread: map<Tid, Mail>, added: seq<Tid>)

  /** `mail_thread_info_each` */
  function Collect(c: Collector, t: Thread): Collector {
    if t.tid.None? then c
    else
      var tid := t.tid.value;
      var known := tid in c.former;
      var (mail, dirty) := Update(if known then c.former[tid] else NewMail(), t);
      Collector(c.former - {tid}, c.unread[tid := mail], if dirty || !known then c.added + [tid] else c.added)
  }

  function CollectAll(c: Collector, threads: seq<Thread>): Collector
    decreases |threads|
  {
    if threads == [] then c else CollectAll(Collect(c, threads[0]), threads[1..])
  }

  /** `UnreadMailsChanged`: the mails added or changed, and the ids removed. */
  datatype Signal = Signal(added: map<Tid, Mail>, removed: set<Tid>)

  function Announced(unread: map<Tid, Mail>, added: seq<Tid>): map<Tid, Mail> {
    map tid | tid in unread && tid in added :: unread[tid]
  }

  /** `store_unread_mails` */
  function Store(unread: map<Tid, Mail>, threads: seq<Thread>): (map<Tid, Mail>, Signal) {
    var c := CollectAll(Collector(unread, map[], []), threads);
    (c.unread, Signal(Announced(c.unread, c.added), c.former.Keys))
  }
}
