/** The lists of SOCKS5 proxies (src/bytestream-factory.c): a list in order of recency, of bounded
    length for the fallback proxies. */
module ProxyCache {
  import opened Common

  const FALLBACK_PROXY_CACHE_SIZE := 5

  datatype Proxy = Proxy(jid: string, host: string, port: nat)

  /** The first proxy with a JID, as `g_slist_find_custom` finds it. */
  function Find(list: seq<Proxy>, jid: string): (k: Option<nat>)
    ensures k.Some? ==> k.value < |list| && list[k.value].jid == jid
    ensures k.None? ==> forall j :: 0 <= j < |list| ==> list[j].jid != jid
    decreases |list|
  {
    if list == [] then None
    else if list[0].jid == jid then Some(0)
    else
      var k := Find(list[1..], jid);
      if k.Some? then Some(k.value + 1)
      else
        assert forall j :: 1 <= j < |list| ==> list[j] == list[1..][j - 1];
        None
  }

  function Drop(list: seq<Proxy>, k: nat): seq<Proxy>
    requires k < |list|
  {
    list[..k] + list[k + 1..]
  }

  /** `add_proxy_to_list` */
  function AddProxy(list: seq<Proxy>, p: Proxy, fallback: bool): seq<Proxy> {
    var found := Find(list, p.jid);
    if found.Some? then [p] + Drop(list, found.value)
    else if fallback && |list| >= FALLBACK_PROXY_CACHE_SIZE then [p] + Drop(list, |list| - 1)
    else [p] + list
  }

  /** The factory's two lists, changed in place. */
  class BytestreamFactory {
    var socks5Proxies: seq<Proxy>
    var socks5FallbackProxies: seq<Proxy>

    constructor ()
      ensures socks5Proxies == [] && socks5FallbackProxies == []
    {
      socks5Proxies, socks5FallbackProxies := [], [];
    }

    method AddProxyToList(p: Proxy, fallback: bool)
      modifies this
      ensures fallback ==>
                && socks5FallbackProxies == AddProxy(old(socks5FallbackProxies), p, true)
                && socks5Proxies == old(socks5Proxies)
      ensures !fallback ==>
                && socks5Proxies == AddProxy(old(socks5Proxies), p, false)
                && socks5FallbackProxies == old(socks5FallbackProxies)
    {
      var list := if fallback then socks5FallbackProxies else socks5Proxies;
      var found := Find(list, p.jid);
      if found.Some? {
        list := list[..found.value] + list[found.value + 1..];
      } else if fallback && |list| >= FALLBACK_PROXY_CACHE_SIZE {
        list := list[..|list| - 1];
        assert list == Drop(old(socks5FallbackProxies), |old(socks5FallbackProxies)| - 1);
      }
      list := [p] + list;
      if fallback { socks5FallbackProxies := list; } else { socks5Proxies := list; }
    }
  }

  // ---- The simple form ----

  function AddAll(adds: seq<Proxy>, fallback: bool): seq<Proxy> {
    if adds == [] then [] else AddProxy(AddAll(adds[..|adds| - 1], fallback), adds[|adds| - 1], fallback)
  }

  function Without(list: seq<Proxy>, jid: string): seq<Proxy>
    decreases |list|
  {
    if list == [] then []
    else if list[0].jid == jid then Without(list[1..], jid)
    else [list[0]] + Without(list[1..], jid)
  }

  /** Every JID ever added, the most recently added first, with what was last said of it. */
  function ByRecency(adds: seq<Proxy>): seq<Proxy> {
    if adds == [] then []
    else
      var p := adds[|adds| - 1];
      [p] + Without(ByRecency(adds[..|adds| - 1]), p.jid)
  }

  function Take(list: seq<Proxy>, n: nat): seq<Proxy> { if |list| <= n then list else list[..n] }

  ghost predicate DistinctJids(list: seq<Proxy>) {
    forall i, j :: 0 <= i < j < |list| ==> list[i].jid != list[j].jid
  }

  lemma {:induction false} WithoutMembers(list: seq<Proxy>, jid: string, p: Proxy)
    ensures p in Without(list, jid) <==> p in list && p.jid != jid
    decreases |list|
  {
    if list != [] { WithoutMembers(list[1..], jid, p); }
  }

  lemma {:induction false} WithoutDistinct(list: seq<Proxy>, jid: string)
    requires DistinctJids(list)
    ensures DistinctJids(Without(list, jid))
    decreases |list|
  {
    if list != [] {
      WithoutDistinct(list[1..], jid);
      var rest := Without(list[1..], jid);
      forall k | 0 <= k < |rest| ensures rest[k].jid != list[0].jid {
        WithoutMembers(list[1..], jid, rest[k]);
      }
    }
  }

  lemma {:induction false} ByRecencyDistinct(adds: seq<Proxy>)
    ensures DistinctJids(ByRecency(adds))
    decreases |adds|
  {
    if adds != [] {
      var p := adds[|adds| - 1];
      ByRecencyDistinct(adds[..|adds| - 1]);
      WithoutDistinct(ByRecency(adds[..|adds| - 1]), p.jid);
      var rest := Without(ByRecency(adds[..|adds| - 1]), p.jid);
      forall k | 0 <= k < |rest| ensures rest[k].jid != p.jid {
        WithoutMembers(ByRecency(adds[..|adds| - 1]), p.jid, rest[k]);
      }
    }
  }

  /** On a list of distinct JIDs, removing what is found removes the JID. */
  lemma {:induction false} DropIsWithout(list: seq<Proxy>, jid: string)
    requires DistinctJids(list)
    ensures Without(list, jid) == if Find(list, jid).Some? then Drop(list, Find(list, jid).value) else list
    decreases |list|
  {
    if list != [] {
      var rest := list[1..];
      if list[0].jid == jid {
        AbsentWithout(rest, jid);
        assert Drop(list, 0) == rest;
      } else {
        DropIsWithout(rest, jid);
        assert [list[0]] + rest == list;
        if Find(rest, jid).Some? {
          DropNext(list, Find(rest, jid).value);
        }
      }
    }
  }

  lemma DropNext(list: seq<Proxy>, k: nat)
    requires k + 1 < |list|
    ensures Drop(list, k + 1) == [list[0]] + Drop(list[1..], k)
  {
  }

  lemma {:induction false} AbsentWithout(list: seq<Proxy>, jid: string)
    requires forall k :: 0 <= k < |list| ==> list[k].jid != jid
    ensures Without(list, jid) == list
    decreases |list|
  {
    if list != [] { AbsentWithout(list[1..], jid); }
  }

  lemma {:induction false} WithoutConcat(x: seq<Proxy>, y: seq<Proxy>, jid: string)
    ensures Without(x + y, jid) == Without(x, jid) + Without(y, jid)
    decreases |x|
  {
    if x == [] {
      assert x + y == y;
    } else {
      WithoutConcat(x[1..], y, jid);
      assert (x + y)[0] == x[0] && (x + y)[1..] == x[1..] + y;
    }
  }

  lemma TakePrefix(x: seq<Proxy>, y: seq<Proxy>, n: nat)
    requires |x| == n || (|x| <= n && y == [])
    ensures Take(x + y, n) == x
  {
  }

  /** After any additions the fallback list is exactly the five most recently added distinct JIDs, in
      order of recency, each with what was said of it last; the other list is all of them. */
  lemma {:induction false} CacheIsRecent(adds: seq<Proxy>)
    ensures AddAll(adds, true) == Take(ByRecency(adds), 5)
    ensures AddAll(adds, false) == ByRecency(adds)
    decreases |adds|
  {
    if adds != [] {
      var front, p := adds[..|adds| - 1], adds[|adds| - 1];
      var all := ByRecency(front);
      CacheIsRecent(front);
      ByRecencyDistinct(front);
      DropIsWithout(all, p.jid);
      CacheStep(all, p);
    }
  }

  /** One addition to the cache, of which `all` is the unbounded form. */
  lemma CacheStep(all: seq<Proxy>, p: Proxy)
    requires DistinctJids(all)
    ensures AddProxy(Take(all, FALLBACK_PROXY_CACHE_SIZE), p, true)
            == Take([p] + Without(all, p.jid), FALLBACK_PROXY_CACHE_SIZE)
  {
    var n := FALLBACK_PROXY_CACHE_SIZE;
    var front := Take(all, n);
    var back := all[|front|..];
    assert front + back == all;
    WithoutConcat(front, back, p.jid);
    DropIsWithout(front, p.jid);
    if Find(front, p.jid).Some? {
      AddKnown(front, back, p, n);
    } else {
      AddNew(front, Without(back, p.jid), p, n);
    }
  }

  lemma AddKnown(front: seq<Proxy>, back: seq<Proxy>, p: Proxy, n: nat)
    requires DistinctJids(front + back) && Find(front, p.jid).Some? && (|front| == n || (|front| <= n && back == []))
    ensures var rest := Drop(front, Find(front, p.jid).value);
            Take([p] + (rest + Without(back, p.jid)), n) == [p] + rest
  {
    var k := Find(front, p.jid).value;
    var rest := Drop(front, k);
    forall j | 0 <= j < |back| ensures back[j].jid != p.jid {
      assert (front + back)[k] == front[k] && (front + back)[|front| + j] == back[j];
    }
    AbsentWithout(back, p.jid);
    TakePrefix([p] + rest, back, n);
    assert [p] + (rest + back) == [p] + rest + back;
  }

  lemma AddNew(front: seq<Proxy>, back: seq<Proxy>, p: Proxy, n: nat)
    requires n > 0 && (|front| == n || (|front| <= n && back == []))
    ensures Take([p] + (front + back), n) == [p] + if |front| >= n then Drop(front, |front| - 1) else front
  {
    if |front| == n {
      var last := front[n - 1..];
      assert Drop(front, n - 1) == front[..n - 1];
      TakePrefix([p] + front[..n - 1], last + back, n);
      assert [p] + (front + back) == [p] + front[..n - 1] + (last + back);
    } else {
      TakePrefix([p] + front, back, n);
      assert [p] + (front + back) == [p] + front + back;
    }
  }

  // ---- What recency means ----

  /** The last addition of a JID, or -1. */
  function LastIndex(adds: seq<Proxy>, jid: string): (k: int)
    ensures -1 <= k < |adds| && (k >= 0 ==> adds[k].jid == jid)
    ensures forall j :: k < j < |adds| ==> adds[j].jid != jid
    decreases |adds|
  {
    if adds == [] then -1
    else if adds[|adds| - 1].jid == jid then |adds| - 1
    else LastIndex(adds[..|adds| - 1], jid)
  }

  /** Each entry is the last addition of its JID, and later additions come first. */
  ghost predicate Recent(list: seq<Proxy>, adds: seq<Proxy>) {
    && (forall i :: 0 <= i < |list| ==>
          LastIndex(adds, list[i].jid) >= 0 && adds[LastIndex(adds, list[i].jid)] == list[i])
    && (forall i, j :: 0 <= i < j < |list| ==> LastIndex(adds, list[i].jid) > LastIndex(adds, list[j].jid))
  }

  ghost predicate Headed(x: Proxy, rest: seq<Proxy>, adds: seq<Proxy>) {
    && LastIndex(adds, x.jid) >= 0 && adds[LastIndex(adds, x.jid)] == x
    && forall k :: 0 <= k < |rest| ==> LastIndex(adds, x.jid) > LastIndex(adds, rest[k].jid)
  }

  lemma RecentPrepend(x: Proxy, rest: seq<Proxy>, adds: seq<Proxy>)
    ensures Recent([x] + rest, adds) <==> Headed(x, rest, adds) && Recent(rest, adds)
  {
    var list := [x] + rest;
    assert forall k :: 0 <= k < |rest| ==> rest[k] == list[k + 1];
    assert forall k :: 1 <= k < |list| ==> list[k] == rest[k - 1];
    assert list[0] == x;
  }

  lemma HeadedWithout(x: Proxy, rest: seq<Proxy>, adds: seq<Proxy>, jid: string)
    requires Headed(x, rest, adds)
    ensures Headed(x, Without(rest, jid), adds)
  {
    var left := Without(rest, jid);
    forall k | 0 <= k < |left| ensures LastIndex(adds, x.jid) > LastIndex(adds, left[k].jid) {
      WithoutMembers(rest, jid, left[k]);
    }
  }

  lemma {:induction false} WithoutRecent(list: seq<Proxy>, adds: seq<Proxy>, jid: string)
    requires Recent(list, adds)
    ensures Recent(Without(list, jid), adds)
    decreases |list|
  {
    if list != [] {
      var x, rest := list[0], list[1..];
      assert [x] + rest == list;
      RecentPrepend(x, rest, adds);
      WithoutRecent(rest, adds, jid);
      HeadedWithout(x, rest, adds, jid);
      RecentPrepend(x, Without(rest, jid), adds);
    }
  }

  /** One more addition, of a JID that is not in the list. */
  lemma RecentCons(rest: seq<Proxy>, adds: seq<Proxy>, p: Proxy)
    requires Recent(rest, adds) && forall k :: 0 <= k < |rest| ==> rest[k].jid != p.jid
    ensures Recent([p] + rest, adds + [p])
  {
    var adds' := adds + [p];
    assert adds'[..|adds|] == adds;
    assert LastIndex(adds', p.jid) == |adds|;
    forall k | 0 <= k < |rest| ensures LastIndex(adds', rest[k].jid) == LastIndex(adds, rest[k].jid) {
    }
    assert Recent(rest, adds');
    RecentPrepend(p, rest, adds');
  }

  /** The order of recency, independently of how the list was built. */
  lemma {:induction false} RecencyMeaning(adds: seq<Proxy>)
    ensures Recent(ByRecency(adds), adds)
    decreases |adds|
  {
    if adds != [] {
      var front, p := adds[..|adds| - 1], adds[|adds| - 1];
      var all := ByRecency(front);
      var rest := Without(all, p.jid);
      RecencyMeaning(front);
      WithoutRecent(all, front, p.jid);
      forall k | 0 <= k < |rest| ensures rest[k].jid != p.jid { WithoutMembers(all, p.jid, rest[k]); }
      RecentCons(rest, front, p);
      assert adds == front + [p];
    }
  }

  ghost predicate Lists(list: seq<Proxy>, jid: string) {
    exists i :: 0 <= i < |list| && list[i].jid == jid
  }

  /** ... in which every JID added is listed. */
  lemma {:induction false} RecencyComplete(adds: seq<Proxy>, k: nat)
    requires k < |adds|
    ensures Lists(ByRecency(adds), adds[k].jid)
    decreases |adds|
  {
    var front, p := adds[..|adds| - 1], adds[|adds| - 1];
    if adds[k].jid == p.jid {
      assert ByRecency(adds)[0].jid == adds[k].jid;
    } else {
      RecencyComplete(front, k);
      assert front[k] == adds[k];
      StillListed(ByRecency(front), p, adds[k].jid);
    }
  }

  lemma StillListed(all: seq<Proxy>, p: Proxy, jid: string)
    requires jid != p.jid && Lists(all, jid)
    ensures Lists([p] + Without(all, p.jid), jid)
  {
    var i :| 0 <= i < |all| && all[i].jid == jid;
    WithoutMembers(all, p.jid, all[i]);
    var left := Without(all, p.jid);
    var j :| 0 <= j < |left| && left[j] == all[i];
    assert ([p] + left)[j + 1].jid == jid;
  }
}
