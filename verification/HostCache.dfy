/**
 * The cache of recursive next hops of a routing table (nest/rt-table.c). Each host entry records
 * how its address resolves; a trie of prefix ranges tells which table changes may alter that.
 */
module HostCache {

  import opened Addr
  import opened TrieModel
  import Trie
  import opened Options

  datatype Dest = Router | Device | Unreachable | Other(code: nat)

  // Route attributes: whether the next hop is itself recursive, and where it leads.
  datatype Rta = Rta(recursive: bool, dest: Dest, gw: IpAddr, iface: nat)

  // A route and its IGP metric.
  datatype Rte = Rte(attrs: Rta, igpMetric: nat)

  // The nets that have a valid best route, with that route.
  type Nets = map<Prefix, Rte>

  type LocalAddr = (IpAddr, nat) -> bool

  // How an address resolves.
  datatype Resolution = Resolution(src: Option<Rta>, gw: IpAddr, dest: Dest, igpMetric: nat)

  // An entry belongs to an address and the table that depends on it.
  datatype HostKey = HostKey(addr: IpAddr, dep: nat)

  datatype HostEntry = HostEntry(link: IpAddr, useCount: nat, res: Resolution)

  const NO_ADDR: IpAddr := MkMask(0)

  /* ---------- Specification ---------- */

  // The longest net of at most len bits that covers a.
  function Lookup(nets: Nets, a: IpAddr, len: nat): (r: Option<Prefix>)
    requires len <= 32
    ensures r.Some? ==> r.value in nets && Extends(r.value, a) && |r.value| <= len
    ensures forall p: Prefix :: p in nets && Extends(p, a) && |p| <= len ==> r.Some? && |p| <= |r.value|
  {
    if a[..len] in nets then Some(a[..len]) else if len == 0 then None else Lookup(nets, a, len - 1)
  }

  function MatchLen(nets: Nets, a: IpAddr): nat {
    var p := Lookup(nets, a, 32);
    if p.None? then 0 else |p.value|
  }

  const UNRESOLVED: Resolution := Resolution(None, NO_ADDR, Unreachable, 0)

  function Resolve(nets: Nets, local: LocalAddr, a: IpAddr, link: IpAddr): Resolution {
    var p := Lookup(nets, a, 32);
    if p.None? then UNRESOLVED
    else
      var e := nets[p.value];
      if e.attrs.recursive || (e.attrs.dest == Device && local(a, e.attrs.iface)) then UNRESOLVED
      else if e.attrs.dest == Device then Resolution(Some(e.attrs), link, Router, e.igpMetric)
      else Resolution(Some(e.attrs), e.attrs.gw, e.attrs.dest, e.igpMetric)
  }

  // p covers the address, and no longer net does.
  predicate Longest(nets: Nets, a: IpAddr, p: Prefix) {
    p in nets && Extends(p, a) && forall q: Prefix :: q in nets && Extends(q, a) ==> |q| <= |p|
  }

  // A route that leads to the address: it needs no further resolution, and the address is not one of
  // the router's own on the link.
  predicate Leads(local: LocalAddr, a: IpAddr, rta: Rta) {
    !rta.recursive && !(rta.dest == Device && local(a, rta.iface))
  }

  // The address resolves through the longest net that covers it, over the link if that is a device
  // route; otherwise, and if no net covers it, it is unreachable.
  ghost predicate Resolves(nets: Nets, local: LocalAddr, a: IpAddr, link: IpAddr, res: Resolution) {
    (forall p :: Longest(nets, a, p) && Leads(local, a, nets[p].attrs) ==>
      res.src == Some(nets[p].attrs) && res.igpMetric == nets[p].igpMetric &&
      (nets[p].attrs.dest == Device ==> res.gw == link && res.dest == Router) &&
      (nets[p].attrs.dest != Device ==> res.gw == nets[p].attrs.gw && res.dest == nets[p].attrs.dest)) &&
    (forall p :: Longest(nets, a, p) && !Leads(local, a, nets[p].attrs) ==> res == Resolution(None, MkMask(0), Unreachable, 0)) &&
    ((forall p: Prefix :: p in nets ==> !Extends(p, a)) ==> res == Resolution(None, MkMask(0), Unreachable, 0))
  }

  lemma ResolveMeans(nets: Nets, local: LocalAddr, a: IpAddr, link: IpAddr)
    ensures Resolves(nets, local, a, link, Resolve(nets, local, a, link))
  {
    var n := Lookup(nets, a, 32);
    hide Lookup;
    forall p: Prefix | Longest(nets, a, p) ensures n == Some(p) {
      assert n.Some? && |n.value| == |p|;
      ExtendsLinear(n.value, p, a);
      ExtendsSame(n.value, p);
    }
  }

  // The range of prefixes whose change may alter the resolution of a.
  function Range(nets: Nets, a: IpAddr): Pattern {
    Pattern(a, 32, MatchLen(nets, a), 32)
  }

  lemma RangeMeans(nets: Nets, a: IpAddr)
    ensures forall p :: Longest(nets, a, p) ==> Range(nets, a) == Pattern(a, 32, |p|, 32)
    ensures (forall p: Prefix :: p in nets ==> !Extends(p, a)) ==> Range(nets, a) == Pattern(a, 32, 0, 32)
  {
    hide Lookup;
  }

  predicate Coherent(nets: Nets, local: LocalAddr, pats: set<Pattern>, k: HostKey, he: HostEntry) {
    he.res == Resolve(nets, local, k.addr, he.link) && Range(nets, k.addr) in pats
  }

  ghost predicate AllCoherent(nets: Nets, local: LocalAddr, pats: set<Pattern>, entries: map<HostKey, HostEntry>) {
    forall k :: k in entries ==> Coherent(nets, local, pats, k, entries[k])
  }

  function Changed(nets: Nets, p: Prefix, best: Option<Rte>): Nets {
    if best.Some? then nets[p := best.value] else nets - {p}
  }

  // A change that misses the range of an address cannot alter its longest match.
  lemma MissedChange(nets: Nets, p: Prefix, best: Option<Rte>, a: IpAddr)
    requires !PatternMatches(Range(nets, a), p)
    ensures var nets' := Changed(nets, p, best);
      Lookup(nets', a, 32) == Lookup(nets, a, 32) && (Lookup(nets, a, 32).Some? ==> nets'[Lookup(nets, a, 32).value] == nets[Lookup(nets, a, 32).value])
  {
    var nets' := Changed(nets, p, best);
    var r, r' := Lookup(nets, a, 32), Lookup(nets', a, 32);
    if Extends(p, a) {
      assert forall i :: 0 <= i < |p| ==> a[..|p|][i] == p[i];
    }
    assert Extends(p, a) ==> r.Some? && |p| < |r.value|;
    if r.Some? {
      assert r.value in nets';
      assert r'.Some? && |r.value| <= |r'.value|;
      ExtendsLinear(r.value, r'.value, a);
      assert r'.value in nets;
      ExtendsSame(r.value, r'.value);
    }
  }

  lemma MissedStaysCoherent(nets: Nets, local: LocalAddr, pats: set<Pattern>, entries: map<HostKey, HostEntry>, p: Prefix, best: Option<Rte>)
    requires AllCoherent(nets, local, pats, entries) && !SetMatches(pats, p)
    ensures AllCoherent(Changed(nets, p, best), local, pats, entries)
  {
    forall k | k in entries ensures Coherent(Changed(nets, p, best), local, pats, k, entries[k]) {
      assert Coherent(nets, local, pats, k, entries[k]);
      MissedChange(nets, p, best, k.addr);
    }
  }

  // The list of host entries holds each of them once.
  ghost predicate Lists(order: seq<HostKey>, entries: map<HostKey, HostEntry>) {
    (forall k :: k in order <==> k in entries) && forall i, j :: 0 <= i < j < |order| ==> order[i] != order[j]
  }

  // Used entries are kept, and the dependents of those whose source changed are scheduled.
  ghost predicate Updated(was: map<HostKey, HostEntry>, entries: map<HostKey, HostEntry>, nhu: set<nat>) {
    (forall k :: k in entries <==> k in was && was[k].useCount > 0) &&
    forall k :: k in entries ==>
      entries[k].useCount == was[k].useCount && entries[k].link == was[k].link &&
      (entries[k].res.src != was[k].res.src ==> k.dep in nhu)
  }

  // The first i entries of the list are done, the others are as they were.
  ghost predicate Midway(nets: Nets, local: LocalAddr, pats: set<Pattern>, order: seq<HostKey>, i: nat,
                   was: map<HostKey, HostEntry>, entries: map<HostKey, HostEntry>, nhu: set<nat>)
    requires i <= |order|
  {
    Lists(order, was) && entries.Keys <= was.Keys &&
    (forall j :: i <= j < |order| ==> order[j] in entries && entries[order[j]] == was[order[j]]) &&
    forall j :: 0 <= j < i ==> Done(nets, local, pats, was, entries, nhu, order[j])
  }

  predicate Done(nets: Nets, local: LocalAddr, pats: set<Pattern>, was: map<HostKey, HostEntry>,
                 entries: map<HostKey, HostEntry>, nhu: set<nat>, k: HostKey)
  {
    k in was && (k in entries <==> was[k].useCount > 0) &&
    (k in entries ==>
      Coherent(nets, local, pats, k, entries[k]) && entries[k].useCount == was[k].useCount && entries[k].link == was[k].link &&
      (entries[k].res.src != was[k].res.src ==> k.dep in nhu))
  }

  // An entry just resolved, or one just deleted, is done.
  lemma Resolved(nets: Nets, local: LocalAddr, pats: set<Pattern>, was: map<HostKey, HostEntry>,
                 entries: map<HostKey, HostEntry>, nhu: set<nat>, k: HostKey)
    requires k in was && (k in entries <==> was[k].useCount > 0)
    requires k in entries ==> Range(nets, k.addr) in pats
    requires k in entries ==> entries[k] == was[k].(res := Resolve(nets, local, k.addr, was[k].link))
    requires k in entries && entries[k].res.src != was[k].res.src ==> k.dep in nhu
    ensures Done(nets, local, pats, was, entries, nhu, k)
  {
  }

  lemma AllUpdated(nets: Nets, local: LocalAddr, pats: set<Pattern>, order: seq<HostKey>,
                   was: map<HostKey, HostEntry>, entries: map<HostKey, HostEntry>, nhu: set<nat>)
    requires Midway(nets, local, pats, order, |order|, was, entries, nhu)
    ensures AllCoherent(nets, local, pats, entries) && Updated(was, entries, nhu)
  {
    hide Coherent;
    forall k | k in was ensures Done(nets, local, pats, was, entries, nhu, k) {
      assert k in order;
    }
  }

  lemma NothingUpdated(nets: Nets, local: LocalAddr, pats: set<Pattern>, order: seq<HostKey>, was: map<HostKey, HostEntry>, nhu: set<nat>)
    requires Lists(order, was)
    ensures Midway(nets, local, pats, order, 0, was, was, nhu)
  {
  }

  // The first entry of the list that is not done yet.
  lemma NextEntry(nets: Nets, local: LocalAddr, pats: set<Pattern>, order: seq<HostKey>, i: nat,
                  was: map<HostKey, HostEntry>, entries: map<HostKey, HostEntry>, nhu: set<nat>)
    requires i < |order| && Midway(nets, local, pats, order, i, was, entries, nhu)
    ensures order[i] in entries && order[i] in was && entries[order[i]] == was[order[i]]
  {
  }

  lemma OneUpdated(nets: Nets, local: LocalAddr, pats: set<Pattern>, pats': set<Pattern>, order: seq<HostKey>, i: nat,
                   was: map<HostKey, HostEntry>, before: map<HostKey, HostEntry>, entries: map<HostKey, HostEntry>,
                   nhu: set<nat>, nhu': set<nat>)
    requires i < |order| && Midway(nets, local, pats, order, i, was, before, nhu)
    requires pats <= pats' && nhu <= nhu' && forall k :: k != order[i] ==> (k in before <==> k in entries)
    requires forall k :: k != order[i] && k in entries ==> entries[k] == before[k]
    requires Done(nets, local, pats', was, entries, nhu', order[i])
    ensures Midway(nets, local, pats', order, i + 1, was, entries, nhu')
  {
    hide Coherent, Done, Lists;
    forall j | 0 <= j < i ensures Done(nets, local, pats', was, entries, nhu', order[j]) {
      assert Done(nets, local, pats, was, before, nhu, order[j]);
      StillDone(nets, local, pats, pats', was, before, entries, nhu, nhu', order[i], order[j]);
    }
    ListedOnce(order, was);
  }

  // A dependent table is scheduled because of an entry whose source has changed.
  ghost predicate Because(nhu0: set<nat>, nhu: set<nat>, was: map<HostKey, HostEntry>, entries: map<HostKey, HostEntry>,
                          done: seq<HostKey>, because: set<HostKey>)
  {
    (forall d :: d in nhu && d !in nhu0 ==> exists k :: k in because && k.dep == d) &&
    forall k :: k in because ==> k in done && k in was && k in entries && entries[k].res.src != was[k].res.src
  }

  lemma BecauseStarts(nhu: set<nat>, was: map<HostKey, HostEntry>, order: seq<HostKey>)
    ensures Because(nhu, nhu, was, was, order[..0], {})
  {
  }

  lemma BecauseOn(nhu0: set<nat>, was: map<HostKey, HostEntry>, before: map<HostKey, HostEntry>, entries: map<HostKey, HostEntry>,
                  order: seq<HostKey>, i: nat, nhu: set<nat>, nhu': set<nat>, because: set<HostKey>, because': set<HostKey>)
    requires i < |order| && (forall j, k :: 0 <= j < k < |order| ==> order[j] != order[k])
    requires Because(nhu0, nhu, was, before, order[..i], because)
    requires forall k :: k != order[i] ==> (k in before <==> k in entries) && (k in entries ==> entries[k] == before[k])
    requires (nhu' == nhu && because' == because) ||
             (nhu' == nhu + {order[i].dep} && because' == because + {order[i]} && order[i] in was && order[i] in entries &&
              entries[order[i]].res.src != was[order[i]].res.src)
    ensures Because(nhu0, nhu', was, entries, order[..i + 1], because')
  {
    assert order[..i + 1] == order[..i] + [order[i]];
  }

  lemma BecauseEnds(nhu0: set<nat>, nhu: set<nat>, was: map<HostKey, HostEntry>, entries: map<HostKey, HostEntry>,
                    order: seq<HostKey>, because: set<HostKey>)
    requires Because(nhu0, nhu, was, entries, order[..|order|], because)
    ensures forall d :: d in nhu && d !in nhu0 ==>
      exists k :: k in entries && k in was && k.dep == d && entries[k].res.src != was[k].res.src
  {
  }

  lemma ListedOnce(order: seq<HostKey>, was: map<HostKey, HostEntry>)
    requires Lists(order, was)
    ensures forall i, j :: 0 <= i < j < |order| ==> order[i] != order[j]
    ensures forall i :: 0 <= i < |order| ==> order[i] in was
  {
  }

  lemma StillDone(nets: Nets, local: LocalAddr, pats: set<Pattern>, pats': set<Pattern>,
                  was: map<HostKey, HostEntry>, before: map<HostKey, HostEntry>, entries: map<HostKey, HostEntry>,
                  nhu: set<nat>, nhu': set<nat>, changed: HostKey, k: HostKey)
    requires Done(nets, local, pats, was, before, nhu, k) && pats <= pats' && nhu <= nhu'
    requires changed != k ==> (k in before <==> k in entries) && (k in entries ==> entries[k] == before[k])
    ensures changed != k ==> Done(nets, local, pats', was, entries, nhu', k)
  {
    hide Resolve, Range;
  }

  /* ---------- The routing table with its host cache ---------- */

  class Table {
    const local: LocalAddr
    var nets: Nets
    var trie: Trie.Trie
    var entries: map<HostKey, HostEntry>
    // rt_schedule_hcu: an update of the host cache is due
    var hcuScheduled: bool
    // rt_schedule_nhu: dependent tables whose next hops are to be updated
    var nhuScheduled: set<nat>

    ghost predicate Valid()
      reads this, trie, trie.nodes
    {
      trie.Valid()
    }

    // The cache is right, or it is going to be updated.
    ghost predicate CacheOk()
      reads this, trie
    {
      hcuScheduled || AllCoherent(nets, local, trie.pats, entries)
    }

    // rt_init_hostcache
    constructor (local: LocalAddr)
      ensures Valid() && CacheOk() && fresh(trie) && fresh(trie.nodes) && entries == map[] && nets == map[]
    {
      this.local := local;
      nets, entries, hcuScheduled, nhuScheduled := map[], map[], false, {};
      trie := new Trie.Trie();
    }

    // net_route: the longest net with a valid best route
    method NetRoute(a: IpAddr) returns (r: Option<Prefix>)
      ensures r == Lookup(nets, a, 32)
    {
      var len: int := 32;
      while len >= 0
        invariant -1 <= len <= 32
        invariant len >= 0 ==> Lookup(nets, a, 32) == Lookup(nets, a, len)
        invariant len < 0 ==> Lookup(nets, a, 32).None?
      {
        if a[..len] in nets {
          return Some(a[..len]);
        }
        len := len - 1;
      }
      r := None;
    }

    // rt_update_hostentry: resolves anew and adds the range to the trie
    method UpdateHostEntry(k: HostKey) returns (changed: bool)
      requires Valid() && k in entries
      modifies this`entries, trie, trie.nodes
      ensures Valid() && fresh(trie.nodes - old(trie.nodes)) && trie.pats == old(trie.pats) + {Range(nets, k.addr)}
      ensures entries == old(entries)[k := old(entries)[k].(res := Resolve(nets, local, k.addr, old(entries)[k].link))]
      ensures Resolves(nets, local, k.addr, old(entries)[k].link, entries[k].res)
      ensures forall p :: Longest(nets, k.addr, p) ==> trie.pats == old(trie.pats) + {Pattern(k.addr, 32, |p|, 32)}
      ensures changed <==> entries[k].res.src != old(entries)[k].res.src
    {
      RangeMeans(nets, k.addr);
      hide Lookup, Trie.Trie.Valid, Resolves, Resolve, MatchLen, Longest;
      var he := entries[k];
      var res, pxlen := LookAt(k.addr, he.link);
      changed := he.res.src != res.src;
      entries := entries[k := he.(res := res)];
      var node := trie.AddPrefix(k.addr, 32, pxlen, 32);
    }

    // How an address resolves now, and the length of the net that decides it.
    method LookAt(a: IpAddr, link: IpAddr) returns (res: Resolution, pxlen: nat)
      ensures res == Resolve(nets, local, a, link) && Resolves(nets, local, a, link, res) && pxlen == MatchLen(nets, a) <= 32
    {
      ResolveMeans(nets, local, a, link);
      hide Lookup, Resolves;
      pxlen, res := 0, UNRESOLVED;
      var n := NetRoute(a);
      if n.Some? {
        var e := nets[n.value];
        pxlen := |n.value|;
        if e.attrs.recursive {
          // a recursive route does not resolve through another one
        } else if e.attrs.dest == Device {
          if !local(a, e.attrs.iface) {
            res := Resolution(Some(e.attrs), link, Router, e.igpMetric);
          }
        } else {
          res := Resolution(Some(e.attrs), e.attrs.gw, e.attrs.dest, e.igpMetric);
        }
      }
    }

    // rt_notify_hostcache, for a net whose best route has changed
    method NotifyHostCache(p: Prefix)
      requires Valid()
      modifies this`hcuScheduled
      ensures Valid() && (hcuScheduled <==> old(hcuScheduled) || SetMatches(trie.pats, p))
    {
      if hcuScheduled {
        return;
      }
      assert Pad(p)[..|p|] == p;
      var matched := trie.MatchPrefix(Pad(p), |p|);
      if matched {
        hcuScheduled := true;
      }
    }

    // The best route of a net changes and is announced (rte_announce with RA_OPTIMAL)
    method ChangeBest(p: Prefix, best: Option<Rte>)
      requires Valid() && CacheOk()
      modifies this`nets, this`hcuScheduled
      ensures Valid() && CacheOk() && nets == Changed(old(nets), p, best)
      ensures (p in nets <==> best.Some?) && (best.Some? ==> nets[p] == best.value)
      ensures forall q :: q != p ==> (q in nets <==> q in old(nets)) && (q in nets ==> nets[q] == old(nets)[q])
      ensures trie.pats == old(trie.pats) && entries == old(entries)
    {
      hide AllCoherent, SetMatches, Trie.Trie.Valid;
      var was := if p in nets then Some(nets[p]) else None;
      if !hcuScheduled && !MatchedBy(trie.pats, p) {
        MissedStaysCoherent(nets, local, trie.pats, entries, p, best);
      }
      ghost var before := nets;
      nets := Changed(nets, p, best);
      if was.None? && best.None? {
        assert nets == before;
        return;
      }
      NotifyHostCache(p);
    }

    // rt_update_hostcache: the trie is built anew, unused entries go, the others are resolved again
    method UpdateHostCache(order: seq<HostKey>)
      requires Valid() && Lists(order, entries)
      modifies this, trie, trie.nodes
      ensures Valid() && CacheOk() && !hcuScheduled && nets == old(nets)
      ensures Updated(old(entries), entries, nhuScheduled) && old(nhuScheduled) <= nhuScheduled
      ensures forall d :: d in nhuScheduled && d !in old(nhuScheduled) ==>
        exists k :: k in entries && k in old(entries) && k.dep == d && entries[k].res.src != old(entries)[k].res.src
      ensures forall k :: k in entries ==> Resolves(nets, local, k.addr, entries[k].link, entries[k].res)
    {
      hide Because, Resolves, Lookup, Trie.Trie.Valid, Trie.MatchesZero, Coherent, Lists, Updated, AllCoherent, Midway;
      trie := new Trie.Trie();
      ghost var was := entries;
      NothingUpdated(nets, local, trie.pats, order, entries, nhuScheduled);
      ghost var because: set<HostKey> := {};
      BecauseStarts(nhuScheduled, was, order);
      var i := 0;
      while i < |order|
        invariant 0 <= i <= |order| && Valid() && fresh(trie) && fresh(trie.nodes) && nets == old(nets)
        invariant old(nhuScheduled) <= nhuScheduled && Because(old(nhuScheduled), nhuScheduled, was, entries, order[..i], because)
        invariant Midway(nets, local, trie.pats, order, i, was, entries, nhuScheduled)
      {
        because := UpdateOne(order, i, was, old(nhuScheduled), because);
        i := i + 1;
      }
      AllUpdated(nets, local, trie.pats, order, was, entries, nhuScheduled);
      hcuScheduled := false;
      CacheMeans();
      BecauseEnds(old(nhuScheduled), nhuScheduled, was, entries, order, because);
    }

    // The update of one entry of the list
    method UpdateOne(order: seq<HostKey>, i: nat, ghost was: map<HostKey, HostEntry>, ghost nhu0: set<nat>, ghost because0: set<HostKey>)
      returns (ghost because: set<HostKey>)
      requires Valid() && i < |order| && Midway(nets, local, trie.pats, order, i, was, entries, nhuScheduled)
      requires Because(nhu0, nhuScheduled, was, entries, order[..i], because0)
      modifies this`entries, this`nhuScheduled, trie, trie.nodes
      ensures Valid() && fresh(trie.nodes - old(trie.nodes)) && old(nhuScheduled) <= nhuScheduled
      ensures Midway(nets, local, trie.pats, order, i + 1, was, entries, nhuScheduled)
      ensures Because(nhu0, nhuScheduled, was, entries, order[..i + 1], because)
    {
      hide Because, Resolves, Lookup, Trie.Trie.Valid, Trie.MatchesZero, Coherent, Lists, Longest;
      ListedOnce(order, was);
      ghost var before, pats, nhu := entries, trie.pats, nhuScheduled;
      because := because0;
      var k := order[i];
      NextEntry(nets, local, pats, order, i, was, before, nhu);
      if entries[k].useCount == 0 {
        entries := entries - {k};
      } else {
        var changed := UpdateHostEntry(k);
        if changed {
          nhuScheduled, because := nhuScheduled + {k.dep}, because + {k};
        }
      }
      assert Done(nets, local, trie.pats, was, entries, nhuScheduled, k) by { Resolved(nets, local, trie.pats, was, entries, nhuScheduled, k); }
      hide Midway;
      BecauseOn(nhu0, was, before, entries, order, i, nhu, nhuScheduled, because0, because);
      OneUpdated(nets, local, pats, trie.pats, order, i, was, before, entries, nhu, nhuScheduled);
    }

    // With no update due, every entry is what the longest match for its address gives.
    lemma CacheMeans()
      requires CacheOk() && !hcuScheduled
      ensures forall k :: k in entries ==> Resolves(nets, local, k.addr, entries[k].link, entries[k].res)
    {
      hide Resolves, Resolve, Range;
      forall k | k in entries ensures Resolves(nets, local, k.addr, entries[k].link, entries[k].res) {
        assert Coherent(nets, local, trie.pats, k, entries[k]);
        ResolveMeans(nets, local, k.addr, entries[k].link);
      }
    }

    // rt_get_hostentry: the entry of an address, created and resolved if there is none
    method GetHostEntry(k: HostKey, link: IpAddr)
      requires Valid() && CacheOk()
      modifies this`entries, trie, trie.nodes
      ensures Valid() && CacheOk() && k in entries
      ensures k in old(entries) ==> entries == old(entries)
      ensures k !in old(entries) ==> Resolves(nets, local, k.addr, link, entries[k].res)
      ensures k !in old(entries) ==> entries == old(entries)[k := HostEntry(link, 0, Resolve(nets, local, k.addr, link))]
    {
      hide Lookup, Trie.Trie.Valid, Resolves;
      if k in entries {
        return;
      }
      entries := entries[k := HostEntry(link, 0, UNRESOLVED)];
      var changed := UpdateHostEntry(k);
      assert entries == old(entries)[k := HostEntry(link, 0, Resolve(nets, local, k.addr, link))];
    }
  }

  ghost predicate MatchedBy(pats: set<Pattern>, p: Prefix) {
    SetMatches(pats, p)
  }
}
