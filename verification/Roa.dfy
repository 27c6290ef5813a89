/**
 * Route origin authorisations kept in a FIB (nest/rt-roa.c), and the validation of a route's origin
 * (section 2 of RFC 6483).
 */
module Roa {

  import opened Addr
  import opened Fib
  import opened FibTable
  import opened Options
  import opened Lists

  datatype Item = Item(asn: nat, maxlen: nat, src: nat)

  datatype Outcome = Unknown | Valid | Invalid

  // ROA_SRC_ANY
  const ANY: nat := 0

  predicate SrcMatch(it: Item, src: nat) {
    src == ANY || it.src == src
  }

  predicate Same(it: Item, maxlen: nat, asn: nat, src: nat) {
    it.maxlen == maxlen && it.asn == asn && SrcMatch(it, src)
  }

  // The items of a list without those of a source.
  function ExceptSource(l: seq<Item>, src: nat): (r: seq<Item>)
    ensures forall it :: it in r <==> it in l && !SrcMatch(it, src)
  {
    if l == [] then []
    else if SrcMatch(l[0], src) then ExceptSource(l[1..], src)
    else [l[0]] + ExceptSource(l[1..], src)
  }

  function ListAt(items: map<Key, seq<Item>>, k: Key): seq<Item> {
    if k in items then items[k] else []
  }

  // The walk of roa_flush has passed the keys `done`.
  ghost predicate Halfway(was: map<Key, seq<Item>>, now: map<Key, seq<Item>>, done: set<Key>, src: nat) {
    now.Keys == was.Keys &&
    forall k :: ListAt(now, k) == if k in done then ExceptSource(ListAt(was, k), src) else ListAt(was, k)
  }

  // The pass over the items of one node.
  method Filter(l: seq<Item>, src: nat) returns (r: seq<Item>)
    ensures r == ExceptSource(l, src)
  {
    r := [];
    var i := 0;
    assert l[0..] == l;
    while i < |l|
      invariant 0 <= i <= |l| && ExceptSource(l, src) == r + ExceptSource(l[i..], src)
    {
      assert l[i..][0] == l[i] && l[i..][1..] == l[i + 1..];
      if !SrcMatch(l[i], src) {
        assert r + ([l[i]] + ExceptSource(l[i + 1..], src)) == (r + [l[i]]) + ExceptSource(l[i + 1..], src);
        r := r + [l[i]];
      }
      i := i + 1;
    }
    assert l[i..] == [] && r + [] == r;
  }

  class RoaTable {
    const fib: ForwardingTable
    // the item list of each node
    var items: map<Key, seq<Item>>

    ghost predicate Valid()
      reads this, fib
    {
      fib.Valid() && forall k :: k in items ==> fib.Contains(k)
    }

    constructor (hash: Hash)
      ensures Valid() && fresh(fib) && forall k, it :: !Authorised(k, it)
    {
      fib := new ForwardingTable(hash, 0);
      items := map[];
    }

    function ItemsOf(k: Key): seq<Item>
      reads this
    {
      ListAt(items, k)
    }

    // The table holds the authorisation.
    predicate Authorised(k: Key, it: Item)
      reads this
    {
      it in ItemsOf(k)
    }

    // An authorisation whose prefix covers the route's.
    ghost predicate Covers(k: Key, it: Item, prefix: IpAddr, pxlen: nat)
      reads this
      requires pxlen <= 32
    {
      Authorised(k, it) && CoveredBy(prefix, pxlen, k)
    }

    // roa_add_item: nothing is added when the same authorisation is there already
    method AddItem(prefix: IpAddr, pxlen: nat, maxlen: nat, asn: nat, src: nat)
      requires Valid() && |Crowd(Flat(fib.table), fib.ipaHash(prefix))| < 0x10000
      modifies this, fib
      ensures Valid()
      ensures var k := Key(prefix, pxlen);
        if exists it :: it in old(ItemsOf(k)) && Same(it, maxlen, asn, src) then items == old(items)
        else items == old(items)[k := [Item(asn, maxlen, src)] + old(ItemsOf(k))]
    {
      hide Flat, Crowd, Uids, ForwardingTable.Valid, ForwardingTable.Contains;
      var k := Key(prefix, pxlen);
      var n := fib.Get(prefix, pxlen);
      var l := ItemsOf(k);
      var i := 0;
      while i < |l|
        invariant 0 <= i <= |l| && forall j :: 0 <= j < i ==> !Same(l[j], maxlen, asn, src)
      {
        if Same(l[i], maxlen, asn, src) {
          return;
        }
        i := i + 1;
      }
      items := items[k := [Item(asn, maxlen, src)] + l];
    }

    // roa_delete_item: the first matching authorisation is removed
    method DeleteItem(prefix: IpAddr, pxlen: nat, maxlen: nat, asn: nat, src: nat)
      requires Valid()
      modifies this`items
      ensures Valid()
      ensures var k := Key(prefix, pxlen);
        if exists it :: it in old(ItemsOf(k)) && Same(it, maxlen, asn, src) then
          exists i :: 0 <= i < |old(ItemsOf(k))| && Same(old(ItemsOf(k))[i], maxlen, asn, src) &&
                      (forall j :: 0 <= j < i ==> !Same(old(ItemsOf(k))[j], maxlen, asn, src)) &&
                      items == old(items)[k := RemoveAt(old(ItemsOf(k)), i)]
        else items == old(items)
    {
      hide Flat, Uids, ForwardingTable.Valid;
      var k := Key(prefix, pxlen);
      var n := fib.Find(prefix, pxlen);
      if n.None? {
        return;
      }
      var l := ItemsOf(k);
      var i := 0;
      while i < |l| && !Same(l[i], maxlen, asn, src)
        invariant 0 <= i <= |l| && forall j :: 0 <= j < i ==> !Same(l[j], maxlen, asn, src)
      {
        i := i + 1;
      }
      if i < |l| {
        items := items[k := RemoveAt(l, i)];
      }
    }

    // roa_flush: everything of a source goes
    method Flush(src: nat)
      requires Valid()
      modifies this`items
      ensures Valid() && forall k :: ItemsOf(k) == ExceptSource(old(ItemsOf(k)), src)
      ensures forall k, it :: it in ItemsOf(k) <==> it in old(ItemsOf(k)) && src != 0 && it.src != src
    {
      hide Uids, ForwardingTable.Valid, Flat, Halfway;
      var b := 0;
      ghost var done: set<Key> := {};
      NothingDone(items, src);
      while b < |fib.table|
        invariant 0 <= b <= |fib.table| && Halfway(old(items), items, done, src)
        invariant forall c, n :: 0 <= c < b && n in fib.table[c] ==> n.key in done
      {
        done := FlushChain(b, src, old(items), done);
        b := b + 1;
      }
      HalfwayKeys(old(items), items, done, src);
      forall k | k in items ensures k in done {
        NotWalked(fib, k, done);
      }
      AllFlushed(old(items), items, done, src);
    }

    // One chain of the walk
    method FlushChain(b: nat, src: nat, ghost was: map<Key, seq<Item>>, ghost done0: set<Key>) returns (ghost done: set<Key>)
      requires b < |fib.table| && Halfway(was, items, done0, src)
      modifies this`items
      ensures Halfway(was, items, done, src) && done0 <= done && forall n :: n in fib.table[b] ==> n.key in done
    {
      hide Halfway;
      done := done0;
      var i := 0;
      while i < |fib.table[b]|
        invariant 0 <= i <= |fib.table[b]| && Halfway(was, items, done, src) && done0 <= done
        invariant forall j :: 0 <= j < i ==> fib.table[b][j].key in done
      {
        var k := fib.table[b][i].key;
        OneMore(was, items, done, src, k);
        if k in items {
          var kept := Filter(items[k], src);
          items := items[k := kept];
        }
        done := done + {k};
        i := i + 1;
      }
    }

    // roa_check: the outcomes of RFC 6483
    method Check(prefix: IpAddr, pxlen: nat, asn: nat) returns (r: Outcome)
      requires Valid() && pxlen <= 32
      ensures r == Outcome.Valid <==> exists k, it :: Covers(k, it, prefix, pxlen) && it.maxlen >= pxlen && it.asn == asn && asn != 0
      ensures r == Unknown <==> forall k, it :: !Covers(k, it, prefix, pxlen)
    {
      hide Flat, Uids, ForwardingTable.Valid, And, MkMask;
      var anything := false;
      ghost var wk, wi := Key(prefix, 0), Item(0, 0, 0);
      var len: int := pxlen;
      while len >= 0
        invariant -1 <= len <= pxlen
        invariant forall k, it :: Covers(k, it, prefix, pxlen) && k.pxlen > len ==>
          anything && !(it.maxlen >= pxlen && it.asn == asn && asn != 0)
        invariant anything ==> Covers(wk, wi, prefix, pxlen)
      {
        var k := Key(And(prefix, MkMask(len)), len);
        var n := fib.Find(And(prefix, MkMask(len)), len);
        ghost var before := anything;
        if n.Some? {
          var l := ItemsOf(k);
          var i := 0;
          while i < |l|
            invariant 0 <= i <= |l| && (i > 0 ==> anything) && (anything ==> Covers(wk, wi, prefix, pxlen))
            invariant before ==> anything
            invariant forall j :: 0 <= j < i ==> !(l[j].maxlen >= pxlen && l[j].asn == asn && asn != 0)
          {
            anything := true;
            assert Covers(k, l[i], prefix, pxlen);
            wk, wi := k, l[i];
            if l[i].maxlen >= pxlen && l[i].asn == asn && asn != 0 {
              return Outcome.Valid;
            }
            i := i + 1;
          }
        }
        len := len - 1;
      }
      r := if anything then Invalid else Unknown;
    }
  }

  lemma NothingDone(items: map<Key, seq<Item>>, src: nat)
    ensures Halfway(items, items, {}, src)
  {
  }

  lemma HalfwayKeys(was: map<Key, seq<Item>>, now: map<Key, seq<Item>>, done: set<Key>, src: nat)
    requires Halfway(was, now, done, src)
    ensures now.Keys == was.Keys
  {
  }

  lemma OneMore(was: map<Key, seq<Item>>, now: map<Key, seq<Item>>, done: set<Key>, src: nat, k: Key)
    requires Halfway(was, now, done, src)
    ensures Halfway(was, if k in now then now[k := ExceptSource(now[k], src)] else now, done + {k}, src)
  {
    ExceptTwice(ListAt(now, k), ListAt(was, k), src);
  }

  lemma AllFlushed(was: map<Key, seq<Item>>, now: map<Key, seq<Item>>, done: set<Key>, src: nat)
    requires Halfway(was, now, done, src) && forall k :: k in now ==> k in done
    ensures forall k :: ListAt(now, k) == ExceptSource(ListAt(was, k), src)
  {
  }

  lemma ExceptTwice(l: seq<Item>, was: seq<Item>, src: nat)
    ensures l == ExceptSource(was, src) ==> ExceptSource(l, src) == l
  {
    ExceptAll(was, src);
  }

  lemma {:induction false} ExceptAll(l: seq<Item>, src: nat)
    ensures ExceptSource(ExceptSource(l, src), src) == ExceptSource(l, src)
  {
    if l != [] {
      ExceptAll(l[1..], src);
      assert ([l[0]] + ExceptSource(l[1..], src))[1..] == ExceptSource(l[1..], src);
    }
  }

  // A key that no chain holds is not in the table.
  lemma NotWalked(fib: ForwardingTable, k: Key, done: set<Key>)
    requires forall c, n :: 0 <= c < |fib.table| && n in fib.table[c] ==> n.key in done
    ensures k !in done ==> !fib.Contains(k)
  {
    forall n | n in Flat(fib.table) ensures n.key in done {
      FlatMember(fib.table, n);
    }
  }
}
