/**
 * The forwarding information base of nest/rt-fib.c: a hash table of prefixes whose chains are sorted
 * by a unique id made of the primary hash, so that resizing keeps the reading order.
 *
 * The table is specified by Flat, the concatenation of its chains. Suspended iterators are in
 * FibTable.dfy and FibWalk.dfy.
 */
module Fib {
  import opened Addr
  import opened Numbers
  import opened Lists

  // ipa_hash: any function of the address
  type Hash = IpAddr -> u16

  datatype Key = Key(prefix: IpAddr, pxlen: nat)

  datatype Node = Node(key: Key, uid: nat)
  {
    function Primary(): nat {
      uid / 0x10000
    }
  }

  type Table = seq<seq<Node>>

  function Shr(h: nat, k: nat): nat {
    if k == 0 then h else Shr(h / 2, k - 1)
  }

  // fib_hash: the top `order` bits of the primary hash
  function Bucket(h: nat, order: nat): nat
    requires order <= 16
  {
    Shr(h, 16 - order)
  }

  lemma {:induction false} ShrMono(a: nat, b: nat, k: nat)
    requires a <= b
    ensures Shr(a, k) <= Shr(b, k)
  {
    if k > 0 {
      ShrMono(a / 2, b / 2, k - 1);
    }
  }

  lemma {:induction false} ShrBound(a: nat, m: nat, k: nat)
    requires a < Pow2(m + k)
    ensures Shr(a, k) < Pow2(m)
  {
    if k > 0 {
      ShrBound(a / 2, m, k - 1);
    }
  }

  lemma {:induction false} ShrZero(k: nat)
    ensures Shr(0, k) == 0
  {
    if k > 0 {
      ShrZero(k - 1);
    }
  }

  lemma BucketBound(h: u16, order: nat)
    requires order <= 16
    ensures Bucket(h, order) < Pow2(order)
  {
    assert Pow2(4) == 16 && Pow2(8) == 256 && Pow2(12) == 4096 && Pow2(16) == 0x10000;
    ShrBound(h, order, 16 - order);
  }

  // The reading order.
  function Flat(t: Table): seq<Node> {
    if t == [] then [] else t[0] + Flat(t[1..])
  }

  lemma FlatCons(c: seq<Node>, t: Table)
    ensures Flat([c] + t) == c + Flat(t)
  {
    assert ([c] + t)[1..] == t;
  }

  lemma {:induction false} FlatAppend(s: Table, t: Table)
    ensures Flat(s + t) == Flat(s) + Flat(t)
  {
    if s == [] {
      assert s + t == t;
    } else {
      FlatAppend(s[1..], t);
      FlatCons(s[0], s[1..]);
      FlatCons(s[0], s[1..] + t);
      SplitHead(s, t);
      Associate(s[0], Flat(s[1..]), Flat(t));
    }
  }

  lemma FlatOne(c: seq<Node>)
    ensures Flat([c]) == c
  {
    assert [c][1..] == [];
  }

  lemma TableSplit(t: Table, b: nat)
    requires b < |t|
    ensures t == t[..b] + [t[b]] + t[b + 1..]
  {
  }

  // Chain b in its place.
  lemma FlatSplit(t: Table, b: nat)
    requires b < |t|
    ensures Flat(t) == Flat(t[..b]) + t[b] + Flat(t[b + 1..])
  {
    hide Flat;
    TableSplit(t, b);
    FlatAppend(t[..b] + [t[b]], t[b + 1..]);
    FlatAppend(t[..b], [t[b]]);
    FlatOne(t[b]);
  }

  // Replacing chain b.
  lemma FlatReplace(t: Table, b: nat, c: seq<Node>)
    requires b < |t|
    ensures Flat(t[b := c]) == Flat(t[..b]) + c + Flat(t[b + 1..])
  {
    FlatSplit(t[b := c], b);
    assert t[b := c][..b] == t[..b] && t[b := c][b + 1..] == t[b + 1..];
  }

  lemma {:induction false} FlatMember(t: Table, n: Node)
    ensures n in Flat(t) <==> exists b :: 0 <= b < |t| && n in t[b]
  {
    if t != [] {
      FlatMember(t[1..], n);
      if b :| 0 <= b < |t| && n in t[b] && b > 0 {
        assert n in t[1..][b - 1];
      }
      if b :| 0 <= b < |t[1..]| && n in t[1..][b] {
        assert n in t[b + 1];
      }
    }
  }

  predicate Sorted(s: seq<Node>) {
    forall i, j :: 0 <= i < j < |s| ==> s[i].uid < s[j].uid
  }

  predicate KeysUnique(s: seq<Node>) {
    forall i, j :: 0 <= i < j < |s| ==> s[i].key != s[j].key
  }

  predicate Hashed(s: seq<Node>, hash: Hash) {
    forall i :: 0 <= i < |s| ==> s[i].Primary() == hash(s[i].key.prefix)
  }

  predicate FlatOk(s: seq<Node>, hash: Hash) {
    Sorted(s) && KeysUnique(s) && Hashed(s, hash)
  }

  predicate ChainPlaced(c: seq<Node>, b: nat, order: nat)
    requires order <= 16
  {
    forall i :: 0 <= i < |c| ==> c[i].Primary() < 0x10000 && Bucket(c[i].Primary(), order) == b
  }

  predicate Placed(t: Table, order: nat)
    requires order <= 16
  {
    forall b :: 0 <= b < |t| ==> ChainPlaced(t[b], b, order)
  }

  // Nodes before a bucket and after it have smaller and larger buckets.
  lemma BeforeBucket(t: Table, b: nat, order: nat, n: Node)
    requires order <= 16 && Placed(t, order) && b < |t|
    ensures n in Flat(t[..b]) ==> n.Primary() < 0x10000 && Bucket(n.Primary(), order) < b
    ensures n in Flat(t[b + 1..]) ==> n.Primary() < 0x10000 && Bucket(n.Primary(), order) > b
  {
    hide Bucket;
    FlatMember(t[..b], n);
    FlatMember(t[b + 1..], n);
    if n in Flat(t[..b]) {
      var c :| 0 <= c < |t[..b]| && n in t[..b][c];
      assert ChainPlaced(t[c], c, order);
    }
    if n in Flat(t[b + 1..]) {
      var c :| 0 <= c < |t[b + 1..]| && n in t[b + 1..][c];
      assert ChainPlaced(t[c + b + 1], c + b + 1, order);
    }
  }

  // A node is in the chain of its bucket.
  lemma InItsChain(t: Table, order: nat, n: Node)
    requires order <= 16 && Placed(t, order) && n in Flat(t)
    ensures n.Primary() < 0x10000 && Bucket(n.Primary(), order) < |t| && n in t[Bucket(n.Primary(), order)]
  {
    hide Bucket;
    FlatMember(t, n);
    var b :| 0 <= b < |t| && n in t[b];
    assert ChainPlaced(t[b], b, order);
  }

  // Ids outside a bucket are on the right side of any id with a primary hash of the bucket.
  lemma OtherBuckets(t: Table, b: nat, order: nat, n: Node, uid: nat)
    requires order <= 16 && Placed(t, order) && b < |t| && uid / 0x10000 < 0x10000 && Bucket(uid / 0x10000, order) == b
    ensures n in Flat(t[..b]) ==> n.uid < uid
    ensures n in Flat(t[b + 1..]) ==> n.uid > uid
  {
    BeforeBucket(t, b, order, n);
    if n in Flat(t[..b]) && n.uid >= uid {
      ShrMono(uid / 0x10000, n.Primary(), 16 - order);
    }
    if n in Flat(t[b + 1..]) && n.uid <= uid {
      ShrMono(n.Primary(), uid / 0x10000, 16 - order);
    }
  }

  /* ---------- Changing one chain ---------- */

  // The nodes read before and after place k of chain b.
  function Before(t: Table, b: nat, k: nat): seq<Node>
    requires b < |t| && k <= |t[b]|
  {
    Flat(t[..b]) + t[b][..k]
  }

  function From(t: Table, b: nat, k: nat): seq<Node>
    requires b < |t| && k <= |t[b]|
  {
    t[b][k..] + Flat(t[b + 1..])
  }

  lemma BeforeFrom(t: Table, b: nat, k: nat)
    requires b < |t| && k <= |t[b]|
    ensures Flat(t) == Before(t, b, k) + From(t, b, k)
  {
    hide Flat;
    FlatSplit(t, b);
    assert t[b] == t[b][..k] + t[b][k..];
  }

  lemma InsertFlat(t: Table, b: nat, k: nat, e: Node)
    requires b < |t| && k <= |t[b]|
    ensures Flat(t[b := InsertAt(t[b], k, e)]) == Before(t, b, k) + [e] + From(t, b, k)
  {
    hide Flat;
    FlatReplace(t, b, InsertAt(t[b], k, e));
  }

  lemma RemoveFlat(t: Table, b: nat, k: nat)
    requires b < |t| && k < |t[b]|
    ensures Flat(t[b := RemoveAt(t[b], k)]) == Before(t, b, k) + From(t, b, k + 1)
    ensures Flat(t) == Before(t, b, k) + [t[b][k]] + From(t, b, k + 1)
  {
    hide Flat;
    FlatReplace(t, b, RemoveAt(t[b], k));
    FlatSplit(t, b);
    assert t[b] == t[b][..k] + [t[b][k]] + t[b][k + 1..];
  }

  lemma InsertOk(pre: seq<Node>, post: seq<Node>, e: Node, hash: Hash)
    requires FlatOk(pre + post, hash) && e.Primary() == hash(e.key.prefix)
    requires forall n :: n in pre ==> n.uid < e.uid && n.key != e.key
    requires forall n :: n in post ==> n.uid > e.uid && n.key != e.key
    ensures FlatOk(pre + [e] + post, hash)
  {
    var s, s' := pre + post, pre + [e] + post;
    var p := |pre|;
    forall i | 0 <= i < |s'| ensures s'[i].Primary() == hash(s'[i].key.prefix) {
      assert s'[i] == if i == p then e else s[if i < p then i else i - 1];
    }
    forall i, j | 0 <= i < j < |s'| ensures s'[i].uid < s'[j].uid && s'[i].key != s'[j].key {
      if i == p {
        assert s'[j] == post[j - p - 1];
      } else if j == p {
        assert s'[i] == pre[i];
      } else {
        assert s'[i] == s[if i < p then i else i - 1] && s'[j] == s[if j < p then j else j - 1];
      }
    }
  }

  lemma RemoveOk(pre: seq<Node>, e: Node, post: seq<Node>, hash: Hash)
    requires FlatOk(pre + [e] + post, hash)
    ensures FlatOk(pre + post, hash)
    ensures forall n :: n in pre ==> n.uid < e.uid
    ensures forall n :: n in post ==> n.uid > e.uid
  {
    var s, s' := pre + [e] + post, pre + post;
    var p := |pre|;
    assert s[p] == e;
    forall i | 0 <= i < |pre| ensures pre[i].uid < e.uid {
      assert s[i] == pre[i];
    }
    forall i | 0 <= i < |post| ensures post[i].uid > e.uid {
      assert s[p + 1 + i] == post[i];
    }
    forall i | 0 <= i < |s'| ensures s'[i] == s[if i < p then i else i + 1] {
    }
  }

  lemma PlacedReplace(t: Table, order: nat, b: nat, c: seq<Node>)
    requires order <= 16 && Placed(t, order) && b < |t| && ChainPlaced(c, b, order)
    ensures Placed(t[b := c], order)
  {
    hide ChainPlaced;
    var t' := t[b := c];
    forall i | 0 <= i < |t'| ensures ChainPlaced(t'[i], i, order) {
      assert i != b ==> t'[i] == t[i];
    }
  }

  // A new node enters a chain at its place in the order.
  lemma InsertNode(t: Table, order: nat, hash: Hash, b: nat, k: nat, e: Node)
    requires order <= 16 && Placed(t, order) && FlatOk(Flat(t), hash) && b < |t| && k <= |t[b]|
    requires e.Primary() == hash(e.key.prefix) && Bucket(e.Primary(), order) == b
    requires forall j :: 0 <= j < |t[b]| ==> t[b][j].key != e.key && if j < k then t[b][j].uid < e.uid else t[b][j].uid > e.uid
    ensures var t' := t[b := InsertAt(t[b], k, e)];
      Placed(t', order) && FlatOk(Flat(t'), hash) && |Flat(t')| == |Flat(t)| + 1 &&
      forall n :: n in Flat(t') <==> n in Flat(t) || n == e
  {
    hide Flat, FlatOk;
    BeforeFrom(t, b, k);
    InsertFlat(t, b, k, e);
    forall n ensures n in Flat(t[..b]) ==> n.uid < e.uid && n.key != e.key
      ensures n in Flat(t[b + 1..]) ==> n.uid > e.uid && n.key != e.key
    {
      OtherBuckets(t, b, order, n, e.uid);
      SideKey(t, order, hash, b, n, e);
    }
    InsertOk(Before(t, b, k), From(t, b, k), e, hash);
    PlacedReplace(t, order, b, InsertAt(t[b], k, e));
  }

  // Nodes of other buckets have other keys.
  lemma SideKey(t: Table, order: nat, hash: Hash, b: nat, n: Node, e: Node)
    requires order <= 16 && Placed(t, order) && FlatOk(Flat(t), hash) && b < |t|
    requires e.Primary() == hash(e.key.prefix) && Bucket(e.Primary(), order) == b
    ensures n in Flat(t[..b]) || n in Flat(t[b + 1..]) ==> n.key != e.key
  {
    hide Flat, Bucket;
    BeforeBucket(t, b, order, n);
    FlatSplit(t, b);
    if n in Flat(t[..b]) || n in Flat(t[b + 1..]) {
      assert n in Flat(t);
    }
  }

  lemma RemoveNode(t: Table, order: nat, hash: Hash, b: nat, k: nat)
    requires order <= 16 && Placed(t, order) && FlatOk(Flat(t), hash) && b < |t| && k < |t[b]|
    ensures var t' := t[b := RemoveAt(t[b], k)];
      Placed(t', order) && FlatOk(Flat(t'), hash) && |Flat(t')| == |Flat(t)| - 1 &&
      forall n :: n in Flat(t') <==> n in Flat(t) && n != t[b][k]
  {
    hide Flat, FlatOk;
    RemoveFlat(t, b, k);
    RemoveOk(Before(t, b, k), t[b][k], From(t, b, k + 1), hash);
    assert ChainPlaced(t[b], b, order);
    PlacedReplace(t, order, b, RemoveAt(t[b], k));
  }

  /* ---------- The table ---------- */

  // All ids are below 2^32, so are their number.
  lemma {:induction false} SortedBound(s: seq<Node>, n: nat)
    requires Sorted(s) && forall i :: 0 <= i < |s| ==> s[i].uid < n
    ensures |s| <= n
  {
    if |s| > 0 {
      var m := s[|s| - 1].uid;
      SortedBound(s[..|s| - 1], m);
    }
  }

  predicate FibOk(t: Table, order: nat, hash: Hash) {
    order <= 16 && |t| == Pow2(order) && Placed(t, order) && FlatOk(Flat(t), hash)
  }

  // The ids in use for one primary hash.
  function Crowd(s: seq<Node>, h: nat): set<nat> {
    set i | 0 <= i < |s| && s[i].Primary() == h :: s[i].uid
  }

  predicate Taken(s: seq<Node>, uid: nat) {
    exists i :: 0 <= i < |s| && s[i].uid == uid
  }

  lemma {:induction false} RangeCard(lo: nat, n: nat, s: set<nat>)
    requires forall x :: lo <= x < lo + n ==> x in s
    ensures |s| >= n
  {
    if n > 0 {
      RangeCard(lo, n - 1, s - {lo + n - 1});
    }
  }

  // With fewer than 65536 nodes of one hash the next free id keeps the hash.
  lemma FreeId(s: seq<Node>, h: nat, uid: nat)
    requires |Crowd(s, h)| < 0x10000 && h * 0x10000 <= uid <= h * 0x10000 + 0x10000
    requires forall x :: h * 0x10000 <= x < uid ==> Taken(s, x)
    ensures uid / 0x10000 == h
  {
    if uid == h * 0x10000 + 0x10000 {
      forall x | h * 0x10000 <= x < h * 0x10000 + 0x10000 ensures x in Crowd(s, h) {
        assert Taken(s, x);
        var i :| 0 <= i < |s| && s[i].uid == x;
        assert s[i].Primary() == h;
      }
      RangeCard(h * 0x10000, 0x10000, Crowd(s, h));
    }
  }
}
