/**
 * Matching a BGP AS path against a path mask (nest/a-path.c).
 *
 * A path is a byte string of segments. A sequence element stands for itself; a set stands for any
 * word over its members. The matcher simulates a nondeterministic automaton whose states are the
 * positions of the path, with the marks kept in place in the array of positions and all of them
 * inside a moving window [l, h].
 */
module AsPath {

  import opened Numbers
  import opened Lists

  const AS_PATH_SET := 1
  const AS_PATH_SEQUENCE := 2
  const MAX_POSITIONS := 2048

  /* ---------- The path: segments, bytes, positions ---------- */

  datatype Segment = Set(asns: seq<u32>) | Sequence(asns: seq<u32>)

  // What the BGP attribute parser lets through: one length byte per segment, no empty set.
  predicate ValidPath(path: seq<Segment>) {
    forall k :: 0 <= k < |path| ==> |path[k].asns| < 256 && (path[k].Set? ==> path[k].asns != [])
  }

  function PutAs(a: u32): (s: seq<byte>)
    ensures |s| == 4
  {
    var hi, lo := a as int / 0x1_0000, a as int % 0x1_0000;
    [hi / 256, hi % 256, lo / 256, lo % 256]
  }

  function PutAsns(asns: seq<u32>): (s: seq<byte>)
    ensures |s| == 4 * |asns|
  {
    if asns == [] then [] else PutAs(asns[0]) + PutAsns(asns[1..])
  }

  function EncodeSegment(g: Segment): seq<byte>
    requires |g.asns| < 256
  {
    [if g.Set? then AS_PATH_SET else AS_PATH_SEQUENCE, |g.asns|] + PutAsns(g.asns)
  }

  // The segments from number c on.
  function EncodeFrom(path: seq<Segment>, c: nat): seq<byte>
    requires ValidPath(path) && c <= |path|
    decreases |path| - c
  {
    if c == |path| then [] else EncodeSegment(path[c]) + EncodeFrom(path, c + 1)
  }

  function EncodePath(path: seq<Segment>): seq<byte>
    requires ValidPath(path)
  {
    EncodeFrom(path, 0)
  }

  // One state of the automaton: an element of a sequence, or a whole set.
  datatype Position = One(asn: u32) | AnyOf(asns: seq<u32>)

  function SegmentPositions(g: Segment): (p: seq<Position>)
  {
    if g.Set? then [AnyOf(g.asns)] else seq(|g.asns|, i requires 0 <= i < |g.asns| => One(g.asns[i]))
  }

  function PositionsFrom(path: seq<Segment>, c: nat): seq<Position>
    requires c <= |path|
    decreases |path| - c
  {
    if c == |path| then [] else SegmentPositions(path[c]) + PositionsFrom(path, c + 1)
  }

  function Positions(path: seq<Segment>): seq<Position> {
    PositionsFrom(path, 0)
  }

  predicate NonemptySets(p: seq<Position>) {
    forall k :: 0 <= k < |p| && p[k].AnyOf? ==> p[k].asns != []
  }

  lemma {:induction false} PositionsNonempty(path: seq<Segment>, c: nat)
    requires ValidPath(path) && c <= |path|
    ensures NonemptySets(PositionsFrom(path, c))
    decreases |path| - c
  {
    if c < |path| {
      PositionsNonempty(path, c + 1);
    }
  }

  function GetAs(data: seq<byte>, at: nat): (a: u32)
    requires at + 4 <= |data|
  {
    var hi, lo := data[at] as int * 256 + data[at + 1] as int, data[at + 2] as int * 256 + data[at + 3] as int;
    hi * 0x1_0000 + lo
  }

  lemma {:induction false} PutAsnsAt(asns: seq<u32>, i: nat, c: nat)
    requires i < |asns| && c < 4
    ensures PutAsns(asns)[4 * i + c] == PutAs(asns[i])[c]
    decreases i
  {
    if i > 0 {
      PutAsnsAt(asns[1..], i - 1, c);
      assert PutAsns(asns)[4 * i + c] == PutAsns(asns[1..])[4 * (i - 1) + c];
    }
  }

  lemma GetPutAs(a: u32)
    ensures GetAs(PutAs(a), 0) == a
  {
  }

  lemma GetPutAsns(data: seq<byte>, at: nat, asns: seq<u32>, i: nat)
    requires i < |asns| && at + 4 * |asns| <= |data|
    requires forall c :: 0 <= c < 4 * |asns| ==> data[at + c] == PutAsns(asns)[c]
    ensures GetAs(data, at + 4 * i) == asns[i]
  {
    forall c | 0 <= c < 4 ensures data[at + 4 * i + c] == PutAs(asns[i])[c] {
      PutAsnsAt(asns, i, c);
      assert data[at + (4 * i + c)] == PutAsns(asns)[4 * i + c];
    }
    SameWord(data, at + 4 * i, PutAs(asns[i]));
    GetPutAs(asns[i]);
  }

  lemma SameWord(data: seq<byte>, at: nat, word: seq<byte>)
    requires |word| == 4 && at + 4 <= |data|
    requires forall c :: 0 <= c < 4 ==> data[at + c] == word[c]
    ensures GetAs(data, at) == GetAs(word, 0)
  {
    assert data[at + 0] == word[0] && data[at + 1] == word[1] && data[at + 2] == word[2] && data[at + 3] == word[3];
  }

  /* ---------- Reference meaning: words ---------- */

  function Flatten(parts: seq<seq<u32>>): seq<u32> {
    if parts == [] then [] else parts[0] + Flatten(parts[1..])
  }

  // The word `part` is one that position p can stand for; only the very first position of a path
  // may not stand for the empty word.
  predicate Fits(p: Position, first: bool, part: seq<u32>) {
    match p
    case One(a) => part == [a]
    case AnyOf(s) => (first ==> part != []) && forall k :: 0 <= k < |part| ==> part[k] in s
  }

  ghost predicate Blocks(p: seq<Position>, i: nat, first: bool, parts: seq<seq<u32>>)
    requires i <= |p|
  {
    |parts| == |p| - i &&
    forall k :: 0 <= k < |parts| ==> Fits(p[i + k], first && k == 0, parts[k])
  }

  // A path stands for a word when the word can be cut into one block per position.
  ghost predicate StandsFor(p: seq<Position>, w: seq<u32>) {
    exists parts :: Blocks(p, 0, true, parts) && Flatten(parts) == w
  }

  datatype MaskItem = Asn(val: u32) | Range(lo: u32, hi: u32) | Question | Asterisk

  predicate ItemAccepts(m: MaskItem, a: u32)
    requires !m.Asterisk?
  {
    match m
    case Asn(v) => a == v
    case Range(lo, hi) => lo <= a <= hi
    case Question => true
  }

  ghost predicate MaskMatches(mask: seq<MaskItem>, w: seq<u32>) {
    if mask == [] then w == []
    else if mask[0].Asterisk? then exists k :: 0 <= k <= |w| && MaskMatches(mask[1..], w[k..])
    else w != [] && ItemAccepts(mask[0], w[0]) && MaskMatches(mask[1..], w[1..])
  }

  // A path of one set stands for the nonempty words over it, a path of one sequence for itself, and
  // the positions of longer paths are those of their parts.
  lemma SetStandsFor(asns: seq<u32>, w: seq<u32>)
    ensures StandsFor(Positions([Set(asns)]), w) <==> w != [] && forall k :: 0 <= k < |w| ==> w[k] in asns
  {
    PositionsOne(Set(asns));
    var p := [AnyOf(asns)];
    if StandsFor(p, w) {
      var parts :| Blocks(p, 0, true, parts) && Flatten(parts) == w;
      assert parts == [parts[0]] && Fits(p[0 + 0], true, parts[0]);
      FlattenOne(parts[0]);
    }
    if w != [] && forall k :: 0 <= k < |w| ==> w[k] in asns {
      FlattenOne(w);
      assert Blocks(p, 0, true, [w]);
    }
  }

  lemma SequenceStandsFor(asns: seq<u32>, w: seq<u32>)
    ensures StandsFor(Positions([Sequence(asns)]), w) <==> w == asns
  {
    PositionsOne(Sequence(asns));
    var p := SegmentPositions(Sequence(asns));
    var singles := seq(|asns|, i requires 0 <= i < |asns| => [asns[i]]);
    FlattenSingles(asns);
    assert Blocks(p, 0, true, singles);
    if StandsFor(p, w) {
      var parts :| Blocks(p, 0, true, parts) && Flatten(parts) == w;
      forall k | 0 <= k < |parts| ensures parts[k] == singles[k] {
        assert Fits(p[0 + k], k == 0, parts[k]);
      }
      assert parts == singles;
    }
  }

  lemma PositionsAt(path: seq<Segment>, c: nat)
    requires c < |path|
    ensures PositionsFrom(path, c) == SegmentPositions(path[c]) + PositionsFrom(path, c + 1)
  {
  }

  lemma {:induction false} PositionsJoin(path: seq<Segment>, more: seq<Segment>, c: nat)
    requires c <= |path|
    ensures PositionsFrom(path + more, c) == PositionsFrom(path, c) + Positions(more)
    decreases |path| - c
  {
    hide SegmentPositions;
    if c == |path| {
      PositionsAfter(path, more, 0);
      assert [] + Positions(more) == Positions(more);
    } else {
      PositionsJoin(path, more, c + 1);
      PositionsAt(path + more, c);
      PositionsAt(path, c);
      hide PositionsFrom, Positions;
      assert (path + more)[c] == path[c];
      Associate(SegmentPositions(path[c]), PositionsFrom(path, c + 1), Positions(more));
    }
  }

  lemma {:induction false} PositionsAfter(path: seq<Segment>, more: seq<Segment>, c: nat)
    requires c <= |more|
    ensures PositionsFrom(path + more, |path| + c) == PositionsFrom(more, c)
    decreases |more| - c
  {
    hide SegmentPositions;
    if c < |more| {
      PositionsAfter(path, more, c + 1);
      PositionsAt(path + more, |path| + c);
      PositionsAt(more, c);
      assert (path + more)[|path| + c] == more[c];
    }
  }

  lemma PositionsOne(g: Segment)
    ensures Positions([g]) == SegmentPositions(g)
  {
    assert PositionsFrom([g], 1) == [];
  }

  lemma FlattenOne(w: seq<u32>)
    ensures Flatten([w]) == w
  {
    assert [w][1..] == [];
  }

  lemma {:induction false} FlattenSingles(asns: seq<u32>)
    ensures Flatten(seq(|asns|, i requires 0 <= i < |asns| => [asns[i]])) == asns
  {
    if asns != [] {
      FlattenSingles(asns[1..]);
      var all := seq(|asns|, i requires 0 <= i < |asns| => [asns[i]]);
      assert all[1..] == seq(|asns[1..]|, i requires 0 <= i < |asns[1..]| => [asns[1..][i]]);
      assert asns == [asns[0]] + asns[1..];
    }
  }

  /* ---------- The automaton ---------- */

  // State k is in the closure of state a: everything between them may be skipped.
  predicate InClose(p: seq<Position>, a: nat, k: nat) {
    a <= k <= |p| && forall x :: a <= x < k ==> p[x].AnyOf?
  }

  // Where state i goes once it consumed a symbol.
  predicate Move(p: seq<Position>, i: nat, k: nat)
    requires i < |p|
  {
    (k == i && p[i].AnyOf?) || InClose(p, i + 1, k)
  }

  predicate Consumes(q: Position, a: u32) {
    match q
    case One(b) => a == b
    case AnyOf(s) => a in s
  }

  // State i reaches state j by reading the word w.
  ghost predicate Reaches(p: seq<Position>, i: nat, w: seq<u32>, j: nat)
    decreases |w|
  {
    if w == [] then i == j
    else i < |p| && Consumes(p[i], w[0]) && exists k: nat :: Move(p, i, k) && Reaches(p, k, w[1..], j)
  }

  // State i can step over the mask item: some symbol suits both.
  predicate PosMatches(q: Position, m: MaskItem)
    requires !m.Asterisk?
  {
    m.Question? ||
    match q
    case One(a) => ItemAccepts(m, a)
    case AnyOf(s) => exists x :: 0 <= x < |s| && ItemAccepts(m, s[x])
  }

  // States marked after state set s read one more mask item.
  ghost predicate InNext(p: seq<Position>, s: iset<nat>, m: MaskItem, j: nat) {
    if m.Asterisk? then exists i: nat :: i in s && i <= j <= |p|
    else exists i: nat :: i in s && i < |p| && PosMatches(p[i], m) && Move(p, i, j)
  }

  ghost function Next(p: seq<Position>, s: iset<nat>, m: MaskItem): iset<nat> {
    iset j: nat | InNext(p, s, m, j)
  }

  // The marked states after the whole mask.
  ghost function Marked(p: seq<Position>, s: iset<nat>, mask: seq<MaskItem>): iset<nat>
    decreases |mask|
  {
    if mask == [] then s else Marked(p, Next(p, s, mask[0]), mask[1..])
  }

  /* ---------- Marks are exactly the reachable states ---------- */

  lemma {:induction false} ReachesUp(p: seq<Position>, i: nat, w: seq<u32>, j: nat)
    requires Reaches(p, i, w, j) && i <= |p|
    ensures i <= j <= |p|
    decreases |w|
  {
    if w != [] {
      var k: nat :| Move(p, i, k) && Reaches(p, k, w[1..], j);
      ReachesUp(p, k, w[1..], j);
    }
  }

  lemma {:induction false} ReachesJoin(p: seq<Position>, i: nat, u: seq<u32>, m: nat, v: seq<u32>, j: nat)
    requires Reaches(p, i, u, m) && Reaches(p, m, v, j)
    ensures Reaches(p, i, u + v, j)
    decreases |u|
  {
    if u == [] {
      assert u + v == v;
    } else {
      var w := u + v;
      assert w[0] == u[0] && w[1..] == u[1..] + v;
      var k: nat :| Move(p, i, k) && Reaches(p, k, u[1..], m);
      ReachesJoin(p, k, u[1..], m, v, j);
    }
  }

  lemma {:induction false} ReachesSplit(p: seq<Position>, i: nat, u: seq<u32>, v: seq<u32>, j: nat) returns (m: nat)
    requires Reaches(p, i, u + v, j)
    ensures Reaches(p, i, u, m) && Reaches(p, m, v, j)
    decreases |u|
  {
    if u == [] {
      assert u + v == v;
      m := i;
    } else {
      var w := u + v;
      assert w[0] == u[0] && w[1..] == u[1..] + v;
      var k: nat :| Move(p, i, k) && Reaches(p, k, w[1..], j);
      m := ReachesSplit(p, k, u[1..], v, j);
      assert Move(p, i, k) && Reaches(p, k, u[1..], m);
    }
  }

  // Every later state can be reached by some word, because no set is empty.
  lemma {:induction false} SomeWord(p: seq<Position>, i: nat, j: nat) returns (w: seq<u32>)
    requires NonemptySets(p) && i <= j <= |p|
    ensures Reaches(p, i, w, j)
    decreases j - i
  {
    if i == j {
      w := [];
    } else {
      var v := SomeWord(p, i + 1, j);
      var a := if p[i].One? then p[i].asn else p[i].asns[0];
      w := [a] + v;
      assert w[0] == a && w[1..] == v;
      assert Move(p, i, i + 1);
    }
  }

  lemma PosMatchesSymbol(q: Position, m: MaskItem) returns (a: u32)
    requires !m.Asterisk? && PosMatches(q, m) && (q.AnyOf? ==> q.asns != [])
    ensures ItemAccepts(m, a) && Consumes(q, a)
  {
    match q {
      case One(b) => a := b;
      case AnyOf(s) =>
        if m.Question? {
          a := s[0];
        } else {
          var x :| 0 <= x < |s| && ItemAccepts(m, s[x]);
          a := s[x];
        }
    }
  }

  // A state marked after the mask is reached by some word matched by the mask ...
  lemma {:induction false} MarkedSound(p: seq<Position>, s: iset<nat>, mask: seq<MaskItem>, j: nat)
    returns (i: nat, w: seq<u32>)
    requires NonemptySets(p) && j in Marked(p, s, mask)
    ensures i in s && MaskMatches(mask, w) && Reaches(p, i, w, j)
    decreases |mask|
  {
    if mask == [] {
      i, w := j, [];
    } else {
      var k, v := MarkedSound(p, Next(p, s, mask[0]), mask[1..], j);
      i, w := MarkedBack(p, s, mask, k, v, j);
    }
  }

  // ... and every state reached by such a word is marked.
  lemma {:induction false} MarkedComplete(p: seq<Position>, s: iset<nat>, mask: seq<MaskItem>, i: nat, w: seq<u32>, j: nat)
    requires NonemptySets(p) && i in s && i <= |p| && MaskMatches(mask, w) && Reaches(p, i, w, j)
    ensures j in Marked(p, s, mask)
    decreases |mask|
  {
    if mask != [] {
      var k, v := MarkedForth(p, s, mask, i, w, j);
      MarkedComplete(p, Next(p, s, mask[0]), mask[1..], k, v, j);
    }
  }

  lemma MarkedBack(p: seq<Position>, s: iset<nat>, mask: seq<MaskItem>, k: nat, v: seq<u32>, j: nat)
    returns (i: nat, w: seq<u32>)
    requires NonemptySets(p) && mask != []
    requires InNext(p, s, mask[0], k) && MaskMatches(mask[1..], v) && Reaches(p, k, v, j)
    ensures i in s && MaskMatches(mask, w) && Reaches(p, i, w, j)
  {
    if mask[0].Asterisk? {
      i :| i in s && i <= k <= |p|;
      var u := SomeWord(p, i, k);
      w := u + v;
      assert w[|u|..] == v;
      ReachesJoin(p, i, u, k, v, j);
    } else {
      i :| i in s && i < |p| && PosMatches(p[i], mask[0]) && Move(p, i, k);
      var a := PosMatchesSymbol(p[i], mask[0]);
      w := [a] + v;
      assert w[0] == a && w[1..] == v && Move(p, i, k);
    }
  }

  lemma MarkedForth(p: seq<Position>, s: iset<nat>, mask: seq<MaskItem>, i: nat, w: seq<u32>, j: nat)
    returns (k: nat, v: seq<u32>)
    requires NonemptySets(p) && mask != [] && i in s && i <= |p|
    requires MaskMatches(mask, w) && Reaches(p, i, w, j)
    ensures k <= |p| && InNext(p, s, mask[0], k) && MaskMatches(mask[1..], v) && Reaches(p, k, v, j)
  {
    if mask[0].Asterisk? {
      var c :| 0 <= c <= |w| && MaskMatches(mask[1..], w[c..]);
      v := w[c..];
      assert w == w[..c] + v;
      k := ReachesSplit(p, i, w[..c], v, j);
      ReachesUp(p, i, w[..c], k);
    } else {
      v := w[1..];
      k :| Move(p, i, k) && Reaches(p, k, v, j);
    }
  }

  /* ---------- Reaching the final state means standing for the word ---------- */

  // Word w can be cut into blocks for the positions from i on.
  ghost predicate Spells(p: seq<Position>, i: nat, first: bool, w: seq<u32>)
    requires i <= |p|
  {
    exists parts :: Blocks(p, i, first, parts) && Flatten(parts) == w
  }

  lemma SpellsOne(p: seq<Position>, i: nat, first: bool, w: seq<u32>)
    requires i < |p| && p[i].One?
    ensures Spells(p, i, first, w) <==> w != [] && w[0] == p[i].asn && Spells(p, i + 1, false, w[1..])
  {
    if parts :| Blocks(p, i, first, parts) && Flatten(parts) == w {
      assert Fits(p[i + 0], first && 0 == 0, parts[0]);
      BlocksTail(p, i, first, parts);
      assert w[1..] == Flatten(parts[1..]);
    }
    if w != [] && w[0] == p[i].asn && Spells(p, i + 1, false, w[1..]) {
      var rest :| Blocks(p, i + 1, false, rest) && Flatten(rest) == w[1..];
      BlocksCons(p, i, first, [w[0]], rest);
      assert w == [w[0]] + w[1..];
    }
  }

  lemma SpellsSet(p: seq<Position>, i: nat, first: bool, w: seq<u32>)
    requires i < |p| && p[i].AnyOf?
    ensures Spells(p, i, first, w) <==>
            (!first && Spells(p, i + 1, false, w)) ||
            (w != [] && w[0] in p[i].asns && Spells(p, i, false, w[1..]))
  {
    if parts :| Blocks(p, i, first, parts) && Flatten(parts) == w {
      SpellsSetCut(p, i, first, w, parts);
    }
    if !first && Spells(p, i + 1, false, w) {
      var rest :| Blocks(p, i + 1, false, rest) && Flatten(rest) == w;
      BlocksCons(p, i, first, [], rest);
      assert [] + w == w;
    }
    if w != [] && w[0] in p[i].asns && Spells(p, i, false, w[1..]) {
      SpellsSetExtend(p, i, first, w);
    }
  }

  lemma SpellsSetCut(p: seq<Position>, i: nat, first: bool, w: seq<u32>, parts: seq<seq<u32>>)
    requires i < |p| && p[i].AnyOf? && Blocks(p, i, first, parts) && Flatten(parts) == w
    ensures (!first && Spells(p, i + 1, false, w)) ||
            (w != [] && w[0] in p[i].asns && Spells(p, i, false, w[1..]))
  {
    assert Fits(p[i + 0], first && 0 == 0, parts[0]);
    BlocksTail(p, i, first, parts);
    if parts[0] == [] {
      assert w == Flatten(parts[1..]);
    } else {
      BlocksCons(p, i, false, parts[0][1..], parts[1..]);
      assert w[1..] == parts[0][1..] + Flatten(parts[1..]);
      assert w[0] == parts[0][0];
    }
  }

  lemma SpellsSetExtend(p: seq<Position>, i: nat, first: bool, w: seq<u32>)
    requires i < |p| && p[i].AnyOf? && w != [] && w[0] in p[i].asns && Spells(p, i, false, w[1..])
    ensures Spells(p, i, first, w)
  {
    var parts :| Blocks(p, i, false, parts) && Flatten(parts) == w[1..];
    assert Fits(p[i + 0], false && 0 == 0, parts[0]);
    BlocksTail(p, i, false, parts);
    var part := [w[0]] + parts[0];
    assert Fits(p[i], first, part);
    BlocksCons(p, i, first, part, parts[1..]);
    assert w == [w[0]] + w[1..];
    assert [w[0]] + (parts[0] + Flatten(parts[1..])) == part + Flatten(parts[1..]);
  }

  lemma BlocksTail(p: seq<Position>, i: nat, first: bool, parts: seq<seq<u32>>)
    requires i < |p| && Blocks(p, i, first, parts)
    ensures Blocks(p, i + 1, false, parts[1..])
  {
    forall k | 0 <= k < |parts[1..]| ensures Fits(p[i + 1 + k], false && k == 0, parts[1..][k]) {
      assert Fits(p[i + (k + 1)], first && k + 1 == 0, parts[k + 1]);
    }
  }

  lemma BlocksCons(p: seq<Position>, i: nat, first: bool, part: seq<u32>, rest: seq<seq<u32>>)
    requires i < |p| && Fits(p[i], first, part) && Blocks(p, i + 1, false, rest)
    ensures Blocks(p, i, first, [part] + rest) && Flatten([part] + rest) == part + Flatten(rest)
  {
    var parts := [part] + rest;
    forall k | 0 <= k < |parts| ensures Fits(p[i + k], first && k == 0, parts[k]) {
      if k > 0 {
        assert Fits(p[i + 1 + (k - 1)], false && k - 1 == 0, rest[k - 1]);
      }
    }
    assert parts[1..] == rest;
  }

  // Skipping ahead inside the closure is what a non-first set may do by standing for nothing.
  lemma {:induction false} SpellsClose(p: seq<Position>, i: nat, w: seq<u32>)
    requires i <= |p|
    ensures Spells(p, i, false, w) <==> exists k: nat :: InClose(p, i, k) && Spells(p, k, true, w)
    decreases |p| - i
  {
    if i == |p| {
      assert InClose(p, i, i);
      if Spells(p, i, false, w) {
        var parts :| Blocks(p, i, false, parts) && Flatten(parts) == w;
        assert Blocks(p, i, true, parts);
      }
      if k: nat :| InClose(p, i, k) && Spells(p, k, true, w) {
        var parts :| Blocks(p, i, true, parts) && Flatten(parts) == w;
        assert Blocks(p, i, false, parts);
      }
    } else {
      SpellsClose(p, i + 1, w);
      assert InClose(p, i, i);
      if p[i].One? {
        SpellsOne(p, i, false, w);
        SpellsOne(p, i, true, w);
        if k: nat :| InClose(p, i, k) && Spells(p, k, true, w) {
          assert k == i;
        }
      } else {
        SpellsSet(p, i, false, w);
        SpellsSet(p, i, true, w);
        if k: nat :| InClose(p, i + 1, k) && Spells(p, k, true, w) {
          assert InClose(p, i, k);
        }
        if k: nat :| InClose(p, i, k) && Spells(p, k, true, w) {
          if k > i {
            assert InClose(p, i + 1, k);
          }
        }
      }
    }
  }

  lemma {:induction false} ReachesFinal(p: seq<Position>, i: nat, w: seq<u32>)
    requires i <= |p|
    ensures Reaches(p, i, w, |p|) <==> Spells(p, i, true, w)
    decreases |w|
  {
    if i == |p| {
      assert Blocks(p, i, true, []) && Flatten([]) == [];
    } else if w == [] {
      if p[i].One? {
        SpellsOne(p, i, true, w);
      } else {
        SpellsSet(p, i, true, w);
      }
    } else {
      var v := w[1..];
      forall k: nat | k <= |p| ensures Reaches(p, k, v, |p|) <==> Spells(p, k, true, v) {
        ReachesFinal(p, k, v);
      }
      SpellsClose(p, i + 1, v);
      if p[i].One? {
        SpellsOne(p, i, true, w);
      } else {
        SpellsSet(p, i, true, w);
        SpellsClose(p, i, v);
        forall k: nat ensures Move(p, i, k) <==> InClose(p, i, k) {
        }
      }
    }
  }

  // What the marks of the whole run decide.
  lemma FinalMarkMeaning(p: seq<Position>, mask: seq<MaskItem>)
    requires NonemptySets(p)
    ensures |p| in Marked(p, iset{0}, mask) <==> exists w :: StandsFor(p, w) && MaskMatches(mask, w)
  {
    if |p| in Marked(p, iset{0}, mask) {
      var i, w := MarkedSound(p, iset{0}, mask, |p|);
      ReachesFinal(p, 0, w);
      assert StandsFor(p, w);
    }
    if exists w :: StandsFor(p, w) && MaskMatches(mask, w) {
      var w :| StandsFor(p, w) && MaskMatches(mask, w);
      ReachesFinal(p, 0, w);
      MarkedComplete(p, iset{0}, mask, 0, w, |p|);
    }
  }

  lemma {:induction false} MarkedStep(p: seq<Position>, s: iset<nat>, mask: seq<MaskItem>, k: nat)
    requires k < |mask|
    ensures Marked(p, s, mask[..k + 1]) == Next(p, Marked(p, s, mask[..k]), mask[k])
    decreases k
  {
    if k > 0 {
      MarkedStep(p, Next(p, s, mask[0]), mask[1..], k - 1);
      assert mask[..k + 1][1..] == mask[1..][..k] && mask[..k][1..] == mask[1..][..k - 1];
    } else {
      assert mask[..1][1..] == [];
    }
  }

  lemma {:induction false} MarkedEmpty(p: seq<Position>, mask: seq<MaskItem>)
    ensures Marked(p, iset{}, mask) == iset{}
    decreases |mask|
  {
    if mask != [] {
      assert Next(p, iset{}, mask[0]) == iset{};
      MarkedEmpty(p, mask[1..]);
    }
  }

  lemma {:induction false} MarkedSplit(p: seq<Position>, s: iset<nat>, u: seq<MaskItem>, v: seq<MaskItem>)
    ensures Marked(p, s, u + v) == Marked(p, Marked(p, s, u), v)
    decreases |u|
  {
    if u == [] {
      assert u + v == v;
    } else {
      MarkedSplit(p, Next(p, s, u[0]), u[1..], v);
      assert (u + v)[1..] == u[1..] + v;
    }
  }

  /* ---------- The implementation ---------- */

  // What parsing leaves in an array slot. The marks, which are the part of a slot that changes
  // afterwards, are in an array of their own.
  // val is the AS number of a sequence element, or where a set's length byte is in the data.
  datatype PmPos = PmPos(set_: bool, val: nat)

  predicate Represents(data: seq<byte>, x: PmPos, q: Position) {
    match q
    case One(a) => !x.set_ && x.val == a
    case AnyOf(s) =>
      x.set_ && x.val + 1 + 4 * |s| <= |data| && data[x.val] == |s| &&
      forall i :: 0 <= i < |s| ==> GetAs(data, x.val + 1 + 4 * i) == s[i]
  }

  predicate Loaded(data: seq<byte>, pos: seq<PmPos>, p: seq<Position>) {
    |p| == |pos| && forall k :: 0 <= k < |p| ==> Represents(data, pos[k], p[k])
  }

  lemma LoadedAppend(data: seq<byte>, a: seq<PmPos>, p: seq<Position>, b: seq<PmPos>, q: seq<Position>)
    requires Loaded(data, a, p) && Loaded(data, b, q)
    ensures Loaded(data, a + b, p + q)
  {
    forall k | 0 <= k < |p + q| ensures Represents(data, (a + b)[k], (p + q)[k]) {
      if k >= |p| {
        assert Represents(data, b[k - |p|], q[k - |p|]);
      }
    }
  }

  lemma SetLoaded(data: seq<byte>, at: nat, asns: seq<u32>)
    requires at + 1 + 4 * |asns| <= |data| && data[at] == |asns|
    requires forall i :: 0 <= i < |asns| ==> GetAs(data, at + 1 + 4 * i) == asns[i]
    ensures Loaded(data, [PmPos(true, at)], SegmentPositions(Set(asns)))
  {
    assert SegmentPositions(Set(asns)) == [AnyOf(asns)];
  }

  lemma Regroup<T>(a: seq<T>, b: seq<T>, c: seq<T>)
    ensures a + (b + c) == (a + b) + c
  {
  }

  // The body of the parsing loop: segment number c.
  method ParseSegment(data: seq<byte>, at0: nat, ghost path: seq<Segment>, ghost c: nat) returns (at: nat, piece: seq<PmPos>)
    requires ValidPath(path) && c < |path| && at0 <= |data| && data[at0..] == EncodeFrom(path, c)
    ensures at <= |data| && data[at..] == EncodeFrom(path, c + 1)
    ensures Loaded(data, piece, SegmentPositions(path[c]))
  {
    SegmentBytes(data, at0, path, c);
    at := at0 + 1;
    if data[at0] == AS_PATH_SET {
      piece := [PmPos(true, at)];
      SetLoaded(data, at, path[c].asns);
      at := at + 1 + 4 * data[at] as int;
    } else {
      piece := ReadAsns(data, at, path[c].asns);
      at := at + 1 + 4 * |piece|;
    }
  }

  // Reading the bytes of a path gives exactly its positions.
  method ParsePath(data: seq<byte>, ghost path: seq<Segment>) returns (pos: seq<PmPos>)
    requires ValidPath(path) && data == EncodePath(path)
    ensures Loaded(data, pos, Positions(path))
  {
    hide SegmentPositions;
    pos := [];
    var at: nat := 0;
    ghost var c, done := 0, [];
    assert data[0..] == data;
    while at < |data|
      invariant c <= |path| && at <= |data| && data[at..] == EncodeFrom(path, c)
      invariant Positions(path) == done + PositionsFrom(path, c)
      invariant Loaded(data, pos, done)
      decreases |path| - c
    {
      var next, piece := ParseSegment(data, at, path, c);
      ghost var q := SegmentPositions(path[c]);
      LoadedAppend(data, pos, done, piece, q);
      Regroup(done, q, PositionsFrom(path, c + 1));
      pos := pos + piece;
      done := done + q;
      c := c + 1;
      at := next;
    }
    assert c == |path|;
  }

  // The elements of a sequence, whose length byte is at `at`.
  method ReadAsns(data: seq<byte>, at: nat, ghost asns: seq<u32>) returns (ps: seq<PmPos>)
    requires at + 1 + 4 * |asns| <= |data| && data[at] == |asns|
    requires forall i :: 0 <= i < |asns| ==> GetAs(data, at + 1 + 4 * i) == asns[i]
    ensures |ps| == |asns| && Loaded(data, ps, SegmentPositions(Sequence(asns)))
  {
    ps := [];
    var len := data[at];
    var i := 0;
    while i < len
      invariant 0 <= i <= len && |ps| == i as int
      invariant forall k :: 0 <= k < |ps| ==> ps[k] == PmPos(false, asns[k])
    {
      ps := ps + [PmPos(false, GetAs(data, at + 1 + 4 * i as int))];
      i := i + 1;
    }
  }

  lemma SegmentBytes(data: seq<byte>, at: nat, path: seq<Segment>, c: nat)
    requires ValidPath(path) && c < |path| && at <= |data| && data[at..] == EncodeFrom(path, c)
    ensures var g := path[c];
      at + 2 + 4 * |g.asns| <= |data| &&
      data[at] == (if g.Set? then AS_PATH_SET else AS_PATH_SEQUENCE) && data[at + 1] == |g.asns| &&
      data[at + 2 + 4 * |g.asns|..] == EncodeFrom(path, c + 1) &&
      forall i :: 0 <= i < |g.asns| ==> GetAs(data, at + 2 + 4 * i) == g.asns[i]
  {
    var g := path[c];
    var d := data[at..];
    assert data[at] == d[0] && data[at + 1] == d[1];
    var n := 4 * |g.asns|;
    assert data[at + 2 + n..] == d[2 + n..];
    forall c | 0 <= c < n ensures data[at + 2 + c] == PutAsns(g.asns)[c] {
      assert data[at + 2 + c] == d[2 + c];
    }
    forall i | 0 <= i < |g.asns| ensures GetAs(data, at + 2 + 4 * i) == g.asns[i] {
      GetPutAsns(data, at + 2, g.asns, i);
    }
  }

  // Does the position meet the interval asn..asn2?
  method PmMatch(data: seq<byte>, x: PmPos, asn: u32, asn2: u32, ghost q: Position) returns (r: bool)
    requires Represents(data, x, q)
    ensures r <==> PosMatches(q, Range(asn, asn2))
  {
    if !x.set_ {
      return asn <= x.val <= asn2;
    }
    var len := data[x.val];
    var i := 0;
    while i < len
      invariant 0 <= i <= len
      invariant forall k :: 0 <= k < i ==> !ItemAccepts(Range(asn, asn2), q.asns[k])
    {
      var gas := GetAs(data, x.val + 1 + 4 * i);
      if asn <= gas <= asn2 {
        assert ItemAccepts(Range(asn, asn2), q.asns[i]);
        return true;
      }
      i := i + 1;
    }
    return false;
  }

  // The marks from i on after state i has stepped (or not, when it does not match).
  ghost predicate Stepped(was: seq<bool>, mark: seq<bool>, p: seq<Position>, i: nat, goes: bool)
    requires i <= |p| < |was| == |mark| && (goes ==> i < |p|)
  {
    (forall k :: 0 <= k < i ==> mark[k] == was[k]) &&
    (mark[i] <==> goes && Move(p, i, i)) &&
    (forall k :: i < k <= |p| ==> (mark[k] <==> was[k] || (goes && Move(p, i, k))))
  }

  // Whatever is marked above i and may be skipped has the next position marked as well.
  ghost predicate Closed(mark: seq<bool>, p: seq<Position>, i: nat)
    requires |p| < |mark|
  {
    forall k :: i < k < |p| && mark[k] && p[k].AnyOf? ==> mark[k + 1]
  }

  // Marks where state i goes; nothing above i that is marked and skippable is left unclosed.
  method PmMark(pos: seq<PmPos>, mark: array<bool>, i: nat, nh0: int, ghost p: seq<Position>) returns (nl: nat, nh: int)
    requires i < |pos| == |p| < mark.Length && !mark[i]
    requires forall k :: 0 <= k < |p| ==> (pos[k].set_ <==> p[k].AnyOf?)
    requires Closed(mark[..], p, i)
    modifies mark
    ensures Stepped(old(mark[..]), mark[..], p, i, true)
    ensures nl == (if p[i].AnyOf? then i else i + 1) && Move(p, i, nl)
    ensures nh0 >= 0 ==> nh == nh0
    ensures nh0 < 0 ==> 0 <= nh <= |p| && Move(p, i, nh)
    ensures nh0 < 0 && (forall k :: i < k <= |p| ==> !old(mark[k])) ==> forall k :: nh < k <= |p| ==> !mark[k]
  {
    ghost var was := mark[..];
    if pos[i].set_ {
      mark[i] := true;
    }
    var j := i + 1;
    while j < |pos| && pos[j].set_ && !mark[j]
      invariant i + 1 <= j <= |p| && InClose(p, i + 1, j)
      invariant mark[i] <==> p[i].AnyOf?
      invariant forall k :: i + 1 <= k < j ==> mark[k] && !was[k]
      invariant forall k :: 0 <= k < mark.Length && (k < i || k >= j) ==> mark[k] == was[k]
      decreases |p| - j
    {
      mark[j] := true;
      j := j + 1;
    }
    forall k | j < k <= |p| && InClose(p, i + 1, k) ensures was[k] {
      assert p[j].AnyOf?;
      ClosedAbove(was, p, i, j, k);
    }
    mark[j] := true;
    nl := if pos[i].set_ then i else i + 1;
    nh := if nh0 < 0 then j else nh0;
  }

  lemma {:induction false} ClosedAbove(mark: seq<bool>, p: seq<Position>, i: nat, j: nat, k: nat)
    requires i < j <= k <= |p| < |mark| && mark[j] && Closed(mark, p, i)
    requires forall x :: j <= x < k ==> p[x].AnyOf?
    ensures mark[k]
    decreases k - j
  {
    if j < k {
      ClosedAbove(mark, p, i, j + 1, k);
    }
  }

  ghost predicate MarksAre(mark: seq<bool>, n: nat, s: iset<nat>)
    requires n < |mark|
  {
    forall k :: 0 <= k <= n ==> (mark[k] <==> k in s)
  }

  // The states above i have stepped already, those up to i have not.
  ghost predicate HalfStepped(mark: seq<bool>, p: seq<Position>, s: iset<nat>, item: MaskItem, i: int)
    requires !item.Asterisk? && |p| < |mark|
  {
    (forall k :: 0 <= k <= i && k < |p| ==> (mark[k] <==> k in s)) &&
    (forall k :: i < k <= |p| && 0 <= k ==> (mark[k] <==> SteppedTo(p, s, item, i, k)))
  }

  // nl and nh bound the new marks, which are the marks above i; nh is negative as long as there is none
  predicate Window(mark: seq<bool>, plen: nat, i: int, nl: int, nh: int)
    requires plen < |mark| && i >= -1
  {
    if nh < 0 then forall k :: i < k <= plen ==> !mark[k]
    else i < nl <= nh <= plen && mark[nl] && mark[nh] && forall k :: i < k <= plen && mark[k] ==> nl <= k <= nh
  }

  // What marking the moves of state i means for the two predicates above.
  lemma SteppedAfter(was: seq<bool>, mark: seq<bool>, p: seq<Position>, s: iset<nat>, item: MaskItem, i: nat, goes: bool)
    requires !item.Asterisk? && |p| < |mark| == |was| && i <= |p| && HalfStepped(was, p, s, item, i)
    requires (goes <==> i < |p| && i in s && PosMatches(p[i], item)) && Stepped(was, mark, p, i, goes)
    ensures HalfStepped(mark, p, s, item, i - 1)
  {
    forall k | i <= k <= |p| ensures mark[k] <==> SteppedTo(p, s, item, i - 1, k) {
      if goes && Move(p, i, k) {
        assert SteppedTo(p, s, item, i - 1, k);
      }
      if k > i && SteppedTo(p, s, item, i, k) {
        var m: nat :| m in s && i < m < |p| && PosMatches(p[m], item) && Move(p, m, k);
        assert SteppedTo(p, s, item, i - 1, k);
      }
      if SteppedTo(p, s, item, i - 1, k) {
        var m: nat :| m in s && i - 1 < m < |p| && PosMatches(p[m], item) && Move(p, m, k);
        if m > i {
          assert SteppedTo(p, s, item, i, k);
        }
      }
    }
  }

  lemma WindowAfter(was: seq<bool>, mark: seq<bool>, p: seq<Position>, i: nat, goes: bool, nl0: int, nh0: int, nl: int, nh: int)
    requires i <= |p| < |mark| == |was| && Window(was, |p|, i, nl0, nh0)
    requires (goes ==> i < |p| && Closed(was, p, i)) && Stepped(was, mark, p, i, goes)
    requires goes ==> nl == (if p[i].AnyOf? then i else i + 1) && (nh0 >= 0 ==> nh == nh0)
    requires goes && nh0 < 0 ==> 0 <= nh <= |p| && Move(p, i, nh) && forall k :: nh < k <= |p| ==> !mark[k]
    requires !goes ==> nl == nl0 && nh == nh0
    ensures Window(mark, |p|, i - 1, nl, nh)
  {
    if goes && nh0 >= 0 {
      forall k | nh0 < k <= |p| ensures !mark[k] {
        if Move(p, i, k) {
          ClosedAbove(was, p, i, nh0, k);
        }
      }
    }
  }

  lemma HalfSteppedClosed(mark: seq<bool>, p: seq<Position>, s: iset<nat>, item: MaskItem, i: nat)
    requires !item.Asterisk? && |p| < |mark| && HalfStepped(mark, p, s, item, i)
    ensures Closed(mark, p, i)
  {
    forall k | i < k < |p| && mark[k] && p[k].AnyOf? ensures mark[k + 1] {
      SteppedClosed(p, s, item, i, k);
    }
  }

  // The body of the loop over the marked states, for state i.
  method StepState(data: seq<byte>, pos: seq<PmPos>, mark: array<bool>, item: MaskItem, i: nat, nl0: int, nh0: int, ghost p: seq<Position>, ghost s: iset<nat>)
    returns (nl: int, nh: int)
    requires !item.Asterisk? && Loaded(data, pos, p) && |p| < mark.Length && i <= |p|
    requires i == |p| ==> !mark[i]
    requires HalfStepped(mark[..], p, s, item, i) && Window(mark[..], |p|, i, nl0, nh0)
    modifies mark
    ensures HalfStepped(mark[..], p, s, item, i - 1) && Window(mark[..], |p|, i - 1, nl, nh)
  {
    nl, nh := nl0, nh0;
    ghost var was := mark[..];
    ghost var goes := false;
    if mark[i] {
      mark[i] := false;
      var ok := item.Question?;
      if !ok {
        ok := PmMatch(data, pos[i], LowOf(item), HighOf(item), p[i]);
      }
      if ok {
        goes := true;
        HalfSteppedClosed(was, p, s, item, i);
        assert Closed(mark[..], p, i);
        assert forall k :: 0 <= k < |p| ==> Represents(data, pos[k], p[k]);
        nl, nh := PmMark(pos, mark, i, nh, p);
      }
    }
    SteppedAfter(was, mark[..], p, s, item, i, goes);
    WindowAfter(was, mark[..], p, i, goes, nl0, nh0, nl, nh);
  }

  // One mask item that consumes a symbol: every marked state steps, from the highest one down.
  method StepMarks(data: seq<byte>, pos: seq<PmPos>, mark: array<bool>, item: MaskItem, l: nat, h: nat, ghost p: seq<Position>, ghost s: iset<nat>)
    returns (nl: int, nh: int)
    requires !item.Asterisk? && Loaded(data, pos, p) && |p| < mark.Length && l <= h <= |p|
    requires MarksAre(mark[..], |p|, s - iset{|p|}) && forall k :: k in s ==> l <= k <= h || k == |p|
    modifies mark
    ensures MarksAre(mark[..], |p|, Next(p, s, item)) && InWindow(|p|, Next(p, s, item), nl, nh)
  {
    hide Loaded, MarksAre, HalfStepped, Window, Next, InWindow;
    nl, nh := -1, -1;
    var i: int := h;
    NothingStepped(mark[..], p, s, item, h);
    while i >= l
      invariant l - 1 <= i <= h
      invariant i == |p| ==> !mark[|p|]
      invariant HalfStepped(mark[..], p, s, item, i) && Window(mark[..], |p|, i, nl, nh)
      decreases i
    {
      nl, nh := StepState(data, pos, mark, item, i, nl, nh, p, s);
      i := i - 1;
    }
    StepComplete(mark[..], p, s, item, l, i, nl, nh);
  }

  // The window holds every state of s, and its ends are states of s; nh is negative when s is empty.
  ghost predicate InWindow(n: nat, s: iset<nat>, nl: int, nh: int) {
    if nh < 0 then s == iset{}
    else 0 <= nl <= nh <= n && nl in s && nh in s && forall k :: k in s ==> nl <= k <= nh
  }

  lemma NothingStepped(mark: seq<bool>, p: seq<Position>, s: iset<nat>, item: MaskItem, h: nat)
    requires !item.Asterisk? && h <= |p| < |mark| && MarksAre(mark, |p|, s - iset{|p|})
    requires forall k :: k in s ==> k <= h || k == |p|
    ensures HalfStepped(mark, p, s, item, h) && Window(mark, |p|, h, -1, -1) && !mark[|p|]
  {
  }

  lemma StepComplete(mark: seq<bool>, p: seq<Position>, s: iset<nat>, item: MaskItem, l: nat, i: int, nl: int, nh: int)
    requires !item.Asterisk? && |p| < |mark| && HalfStepped(mark, p, s, item, i) && -1 <= i < l <= |p|
    requires Window(mark, |p|, i, nl, nh) && forall k :: k in s ==> l <= k
    ensures MarksAre(mark, |p|, Next(p, s, item)) && InWindow(|p|, Next(p, s, item), nl, nh)
  {
    forall k: nat ensures k in Next(p, s, item) <==> k <= |p| && SteppedTo(p, s, item, i, k) {
    }
    forall k | 0 <= k <= i ensures !SteppedTo(p, s, item, i, k) {
    }
  }

  function LowOf(item: MaskItem): u32
    requires item.Asn? || item.Range?
  {
    if item.Asn? then item.val else item.lo
  }

  function HighOf(item: MaskItem): u32
    requires item.Asn? || item.Range?
  {
    if item.Asn? then item.val else item.hi
  }

  // State k was marked by some state above i.
  ghost predicate SteppedTo(p: seq<Position>, s: iset<nat>, item: MaskItem, i: int, k: nat)
    requires !item.Asterisk?
  {
    exists m: nat :: m in s && i < m < |p| && PosMatches(p[m], item) && Move(p, m, k)
  }

  lemma SteppedClosed(p: seq<Position>, s: iset<nat>, item: MaskItem, i: int, k: nat)
    requires !item.Asterisk? && k < |p| && p[k].AnyOf? && SteppedTo(p, s, item, i, k)
    ensures SteppedTo(p, s, item, i, k + 1)
  {
    var m: nat :| m in s && i < m < |p| && PosMatches(p[m], item) && Move(p, m, k);
    assert Move(p, m, k + 1);
  }

  // One mask item. The marks are the states of s, inside the window; l and h are updated with them.
  method ApplyItem(data: seq<byte>, pos: seq<PmPos>, mark: array<bool>, item: MaskItem, l0: nat, h0: nat, ghost p: seq<Position>, ghost s: iset<nat>)
    returns (l: int, h: int)
    requires Loaded(data, pos, p) && |p| < mark.Length && MarksAre(mark[..], |p|, s) && InWindow(|p|, s, l0, h0)
    modifies mark
    ensures MarksAre(mark[..], |p|, Next(p, s, item)) && InWindow(|p|, Next(p, s, item), l, h)
  {
    // this mark is removed so that nothing steps after the final position
    mark[|pos|] := false;
    assert MarksAre(mark[..], |p|, s - iset{|p|});
    if item.Asterisk? {
      l, h := l0, |pos|;
      MarkFrom(mark, l0, |pos|);
    } else {
      l, h := StepMarks(data, pos, mark, item, l0, h0, p, s);
    }
  }

  // The whole match: true exactly when some word the path can stand for is matched by the mask.
  method AsPathMatch(data: seq<byte>, mask: seq<MaskItem>, ghost path: seq<Segment>) returns (r: bool)
    requires ValidPath(path) && data == EncodePath(path) && |Positions(path)| <= MAX_POSITIONS
    ensures r <==> exists w :: StandsFor(Positions(path), w) && MaskMatches(mask, w)
  {
    hide Loaded, MarksAre, Marked, Next, StandsFor, MaskMatches, EncodePath, ValidPath, NonemptySets;
    ghost var p := Positions(path);
    PositionsNonempty(path, 0);
    FinalMarkMeaning(p, mask);
    var pos := ParsePath(data, path);
    var mark := new bool[MAX_POSITIONS + 1](_ => false);
    var l, h := 0, 0;
    mark[0] := true;
    ghost var s := iset{0};
    var c := 0;
    assert mask[..0] == [];
    Starting(data, pos, mark[..], p, mask);
    while c < |mask|
      invariant 0 <= c <= |mask| && s == Marked(p, iset{0}, mask[..c])
      invariant h >= 0 && MarksAre(mark[..], |p|, s) && InWindow(|p|, s, l, h)
    {
      MarkedStep(p, iset{0}, mask, c);
      l, h := ApplyItem(data, pos, mark, mask[c], l, h, p, s);
      s := Next(p, s, mask[c]);
      c := c + 1;
      if h < 0 {
        MarkedNone(p, mask, c);
        return false;
      }
    }
    assert mask[..c] == mask;
    MarkOf(mark[..], |p|, s);
    return mark[|pos|];
  }

  lemma Starting(data: seq<byte>, pos: seq<PmPos>, mark: seq<bool>, p: seq<Position>, mask: seq<MaskItem>)
    requires Loaded(data, pos, p) && |p| < |mark| && forall k :: 0 <= k < |mark| ==> (mark[k] <==> k == 0)
    ensures |pos| == |p| && MarksAre(mark, |p|, iset{0}) && InWindow(|p|, iset{0}, 0, 0) && Marked(p, iset{0}, []) == iset{0}
  {
  }

  lemma MarkOf(mark: seq<bool>, n: nat, s: iset<nat>)
    requires n < |mark| && MarksAre(mark, n, s)
    ensures mark[n] <==> n in s
  {
  }

  lemma MarkedNone(p: seq<Position>, mask: seq<MaskItem>, c: nat)
    requires c <= |mask| && Marked(p, iset{0}, mask[..c]) == iset{}
    ensures Marked(p, iset{0}, mask) == iset{}
  {
    assert mask == mask[..c] + mask[c..];
    MarkedSplit(p, iset{0}, mask[..c], mask[c..]);
    MarkedEmpty(p, mask[c..]);
  }

  // An asterisk marks everything from the window's lower end to the final state.
  method MarkFrom(mark: array<bool>, l: nat, plen: nat)
    requires l <= plen < mark.Length
    modifies mark
    ensures mark[..] == seq(mark.Length, k requires 0 <= k < mark.Length => l <= k <= plen || old(mark[..])[k])
  {
    var i := l;
    while i <= plen
      invariant l <= i <= plen + 1
      invariant forall k :: 0 <= k < mark.Length ==> mark[k] == (l <= k < i || old(mark[k]))
    {
      mark[i] := true;
      i := i + 1;
    }
  }
}
