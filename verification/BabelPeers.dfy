/**
 * What this node understands of packets that other implementations write (section 4.4 and section 4.5
 * of RFC 6126): padding and unknown TLVs, next hops, updates that omit the leading bytes of a saved
 * prefix, save their prefix, or take the router-id from it.
 *
 * Main result: whatever a peer writes by these rules is received as the updates it meant, in order
 * (ParseItems); an update that breaks them ends the packet (ParseStops).
 */
module BabelPeers {

  import opened BabelPackets
  import opened Numbers
  import opened Lists
  import opened Options

  // One TLV of a peer. An update may omit bytes that it shares with the saved prefix, `save` its own
  // prefix for later ones, and `derive` the router-id from its prefix. Intervals are in hundredths of
  // a second. Unicast hellos are not for this implementation.
  datatype Item =
    | Pad
    | Skipped(kind: byte, data: seq<byte>)
    | NewRouterId(rid: u64)
    | NewNextHop(addr: Ip6)
    | LocalNextHop(host: seq<byte>)
    | Greeting(unicast: bool, seqno: u16, ticks: u16)
    | Route(plen: byte, prefix: Ip6, seqno: u16, metric: u16, ticks: u16, omitted: byte, save: bool, derive: bool)

  // What a peer may write, in the state the receiver is in.
  predicate Legal(item: Item, st: ParseState) {
    match item
    case Skipped(kind, data) => (kind == TLV_PADN || kind == TLV_ACK || kind >= TLV_MAX) && |data| < 0x100
    case LocalNextHop(host) => |host| == 8
    case Route(plen, prefix, _, metric, _, omitted, _, derive) =>
      GoodPrefix(plen, prefix) && omitted <= Bytes(plen) &&
      (omitted > 0 ==> st.prefixSeen && st.prefix[..omitted] == prefix[..omitted]) &&
      (metric < INFINITY ==> st.ridSeen || derive)
    case _ => true
  }

  function Flags(save: bool, derive: bool): byte {
    (if save then 0x80 else 0) + (if derive then 0x40 else 0)
  }

  function Wire(item: Item, st: ParseState): seq<byte>
    requires Legal(item, st)
  {
    match item
    case Pad => [TLV_PAD1]
    case Skipped(kind, data) => [kind, |data|] + data
    case NewRouterId(rid) => RouterIdTlv(rid)
    case NewNextHop(addr) => [TLV_NEXT_HOP, 18, AE_IP6, 0] + addr
    case LocalNextHop(host) => [TLV_NEXT_HOP, 10, AE_IP6_LL, 0] + host
    case Greeting(unicast, seqno, ticks) => [TLV_HELLO, 6, if unicast then 0x80 else 0, 0] + Put16(seqno) + Put16(ticks)
    case Route(plen, prefix, seqno, metric, ticks, omitted, save, derive) =>
      UpdateTlv(plen, prefix, seqno, metric, ticks, omitted, save, derive)
  }

  function UpdateTlv(plen: byte, prefix: Ip6, seqno: u16, metric: u16, ticks: u16, omitted: byte, save: bool, derive: bool): seq<byte>
    requires omitted <= Bytes(plen) <= 16
  {
    [TLV_UPDATE, 10 + Bytes(plen) - omitted, AE_IP6, Flags(save, derive), plen, omitted] +
    Put16(ticks) + Put16(seqno) + Put16(metric) + prefix[omitted..Bytes(plen)]
  }

  // The router-id in the last eight bytes of a prefix.
  function IdOf(prefix: Ip6): u64 {
    Get64(prefix, 8)
  }

  // Whole seconds, at least one.
  function Seconds(ticks: u16): u16 {
    if ticks < 200 then 1 else ticks / 100
  }

  // The update that is meant, and what holds for the TLVs after it.
  function Meant(item: Item, st: ParseState): Option<Msg> {
    match item
    case Greeting(unicast, seqno, ticks) => if unicast then None else Some(Hello(seqno, Seconds(ticks)))
    case Route(plen, prefix, seqno, metric, ticks, _, _, derive) =>
      Some(Update(false, plen, prefix, if derive then IdOf(prefix) else st.rid, seqno, metric, Seconds(ticks), st.nextHop))
    case _ => None
  }

  function Next(item: Item, st: ParseState): ParseState {
    match item
    case NewRouterId(rid) => st.(rid := rid, ridSeen := true)
    case NewNextHop(addr) => st.(nextHop := addr)
    case LocalNextHop(host) => if |host| == 8 then st.(nextHop := [0xFE, 0x80, 0, 0, 0, 0, 0, 0] + host) else st
    case Route(_, prefix, _, _, _, _, save, derive) =>
      var a := if save then st.(prefix := prefix, prefixSeen := true) else st;
      if derive then a.(rid := IdOf(prefix), ridSeen := true) else a
    case _ => st
  }

  predicate AllLegal(items: seq<Item>, st: ParseState) {
    items == [] || (Legal(items[0], st) && AllLegal(items[1..], Next(items[0], st)))
  }

  function WireAll(items: seq<Item>, st: ParseState): seq<byte>
    requires AllLegal(items, st)
  {
    if items == [] then [] else Wire(items[0], st) + WireAll(items[1..], Next(items[0], st))
  }

  function One(item: Item, st: ParseState): seq<Msg> {
    if Meant(item, st).Some? then [Meant(item, st).value] else []
  }

  function MeantAll(items: seq<Item>, st: ParseState): seq<Msg> {
    if items == [] then []
    else One(items[0], st) + MeantAll(items[1..], Next(items[0], st))
  }

  function NextAll(items: seq<Item>, st: ParseState): ParseState {
    if items == [] then st else NextAll(items[1..], Next(items[0], st))
  }

  /* ---------- Reading them ---------- */

  lemma UpdateLayout(item: Item, t: seq<byte>, b: nat)
    requires item.Route? && b == Bytes(item.plen) <= 16 && item.omitted <= b
    requires t == UpdateTlv(item.plen, item.prefix, item.seqno, item.metric, item.ticks, item.omitted, item.save, item.derive)
    ensures |t| == 12 + b - item.omitted && t[12..] == item.prefix[item.omitted..b]
    ensures t[0] == TLV_UPDATE && t[1] == |t| - 2 && t[2] == AE_IP6 && t[3] == Flags(item.save, item.derive) && t[4] == item.plen && t[5] == item.omitted
    ensures Get16(t, 6) == item.ticks && Get16(t, 8) == item.seqno && Get16(t, 10) == item.metric
  {
    var head := [TLV_UPDATE, 10 + b - item.omitted, AE_IP6, Flags(item.save, item.derive), item.plen, item.omitted] +
      Put16(item.ticks) + Put16(item.seqno) + Put16(item.metric);
    assert t == head + item.prefix[item.omitted..b];
  }

  // The omitted bytes and those sent make up the prefix.
  lemma PrefixWhole(saved: Ip6, t: seq<byte>, plen: byte, prefix: Ip6, omitted: byte)
    requires GoodPrefix(plen, prefix) && omitted <= Bytes(plen) <= 16 && saved[..omitted] == prefix[..omitted]
    requires |t| == 12 + Bytes(plen) - omitted && t[12..] == prefix[omitted..Bytes(plen)]
    ensures GetPrefix(saved[..omitted] + t[12..12 + (Bytes(plen) - omitted)]) == prefix
  {
    var b := Bytes(plen);
    assert t[12..12 + (b - omitted)] == prefix[omitted..b];
    assert prefix[..omitted] + prefix[omitted..b] == prefix[..b];
    assert prefix == prefix[..b] + prefix[b..];
  }

  // The prefix as it is put together, whatever has been saved.
  function WholePrefix(saved: Ip6, t: seq<byte>, plen: byte, omitted: byte): Ip6
    requires omitted <= Bytes(plen) <= 16 && |t| == 12 + Bytes(plen) - omitted
  {
    GetPrefix(saved[..omitted] + t[12..12 + (Bytes(plen) - omitted)])
  }

  lemma FlagsRead(save: bool, derive: bool, prefix: Ip6, st: ParseState)
    ensures var a := if save then st.(prefix := prefix, prefixSeen := true) else st;
      ReadFlags(Flags(save, derive), prefix, st) == if derive then a.(rid := IdOf(prefix), ridSeen := true) else a
  {
    hide Get64;
  }

  // An update with the given whole prefix and flags, or why it is refused.
  lemma UpdateRead(t: seq<byte>, plen: byte, omitted: byte, prefix: Ip6, st: ParseState)
    requires plen <= 128 && omitted <= Bytes(plen) <= 16 && |t| == 12 + Bytes(plen) - omitted
    requires t[2] == AE_IP6 && t[4] == plen && t[5] == omitted
    ensures omitted > 0 && !st.prefixSeen ==> ReadUpdate(t, st) == Error
    ensures (omitted > 0 ==> st.prefixSeen) && GetPrefix(st.prefix[..omitted] + t[12..12 + (Bytes(plen) - omitted)]) == prefix ==>
      var s := ReadFlags(t[3], prefix, st);
      ReadUpdate(t, st) ==
        if !s.ridSeen && Get16(t, 10) != INFINITY then Error
        else Success(Update(false, plen, prefix, s.rid, Get16(t, 8), Get16(t, 10), GetTime(t, 6), s.nextHop), s)
  {
    hide GetPrefix, Get16, GetTime, ReadFlags, Bytes;
  }

  lemma TimeIs(t: seq<byte>, i: nat)
    requires i + 2 <= |t|
    ensures GetTime(t, i) == Seconds(Get16(t, i))
  {
    hide Get16;
  }

  lemma ReadIsUpdate(t: seq<byte>, st: ParseState)
    requires |t| >= 12 && t[0] == TLV_UPDATE
    ensures ReadTlv(t, st) == ReadUpdate(t, st)
  {
    hide ReadUpdate;
  }

  lemma PrefixFits(plen: byte, prefix: Ip6)
    requires GoodPrefix(plen, prefix)
    ensures plen <= 128 && Bytes(plen) <= 16
  {
  }

  lemma ReadRoute(item: Item, st: ParseState)
    requires item.Route? && Legal(item, st)
    ensures |Wire(item, st)| >= 2 && Wire(item, st)[1] == |Wire(item, st)| - 2 && Wire(item, st)[0] != TLV_PAD1
    ensures ReadTlv(Wire(item, st), st) == Success(Meant(item, st).value, Next(item, st))
  {
    hide UpdateTlv, Get16, GetTime, GetPrefix, PutTime, ReadFlags, Flags, Get64, Bytes, IdOf, GoodPrefix, Seconds, ReadUpdate, ReadTlv;
    var t := Wire(item, st);
    PrefixFits(item.plen, item.prefix);
    UpdateLayout(item, t, Bytes(item.plen));
    assert item.omitted == 0 ==> st.prefix[..0] == item.prefix[..0];
    PrefixWhole(st.prefix, t, item.plen, item.prefix, item.omitted);
    FlagsRead(item.save, item.derive, item.prefix, st);
    TimeIs(t, 6);
    UpdateRead(t, item.plen, item.omitted, item.prefix, st);
    ReadIsUpdate(t, st);
  }

  lemma ReadOther(item: Item, st: ParseState)
    requires Legal(item, st) && !item.Route? && !item.Pad?
    ensures |Wire(item, st)| >= 2 && Wire(item, st)[1] == |Wire(item, st)| - 2 && Wire(item, st)[0] != TLV_PAD1
    ensures ReadTlv(Wire(item, st), st) ==
      if Meant(item, st).Some? then Success(Meant(item, st).value, Next(item, st)) else Ignore(Next(item, st))
  {
    if item.NewRouterId? {
      RouterIdLength(item.rid);
      ReadRouterId(item.rid, st);
    }
    if item.LocalNextHop? {
      assert Wire(item, st)[4..12] == item.host;
    }
    if item.Greeting? {
      TimeIs(Wire(item, st), 6);
    }
    if item.NewNextHop? {
      assert Wire(item, st)[4..20] == item.addr;
    }
  }

  // Whatever a peer writes by the rules is received as it was meant, and the rest is read after it.
  lemma {:induction false} ParseItems(items: seq<Item>, tail: seq<byte>, st: ParseState)
    requires AllLegal(items, st)
    ensures Parse(WireAll(items, st) + tail, st) == MeantAll(items, st) + Parse(tail, NextAll(items, st))
    decreases |items|
  {
    hide Parse, Wire, Meant, Next, Legal;
    if items == [] {
      assert [] + tail == tail && [] + Parse(tail, st) == Parse(tail, st);
    } else {
      var st' := Next(items[0], st);
      ParseItems(items[1..], tail, st');
      ParseItem(items[0], WireAll(items[1..], st') + tail, st);
      Associate(Wire(items[0], st), WireAll(items[1..], st'), tail);
      Associate(One(items[0], st), MeantAll(items[1..], st'), Parse(tail, NextAll(items, st)));
    }
  }

  lemma ParseItem(item: Item, rest: seq<byte>, st: ParseState)
    requires Legal(item, st)
    ensures Parse(Wire(item, st) + rest, st) == One(item, st) + Parse(rest, Next(item, st))
  {
    if item.Pad? {
      assert ([TLV_PAD1] + rest)[1..] == rest;
    } else {
      if item.Route? {
        ReadRoute(item, st);
      } else {
        ReadOther(item, st);
      }
      hide Wire, ReadTlv, Meant, Next, Legal;
      ParseTlv(Wire(item, st), rest, st);
    }
  }

  // An update that omits bytes no update has saved, or has no router-id to go by, ends the packet.
  lemma ParseStops(item: Item, rest: seq<byte>, st: ParseState)
    requires item.Route? && GoodPrefix(item.plen, item.prefix) && item.omitted <= Bytes(item.plen)
    requires (item.omitted > 0 && !st.prefixSeen) || (item.metric < INFINITY && !st.ridSeen && !item.derive)
    ensures Parse(UpdateTlv(item.plen, item.prefix, item.seqno, item.metric, item.ticks, item.omitted, item.save, item.derive) + rest, st) == []
  {
    hide UpdateTlv, Get16, GetTime, GetPrefix, PutTime, ReadFlags, Flags, Get64, Bytes, IdOf, GoodPrefix, ReadUpdate, ReadTlv;
    PrefixFits(item.plen, item.prefix);
    var t := UpdateTlv(item.plen, item.prefix, item.seqno, item.metric, item.ticks, item.omitted, item.save, item.derive);
    UpdateLayout(item, t, Bytes(item.plen));
    var whole := WholePrefix(st.prefix, t, item.plen, item.omitted);
    FlagsRead(item.save, item.derive, whole, st);
    UpdateRead(t, item.plen, item.omitted, whole, st);
    ReadIsUpdate(t, st);
    var s := t + rest;
    assert s[0] == t[0] && s[1] == t[1] && s[..|t|] == t;
  }
}
