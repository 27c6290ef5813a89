/**
 * Babel packets (proto/babel/packets.c; section 4 of RFC 6126): writing a queue of messages to as
 * many packets as needed and parsing packets from raw bytes. Router-ids travel in TLVs of their own
 * that hold for the updates after them.
 *
 * Main result: what is parsed from the packets of a queue is the queue (SendQueue).
 */
module BabelPackets {

  import opened Numbers

  const ZERO: seq<byte> := [0, 0, 0, 0, 0, 0, 0, 0, 0, 0, 0, 0, 0, 0, 0, 0]

  // IPv6 addresses in network order
  type Ip6 = s: seq<byte> | |s| == 16 witness [0, 0, 0, 0, 0, 0, 0, 0, 0, 0, 0, 0, 0, 0, 0, 0]

  const INFINITY: u16 := 0xFFFF
  const TIME_UNITS := 100

  const TLV_PAD1: byte := 0
  const TLV_PADN: byte := 1
  const TLV_ACK_REQ: byte := 2
  const TLV_ACK: byte := 3
  const TLV_HELLO: byte := 4
  const TLV_IHU: byte := 5
  const TLV_ROUTER_ID: byte := 6
  const TLV_NEXT_HOP: byte := 7
  const TLV_UPDATE: byte := 8
  const TLV_ROUTE_REQUEST: byte := 9
  const TLV_SEQNO_REQUEST: byte := 10
  const TLV_MAX: byte := 11

  const AE_WILDCARD: byte := 0
  const AE_IP6: byte := 2
  const AE_IP6_LL: byte := 3
  const AE_MAX: byte := 4

  datatype Msg =
    | AckReq(nonce: u16, interval: u16)
    | Ack(nonce: u16)
    | Hello(seqno: u16, interval: u16)
    | Ihu(ae: byte, addr: Ip6, rxcost: u16, interval: u16)
    | Update(wildcard: bool, plen: byte, prefix: Ip6, rid: u64, seqno: u16, metric: u16, interval: u16, nextHop: Ip6)
    | RouteRequest(full: bool, plen: byte, prefix: Ip6)
    | SeqnoRequest(plen: byte, prefix: Ip6, rid: u64, seqno: u16, hopCount: byte)

  /* ---------- Integers in network order ---------- */

  function Put(v: nat, n: nat): seq<byte> {
    if n == 0 then [] else Put(v / 0x100, n - 1) + [v % 0x100]
  }

  function Get(s: seq<byte>): nat {
    if s == [] then 0 else Get(s[..|s| - 1]) * 0x100 + s[|s| - 1]
  }

  function Pow256(n: nat): nat {
    if n == 0 then 1 else 0x100 * Pow256(n - 1)
  }

  lemma {:induction false} GetPut(v: nat, n: nat)
    requires v < Pow256(n)
    ensures |Put(v, n)| == n && Get(Put(v, n)) == v
  {
    if n > 0 {
      GetPut(v / 0x100, n - 1);
      assert Put(v, n)[..n - 1] == Put(v / 0x100, n - 1);
    }
  }

  function Put16(v: u16): seq<byte> {
    [v / 0x100, v % 0x100]
  }

  function Get16(s: seq<byte>, i: nat): u16
    requires i + 2 <= |s|
  {
    var hi: nat := s[i];
    hi * 0x100 + s[i + 1]
  }

  function Put64(v: u64): (r: seq<byte>)
    ensures |r| == 8 && Get(r) == v
  {
    assert Pow256(4) == 0x1_0000_0000;
    GetPut(v, 8);
    Put(v, 8)
  }

  lemma {:induction false} GetBound(s: seq<byte>)
    ensures Get(s) < Pow256(|s|)
  {
    if s != [] {
      GetBound(s[..|s| - 1]);
    }
  }

  function Get64(s: seq<byte>, i: nat): u64
    requires i + 8 <= |s|
  {
    GetBound(s[i..i + 8]);
    assert |s[i..i + 8]| == 8 && Pow256(4) == 0x1_0000_0000 && Pow256(8) == 0x1_0000_0000_0000_0000;
    Get(s[i..i + 8])
  }

  // put_time16 and get_time16: seconds travel as hundredths
  function PutTime(v: u16): seq<byte> {
    Put16(v * TIME_UNITS % 0x10000)
  }

  function GetTime(s: seq<byte>, i: nat): u16
    requires i + 2 <= |s|
  {
    var v := Get16(s, i) / TIME_UNITS;
    if v < 1 then 1 else v
  }

  // BYTES: the bytes that hold so many bits
  function Bytes(plen: byte): nat {
    (plen + 7) / 8
  }

  // get_ip6_px: the leading bytes of a prefix, the rest is zero
  function GetPrefix(s: seq<byte>): Ip6
    requires |s| <= 16
  {
    s + ZERO[|s|..]
  }

  predicate LinkLocal(a: Ip6) {
    a[0] == 0xFE && a[1] / 0x40 == 2
  }

  // get_ip6_ll
  function LinkLocalAddr(s: seq<byte>): Ip6
    requires |s| == 8
  {
    [0xFE, 0x80, 0, 0, 0, 0, 0, 0] + s
  }

  /* ---------- Writing ---------- */

  datatype WriteState = WriteState(rid: u64, seen: bool)

  function RouterIdTlv(rid: u64): seq<byte> {
    [TLV_ROUTER_ID, 10, 0, 0] + Put64(rid)
  }

  predicate Writable(m: Msg) {
    !m.AckReq? && (m.Update? || m.RouteRequest? || m.SeqnoRequest? ==> m.plen <= 128)
  }

  // The TLV of a message.
  function Body(m: Msg): seq<byte>
    requires Writable(m)
  {
    match m
    case Ack(nonce) => [TLV_ACK, 2] + Put16(nonce)
    case Hello(seqno, interval) => [TLV_HELLO, 6, 0, 0] + Put16(seqno) + PutTime(interval)
    case Ihu(_, addr, rxcost, interval) =>
      if LinkLocal(addr) then [TLV_IHU, 14, AE_IP6_LL, 0] + Put16(rxcost) + PutTime(interval) + addr[8..]
      else [TLV_IHU, 6, AE_WILDCARD, 0] + Put16(rxcost) + PutTime(interval)
    case Update(wildcard, plen, prefix, _, seqno, metric, interval, _) =>
      [TLV_UPDATE, 10 + Bytes(plen), if wildcard then AE_WILDCARD else AE_IP6, 0, if wildcard then 0 else plen, 0] +
      PutTime(interval) + Put16(seqno) + Put16(metric) + prefix[..Bytes(plen)]
    case RouteRequest(full, plen, prefix) =>
      [TLV_ROUTE_REQUEST, 2 + Bytes(plen), if full then AE_WILDCARD else AE_IP6, if full then 0 else plen] + prefix[..Bytes(plen)]
    case SeqnoRequest(plen, prefix, rid, seqno, hopCount) =>
      [TLV_SEQNO_REQUEST, 14 + Bytes(plen), AE_IP6, plen] + Put16(seqno) + [hopCount, 0] + Put64(rid) + prefix[..Bytes(plen)]
  }

  // A finite update needs its router-id to be the current one.
  predicate NeedsId(m: Msg, st: WriteState) {
    m.Update? && m.metric < INFINITY && (!st.seen || st.rid != m.rid)
  }

  function Encode(m: Msg, st: WriteState): seq<byte>
    requires Writable(m)
  {
    if NeedsId(m, st) then RouterIdTlv(m.rid) + Body(m) else Body(m)
  }

  function After(m: Msg, st: WriteState): WriteState {
    if NeedsId(m, st) then WriteState(m.rid, true) else st
  }

  lemma BodyLength(m: Msg)
    requires Writable(m) && !m.AckReq?
    ensures 4 <= |Body(m)| <= 32 && |Body(m)| == 2 + Body(m)[1] && Body(m)[0] != TLV_PAD1
  {
  }

  /* ---------- Reading ---------- */

  // `rid` and `prefix` are valid only when seen.
  datatype ParseState = ParseState(saddr: Ip6, nextHop: Ip6, rid: u64, ridSeen: bool, prefix: Ip6, prefixSeen: bool)

  datatype ReadResult = Success(msg: Msg, state: ParseState) | Ignore(state: ParseState) | Error

  function MinLength(kind: byte): nat
    requires TLV_PADN < kind < TLV_MAX
  {
    if kind == TLV_ACK || kind == TLV_NEXT_HOP || kind == TLV_ROUTE_REQUEST then 4
    else if kind == TLV_ACK_REQ || kind == TLV_HELLO || kind == TLV_IHU then 8
    else if kind == TLV_ROUTER_ID || kind == TLV_UPDATE then 12
    else 16
  }

  function ReadHello(t: seq<byte>, st: ParseState): ReadResult
    requires |t| >= 8
  {
    // unicast hellos are not supported
    if t[2] >= 0x80 then Ignore(st) else Success(Hello(Get16(t, 4), GetTime(t, 6)), st)
  }

  function ReadIhu(t: seq<byte>, st: ParseState): ReadResult
    requires |t| >= 8
  {
    if t[2] >= AE_MAX then Ignore(st)
    else if t[2] == AE_IP6_LL then
      if |t| - 8 < 8 then Error
      else Success(Ihu(t[2], LinkLocalAddr(t[8..16]), Get16(t, 4), GetTime(t, 6)), st)
    else Success(Ihu(t[2], ZERO, Get16(t, 4), GetTime(t, 6)), st)
  }

  function ReadNextHop(t: seq<byte>, st: ParseState): ReadResult
    requires |t| >= 4
  {
    if t[2] == AE_WILDCARD then Error
    else if t[2] == AE_IP6 then
      if |t| - 4 < 16 then Error else Ignore(st.(nextHop := t[4..20]))
    else if t[2] == AE_IP6_LL then
      if |t| - 4 < 8 then Error else Ignore(st.(nextHop := LinkLocalAddr(t[4..12])))
    else Ignore(st)
  }

  // The prefix saved and the router-id derived from it, as the flags of the update ask.
  function ReadFlags(flags: byte, prefix: Ip6, st: ParseState): ParseState {
    var a := if flags >= 0x80 then st.(prefix := prefix, prefixSeen := true) else st;
    if flags / 0x40 % 2 == 1 then a.(rid := Get64(prefix, 8), ridSeen := true) else a
  }

  function ReadUpdate(t: seq<byte>, st: ParseState): ReadResult
    requires |t| >= 12
  {
    var ae, flags, plen, omitted := t[2], t[3], t[4], t[5];
    var interval, seqno, metric := GetTime(t, 6), Get16(t, 8), Get16(t, 10);
    var len := Bytes(plen) - omitted;
    if len < 0 || len > |t| - 12 then Error
    else if ae == AE_WILDCARD then
      if plen > 0 || (!st.ridSeen && metric != INFINITY) then Error
      else Success(Update(true, 0, ZERO, st.rid, seqno, metric, interval, st.nextHop), st)
    else if ae == AE_IP6 then
      if plen > 128 || (omitted > 0 && !st.prefixSeen) then Error
      else
        var prefix := GetPrefix(st.prefix[..omitted] + t[12..12 + len]);
        var s := ReadFlags(flags, prefix, st);
        if !s.ridSeen && metric != INFINITY then Error
        else Success(Update(false, plen, prefix, s.rid, seqno, metric, interval, s.nextHop), s)
    else Ignore(st)
  }

  function ReadRouteRequest(t: seq<byte>, st: ParseState): ReadResult
    requires |t| >= 4
  {
    if t[2] == AE_WILDCARD then
      if t[3] > 0 then Error else Success(RouteRequest(true, 0, ZERO), st)
    else if t[2] == AE_IP6 then
      if t[3] > 128 || |t| - 4 < Bytes(t[3]) then Error
      else Success(RouteRequest(false, t[3], GetPrefix(t[4..4 + Bytes(t[3])])), st)
    else if t[2] == AE_IP6_LL then Error
    else Ignore(st)
  }

  function ReadSeqnoRequest(t: seq<byte>, st: ParseState): ReadResult
    requires |t| >= 16
  {
    if t[6] == 0 || t[2] == AE_WILDCARD then Error
    else if t[2] == AE_IP6 then
      if t[3] > 128 || |t| - 16 < Bytes(t[3]) then Error
      else Success(SeqnoRequest(t[3], GetPrefix(t[16..16 + Bytes(t[3])]), Get64(t, 8), Get16(t, 4), t[6]), st)
    else if t[2] == AE_IP6_LL then Error
    else Ignore(st)
  }

  // babel_read_tlv, for a TLV with its header
  function ReadTlv(t: seq<byte>, st: ParseState): ReadResult
    requires |t| >= 2
  {
    var kind := t[0];
    if kind <= TLV_PADN || kind >= TLV_MAX || kind == TLV_ACK then Ignore(st)
    else if |t| < MinLength(kind) then Error
    else if kind == TLV_ACK_REQ then Success(AckReq(Get16(t, 4), GetTime(t, 6)), st)
    else if kind == TLV_HELLO then ReadHello(t, st)
    else if kind == TLV_IHU then ReadIhu(t, st)
    else if kind == TLV_ROUTER_ID then Ignore(st.(rid := Get64(t, 4), ridSeen := true))
    else if kind == TLV_NEXT_HOP then ReadNextHop(t, st)
    else if kind == TLV_UPDATE then ReadUpdate(t, st)
    else if kind == TLV_ROUTE_REQUEST then ReadRouteRequest(t, st)
    else ReadSeqnoRequest(t, st)
  }

  // The messages of a sequence of TLVs, up to the first error.
  function Parse(s: seq<byte>, st: ParseState): seq<Msg>
    decreases |s|
  {
    if s == [] then []
    else if s[0] == TLV_PAD1 then Parse(s[1..], st)
    else if |s| < 2 || 2 + s[1] > |s| then []
    else
      match ReadTlv(s[..2 + s[1]], st)
      case Success(m, st') => [m] + Parse(s[2 + s[1]..], st')
      case Ignore(st') => Parse(s[2 + s[1]..], st')
      case Error => []
  }

  /* ---------- One message over the wire ---------- */

  predicate GoodTime(v: u16) {
    1 <= v <= 655
  }

  // Prefixes have no bits set past their length; here it is enough that no bytes are.
  predicate GoodPrefix(plen: byte, prefix: Ip6) {
    plen <= 128 && prefix[Bytes(plen)..] == ZERO[Bytes(plen)..]
  }

  // Messages that the protocol writes and that have a reader.
  predicate WellFormed(m: Msg) {
    match m
    case Hello(_, interval) => GoodTime(interval)
    case Ihu(_, addr, _, interval) => GoodTime(interval) && (LinkLocal(addr) ==> addr == LinkLocalAddr(addr[8..]))
    case Update(wildcard, plen, prefix, _, _, _, interval, _) =>
      GoodTime(interval) && GoodPrefix(plen, prefix) && (wildcard ==> plen == 0)
    case RouteRequest(full, plen, prefix) => GoodPrefix(plen, prefix) && (full ==> plen == 0)
    case SeqnoRequest(plen, prefix, _, _, hopCount) => GoodPrefix(plen, prefix) && hopCount > 0
    case _ => false
  }

  // What the receiver makes of a message: an address that is not link-local is not sent, the next
  // hop is the sender, and retractions carry no router-id.
  predicate Delivered(m: Msg, r: Msg, saddr: Ip6) {
    match m
    case Ihu(_, addr, rxcost, interval) =>
      r == if LinkLocal(addr) then Ihu(AE_IP6_LL, addr, rxcost, interval) else Ihu(AE_WILDCARD, ZERO, rxcost, interval)
    case Update(_, _, _, rid, _, metric, _, _) =>
      r.Update? && r == m.(rid := r.rid, nextHop := saddr) && (metric < INFINITY ==> r.rid == rid)
    case _ => r == m
  }

  lemma TimeRound(t: seq<byte>, i: nat, v: u16)
    requires GoodTime(v) && i + 2 <= |t| && t[i..i + 2] == PutTime(v)
    ensures GetTime(t, i) == v
  {
    assert t[i] == t[i..i + 2][0] && t[i + 1] == t[i..i + 2][1];
  }

  lemma PrefixRound(t: seq<byte>, i: nat, plen: byte, prefix: Ip6)
    requires GoodPrefix(plen, prefix) && |t| == i + Bytes(plen) && t[i..] == prefix[..Bytes(plen)]
    ensures t[i..i + Bytes(plen)] == prefix[..Bytes(plen)] && GetPrefix(t[i..i + Bytes(plen)]) == prefix
  {
    assert prefix == prefix[..Bytes(plen)] + prefix[Bytes(plen)..];
  }

  lemma ReadHelloBody(m: Msg, st: ParseState)
    requires m.Hello? && WellFormed(m)
    ensures ReadTlv(Body(m), st) == Success(m, st)
  {
    var t := Body(m);
    assert t[6..8] == PutTime(m.interval);
    TimeRound(t, 6, m.interval);
  }

  lemma ReadIhuBody(m: Msg, st: ParseState)
    requires m.Ihu? && WellFormed(m)
    ensures ReadTlv(Body(m), st) == Success(if LinkLocal(m.addr) then Ihu(AE_IP6_LL, m.addr, m.rxcost, m.interval)
                                            else Ihu(AE_WILDCARD, ZERO, m.rxcost, m.interval), st)
  {
    var t := Body(m);
    assert t[6..8] == PutTime(m.interval);
    TimeRound(t, 6, m.interval);
    if LinkLocal(m.addr) {
      assert t[8..16] == m.addr[8..];
    }
  }

  lemma UpdateLayout(m: Msg, t: seq<byte>, b: nat)
    requires m.Update? && WellFormed(m) && t == Body(m) && b == Bytes(m.plen)
    ensures |t| == 12 + b && t[12..] == m.prefix[..b] && t[6..8] == PutTime(m.interval)
    ensures t[0] == TLV_UPDATE && t[2] == (if m.wildcard then AE_WILDCARD else AE_IP6) && t[3] == 0 && t[4] == m.plen && t[5] == 0
    ensures Get16(t, 8) == m.seqno && Get16(t, 10) == m.metric
  {
    var head := [TLV_UPDATE, 10 + b, if m.wildcard then AE_WILDCARD else AE_IP6, 0, if m.wildcard then 0 else m.plen, 0] +
      PutTime(m.interval) + Put16(m.seqno) + Put16(m.metric);
    assert t == head + m.prefix[..b];
  }

  lemma UpdateFields(m: Msg, t: seq<byte>)
    requires m.Update? && WellFormed(m) && t == Body(m)
    ensures |t| == 12 + Bytes(m.plen) && t[0] == TLV_UPDATE && t[2] == (if m.wildcard then AE_WILDCARD else AE_IP6)
    ensures t[3] == 0 && t[4] == m.plen && t[5] == 0 && Bytes(m.plen) <= 16
    ensures Get16(t, 8) == m.seqno && Get16(t, 10) == m.metric && GetTime(t, 6) == m.interval
    ensures GetPrefix(t[12..12 + Bytes(m.plen)]) == m.prefix
  {
    UpdateLayout(m, t, Bytes(m.plen));
    hide Body, GetPrefix, Put16, PutTime, GetTime, Get16;
    TimeRound(t, 6, m.interval);
    PrefixRound(t, 12, m.plen, m.prefix);
  }

  lemma NoFlags(prefix: Ip6, st: ParseState)
    ensures ReadFlags(0, prefix, st) == st
  {
  }

  // An update without flags and omitted bytes.
  lemma PlainUpdate(t: seq<byte>, plen: byte, prefix: Ip6, wildcard: bool, st: ParseState)
    requires |t| == 12 + Bytes(plen) && plen <= 128 && (wildcard ==> plen == 0 && prefix == ZERO)
    requires t[2] == (if wildcard then AE_WILDCARD else AE_IP6) && t[3] == 0 && t[4] == plen && t[5] == 0
    requires GetPrefix(t[12..12 + Bytes(plen)]) == prefix && (st.ridSeen || Get16(t, 10) == INFINITY)
    ensures ReadUpdate(t, st) ==
      Success(Update(wildcard, plen, prefix, st.rid, Get16(t, 8), Get16(t, 10), GetTime(t, 6), st.nextHop), st)
  {
    hide GetPrefix, Get16, GetTime, ReadFlags;
    NoFlags(prefix, st);
    assert st.prefix[..0] + t[12..12 + Bytes(plen)] == t[12..12 + Bytes(plen)];
  }

  lemma ReadUpdateBody(m: Msg, st: ParseState)
    requires m.Update? && WellFormed(m) && (m.metric < INFINITY ==> st.ridSeen && st.rid == m.rid)
    ensures ReadTlv(Body(m), st) == Success(m.(rid := st.rid, nextHop := st.nextHop), st)
  {
    hide Body, GetPrefix, Put16, PutTime, ReadUpdate, GetTime, Get16, Bytes, GoodPrefix, GoodTime;
    WellFormedWritable(m);
    var t := Body(m);
    UpdateFields(m, t);
    ZeroPrefix(m.plen, m.prefix);
    PlainUpdate(t, m.plen, m.prefix, m.wildcard, st);
  }

  lemma ZeroPrefix(plen: byte, prefix: Ip6)
    requires GoodPrefix(plen, prefix)
    ensures plen == 0 ==> prefix == ZERO
  {
    if plen == 0 {
      assert prefix == prefix[0..] && ZERO == ZERO[0..];
    }
  }

  lemma RouteRequestLayout(m: Msg, t: seq<byte>, b: nat)
    requires m.RouteRequest? && WellFormed(m) && t == Body(m) && b == Bytes(m.plen)
    ensures |t| == 4 + b && t[4..] == m.prefix[..b]
    ensures t[0] == TLV_ROUTE_REQUEST && t[2] == (if m.full then AE_WILDCARD else AE_IP6) && t[3] == m.plen
  {
  }

  lemma RouteRequestFields(m: Msg, t: seq<byte>)
    requires m.RouteRequest? && WellFormed(m) && t == Body(m)
    ensures |t| == 4 + Bytes(m.plen) && t[0] == TLV_ROUTE_REQUEST && t[2] == (if m.full then AE_WILDCARD else AE_IP6)
    ensures t[3] == m.plen && Bytes(m.plen) <= 16 && GetPrefix(t[4..4 + Bytes(m.plen)]) == m.prefix
  {
    RouteRequestLayout(m, t, Bytes(m.plen));
    hide Body, GetPrefix;
    PrefixRound(t, 4, m.plen, m.prefix);
  }

  lemma ReadRouteRequestBody(m: Msg, st: ParseState)
    requires m.RouteRequest? && WellFormed(m)
    ensures ReadTlv(Body(m), st) == Success(m, st)
  {
    hide Body, GetPrefix, Bytes;
    WellFormedWritable(m);
    RouteRequestFields(m, Body(m));
    ZeroPrefix(m.plen, m.prefix);
    hide GoodPrefix;
  }

  lemma SeqnoRequestLayout(m: Msg, t: seq<byte>, b: nat)
    requires m.SeqnoRequest? && WellFormed(m) && t == Body(m) && b == Bytes(m.plen)
    ensures |t| == 16 + b && t[16..] == m.prefix[..b] && t[8..16] == Put64(m.rid)
    ensures t[0] == TLV_SEQNO_REQUEST && t[2] == AE_IP6 && t[3] == m.plen && Get16(t, 4) == m.seqno && t[6] == m.hopCount
  {
    hide Put64, GetPrefix;
    var head := [TLV_SEQNO_REQUEST, 14 + b, AE_IP6, m.plen] + Put16(m.seqno) + [m.hopCount, 0];
    assert t == head + Put64(m.rid) + m.prefix[..b];
  }

  lemma SeqnoRequestFields(m: Msg, t: seq<byte>)
    requires m.SeqnoRequest? && WellFormed(m) && t == Body(m)
    ensures |t| == 16 + Bytes(m.plen) && t[0] == TLV_SEQNO_REQUEST && t[2] == AE_IP6 && t[3] == m.plen && m.plen <= 128
    ensures Get16(t, 4) == m.seqno && t[6] == m.hopCount > 0 && Get64(t, 8) == m.rid && Bytes(m.plen) <= 16
    ensures GetPrefix(t[16..16 + Bytes(m.plen)]) == m.prefix
  {
    SeqnoRequestLayout(m, t, Bytes(m.plen));
    hide Body, Put64, GetPrefix, Get16, Put16;
    PrefixRound(t, 16, m.plen, m.prefix);
  }

  lemma ReadSeqnoRequestBody(m: Msg, st: ParseState)
    requires m.SeqnoRequest? && WellFormed(m)
    ensures ReadTlv(Body(m), st) == Success(m, st)
  {
    hide Body, GetPrefix, Bytes, Get16, Get64, WellFormed, GoodPrefix;
    WellFormedWritable(m);
    SeqnoRequestFields(m, Body(m));
  }

  lemma ReadRouterId(rid: u64, st: ParseState)
    ensures ReadTlv(RouterIdTlv(rid), st) == Ignore(st.(rid := rid, ridSeen := true))
  {
    assert RouterIdTlv(rid)[4..12] == Put64(rid);
  }

  // A message whose router-id, if it needs one, is the current one is read as it was written.
  lemma ReadBody(m: Msg, st: ParseState) returns (r: Msg)
    requires WellFormed(m) && (m.Update? && m.metric < INFINITY ==> st.ridSeen && st.rid == m.rid) && st.nextHop == st.saddr
    ensures ReadTlv(Body(m), st) == Success(r, st) && Delivered(m, r, st.saddr)
  {
    hide ReadTlv, Body;
    match m
    case Hello(_, _) => ReadHelloBody(m, st); r := m;
    case Ihu(_, _, _, _) =>
      ReadIhuBody(m, st);
      r := if LinkLocal(m.addr) then Ihu(AE_IP6_LL, m.addr, m.rxcost, m.interval) else Ihu(AE_WILDCARD, ZERO, m.rxcost, m.interval);
    case Update(_, _, _, _, _, _, _, _) =>
      ReadUpdateBody(m, st);
      r := m.(rid := st.rid, nextHop := st.nextHop);
    case RouteRequest(_, _, _) => ReadRouteRequestBody(m, st); r := m;
    case SeqnoRequest(_, _, _, _, _) => ReadSeqnoRequestBody(m, st); r := m;
  }

  /* ---------- A queue over the wire ---------- */

  function EncodeAll(ms: seq<Msg>, st: WriteState): seq<byte>
    requires forall i :: 0 <= i < |ms| ==> Writable(ms[i])
  {
    if ms == [] then [] else Encode(ms[0], st) + EncodeAll(ms[1..], After(ms[0], st))
  }

  // The reader knows at least the writer's router-id.
  predicate Synced(w: WriteState, st: ParseState) {
    st.nextHop == st.saddr && (w.seen ==> st.ridSeen && st.rid == w.rid)
  }

  predicate AllDelivered(ms: seq<Msg>, rs: seq<Msg>, saddr: Ip6) {
    |ms| == |rs| && forall i :: 0 <= i < |ms| ==> Delivered(ms[i], rs[i], saddr)
  }

  lemma ParseTlv(t: seq<byte>, rest: seq<byte>, st: ParseState)
    requires |t| >= 2 && t[1] == |t| - 2 && t[0] != TLV_PAD1
    ensures ReadTlv(t, st).Success? ==> Parse(t + rest, st) == [ReadTlv(t, st).msg] + Parse(rest, ReadTlv(t, st).state)
    ensures ReadTlv(t, st).Ignore? ==> Parse(t + rest, st) == Parse(rest, ReadTlv(t, st).state)
  {
    hide ReadTlv;
    var s := t + rest;
    assert s[0] == t[0] && s[1] == t[1] && s[..|t|] == t && s[|t|..] == rest;
  }

  lemma WellFormedWritable(m: Msg)
    requires WellFormed(m)
    ensures Writable(m) && !m.AckReq?
  {
  }

  lemma ParseOne(m: Msg, rest: seq<byte>, w: WriteState, st: ParseState) returns (r: Msg, st': ParseState)
    requires WellFormed(m) && Writable(m) && Synced(w, st)
    ensures Parse(Encode(m, w) + rest, st) == [r] + Parse(rest, st') && Delivered(m, r, st.saddr)
    ensures Synced(After(m, w), st') && st'.saddr == st.saddr
  {
    hide ReadTlv, Body, Parse, WellFormed, Delivered, RouterIdTlv;
    st' := st;
    BodyLength(m);
    if NeedsId(m, w) {
      ReadRouterId(m.rid, st);
      RouterIdLength(m.rid);
      ParseTlv(RouterIdTlv(m.rid), Body(m) + rest, st);
      assert RouterIdTlv(m.rid) + Body(m) + rest == RouterIdTlv(m.rid) + (Body(m) + rest);
      st' := st.(rid := m.rid, ridSeen := true);
    }
    r := ReadBody(m, st');
    ParseTlv(Body(m), rest, st');
  }

  lemma RouterIdLength(rid: u64)
    ensures |RouterIdTlv(rid)| == 12 && RouterIdTlv(rid)[1] == 10 && RouterIdTlv(rid)[0] == TLV_ROUTER_ID
  {
  }

  // A packet's TLVs are read as the messages they were written from.
  lemma {:induction false} ParseEncoded(ms: seq<Msg>, w: WriteState, st: ParseState)
    requires Synced(w, st) && forall i :: 0 <= i < |ms| ==> WellFormed(ms[i]) && Writable(ms[i])
    ensures AllDelivered(ms, Parse(EncodeAll(ms, w), st), st.saddr)
  {
    hide WellFormed, Writable, Encode, Delivered;
    if ms != [] {
      var r, st' := ParseOne(ms[0], EncodeAll(ms[1..], After(ms[0], w)), w, st);
      ParseEncoded(ms[1..], After(ms[0], w), st');
    }
  }

  /* ---------- Packets ---------- */

  const MAGIC: byte := 42
  const VERSION: byte := 2
  const HEADER := 4
  // the longest TLVs, with the router-id TLV before an update
  const LONGEST := 40

  // Messages with a writer and the prefix lengths that fit.
  function KindOf(m: Msg): (k: byte)
    ensures TLV_PADN < k < TLV_MAX
  {
    match m
    case AckReq(_, _) => TLV_ACK_REQ
    case Ack(_) => TLV_ACK
    case Hello(_, _) => TLV_HELLO
    case Ihu(_, _, _, _) => TLV_IHU
    case Update(_, _, _, _, _, _, _, _) => TLV_UPDATE
    case RouteRequest(_, _, _) => TLV_ROUTE_REQUEST
    case SeqnoRequest(_, _, _, _, _) => TLV_SEQNO_REQUEST
  }

  lemma Lengths(m: Msg, st: WriteState)
    requires Writable(m)
    ensures |Body(m)| == MinLength(KindOf(m)) +
      if m.Ihu? then (if LinkLocal(m.addr) then 8 else 0) else if m.Update? || m.RouteRequest? || m.SeqnoRequest? then Bytes(m.plen) else 0
    ensures |Encode(m, st)| == (if NeedsId(m, st) then 12 else 0) + |Body(m)| <= LONGEST
  {
    hide Put64;
  }

  // babel_write_tlv: nothing is written when the message does not fit
  method WriteTlv(m: Msg, st0: WriteState, maxLen: nat) returns (out: seq<byte>, st: WriteState)
    requires Writable(m)
    ensures |Encode(m, st0)| <= maxLen ==> out == Encode(m, st0) && st == After(m, st0)
    ensures |Encode(m, st0)| > maxLen ==> out == []
  {
    hide Body, RouterIdTlv;
    out, st := [], st0;
    Lengths(m, st0);
    if MinLength(KindOf(m)) > maxLen {
      return;
    }
    if m.Update? {
      // a finite update goes with its router-id, unless that is the current one
      if m.metric < INFINITY && (!st.seen || m.rid != st.rid) {
        out := RouterIdTlv(m.rid);
        RouterIdLength(m.rid);
        st := WriteState(m.rid, true);
      }
      if |out| + 12 + Bytes(m.plen) > maxLen {
        return [], st;
      }
    } else if m.RouteRequest? {
      if 4 + Bytes(m.plen) > maxLen {
        return;
      }
    } else if m.SeqnoRequest? {
      if 16 + Bytes(m.plen) > maxLen {
        return;
      }
    } else if m.Ihu? && LinkLocal(m.addr) {
      if maxLen < 16 {
        return;
      }
    }
    out := out + Body(m);
  }

  function StateAfter(ms: seq<Msg>, st: WriteState): WriteState {
    if ms == [] then st else StateAfter(ms[1..], After(ms[0], st))
  }

  predicate AllWritable(ms: seq<Msg>) {
    forall i :: 0 <= i < |ms| ==> Writable(ms[i])
  }

  lemma {:induction false} EncodeMore(ms: seq<Msg>, m: Msg, st: WriteState)
    requires AllWritable(ms) && Writable(m)
    ensures AllWritable(ms + [m]) && EncodeAll(ms + [m], st) == EncodeAll(ms, st) + Encode(m, StateAfter(ms, st))
    ensures StateAfter(ms + [m], st) == After(m, StateAfter(ms, st))
  {
    hide Encode, After, Writable;
    if ms == [] {
      assert ms + [m] == [m] && [m][1..] == [];
    } else {
      EncodeMore(ms[1..], m, After(ms[0], st));
      assert (ms + [m])[0] == ms[0] && (ms + [m])[1..] == ms[1..] + [m];
    }
  }

  const START: WriteState := WriteState(0, false)

  function Packet(payload: seq<byte>): seq<byte>
    requires |payload| < 0x10000
  {
    [MAGIC, VERSION] + Put16(|payload|) + payload
  }

  // babel_write_queue: one packet with as many messages as fit; the number of them is returned
  method WriteQueue(queue: seq<Msg>, txLength: nat) returns (pkt: seq<byte>, n: nat)
    requires AllWritable(queue) && queue != [] && HEADER + LONGEST <= txLength < 0x10000
    ensures 0 < n <= |queue| && |EncodeAll(queue[..n], START)| < 0x10000 && pkt == Packet(EncodeAll(queue[..n], START))
    ensures |pkt| <= txLength
    ensures n < |queue| ==> |pkt| + |Encode(queue[n], StateAfter(queue[..n], START))| > txLength
  {
    hide EncodeAll, StateAfter, Writable, Encode, After;
    var payload, st := [], START;
    n := 0;
    NothingEncoded();
    assert queue[..0] == [];
    while n < |queue|
      invariant n <= |queue| && payload == EncodeAll(queue[..n], START) && st == StateAfter(queue[..n], START)
      invariant HEADER + |payload| <= txLength && (n == 0 ==> payload == [])
    {
      Lengths(queue[n], st);
      EncodedSome(queue[n], st);
      if HEADER + |payload| >= txLength {
        break;
      }
      var out, next := WriteTlv(queue[n], st, txLength - HEADER - |payload|);
      if out == [] {
        break;
      }
      EncodeMore(queue[..n], queue[n], START);
      assert queue[..n] + [queue[n]] == queue[..n + 1];
      payload, st := payload + out, next;
      n := n + 1;
    }
    pkt := [MAGIC, VERSION] + Put16(|payload|) + payload;
  }

  lemma NothingEncoded()
    ensures EncodeAll([], START) == [] && StateAfter([], START) == START
  {
  }

  lemma EncodedSome(m: Msg, st: WriteState)
    requires Writable(m) && !m.AckReq?
    ensures Encode(m, st) != []
  {
    BodyLength(m);
    hide Body;
  }

  function Fresh(saddr: Ip6): ParseState {
    ParseState(saddr, saddr, 0, false, ZERO, false)
  }

  // The messages of a packet.
  function Received(pkt: seq<byte>, saddr: Ip6): seq<Msg>
    requires |pkt| >= HEADER
  {
    var plen := HEADER + Get16(pkt, 2);
    if pkt[0] != MAGIC || pkt[1] != VERSION || plen > |pkt| then [] else Parse(pkt[HEADER..plen], Fresh(saddr))
  }

  // The length that a packet claims, with its header.
  function Claimed(pkt: seq<byte>): nat
    requires |pkt| >= 4
  {
    var hi: nat, lo: nat := pkt[2], pkt[3];
    4 + hi * 0x100 + lo
  }

  // Packets of another protocol or version, or shorter than they claim, carry nothing; bytes after
  // the claimed length do not matter.
  lemma PacketHeader(pkt: seq<byte>, more: seq<byte>, saddr: Ip6)
    requires |pkt| >= 4
    ensures pkt[0] != 42 || pkt[1] != 2 || Claimed(pkt) > |pkt| ==> Received(pkt, saddr) == []
    ensures Claimed(pkt) <= |pkt| ==> Received(pkt + more, saddr) == Received(pkt, saddr)
  {
    hide Parse;
    assert Claimed(pkt) <= |pkt| ==> (pkt + more)[4..Claimed(pkt)] == pkt[4..Claimed(pkt)];
  }

  // babel_process_packet up to the handlers
  method ProcessPacket(pkt: seq<byte>, saddr: Ip6) returns (msgs: seq<Msg>)
    requires |pkt| >= HEADER
    ensures msgs == Received(pkt, saddr)
  {
    hide ReadTlv, Parse;
    msgs := [];
    var end := HEADER + Get16(pkt, 2);
    if pkt[0] != MAGIC || pkt[1] != VERSION || end > |pkt| {
      return;
    }
    var st, pos := Fresh(saddr), HEADER;
    while pos < end
      invariant HEADER <= pos <= end <= |pkt| && msgs + Parse(pkt[pos..end], st) == Parse(pkt[HEADER..end], Fresh(saddr))
    {
      ParseAt(pkt, pos, end, st);
      assert msgs + [] == msgs;
      if pkt[pos] == TLV_PAD1 {
        pos := pos + 1;
      } else {
        if pos + 2 > end || pos + 2 + pkt[pos + 1] > end {
          // framing error
          return;
        }
        var next := pos + 2 + pkt[pos + 1];
        var res := ReadTlv(pkt[pos..next], st);
        if res.Error? {
          return;
        }
        if res.Success? {
          ReadMore(msgs, res.msg, Parse(pkt[next..end], res.state));
          msgs := msgs + [res.msg];
        }
        st, pos := res.state, next;
      }
    }
    NothingLeft(st);
    assert pkt[pos..end] == [] && msgs + [] == msgs;
  }

  lemma NothingLeft(st: ParseState)
    ensures Parse([], st) == []
  {
  }

  // The definition of Parse at a place of a packet.
  lemma ParseAt(pkt: seq<byte>, pos: nat, end: nat, st: ParseState)
    requires pos < end <= |pkt|
    ensures pkt[pos] == TLV_PAD1 ==> Parse(pkt[pos..end], st) == Parse(pkt[pos + 1..end], st)
    ensures pkt[pos] != TLV_PAD1 && (pos + 2 > end || pos + 2 + pkt[pos + 1] > end) ==> Parse(pkt[pos..end], st) == []
    ensures pkt[pos] != TLV_PAD1 && pos + 2 <= end && pos + 2 + pkt[pos + 1] <= end ==>
      var next := pos + 2 + pkt[pos + 1];
      Parse(pkt[pos..end], st) ==
        match ReadTlv(pkt[pos..next], st)
        case Success(m, st') => [m] + Parse(pkt[next..end], st')
        case Ignore(st') => Parse(pkt[next..end], st')
        case Error => []
  {
    hide ReadTlv;
    var rest := pkt[pos..end];
    assert rest[0] == pkt[pos] && rest[1..] == pkt[pos + 1..end];
    if pos + 2 <= end && pos + 2 + pkt[pos + 1] <= end {
      var next := pos + 2 + pkt[pos + 1];
      assert rest[1] == pkt[pos + 1] && rest[..next - pos] == pkt[pos..next] && rest[next - pos..] == pkt[next..end];
    }
  }

  lemma ReadMore(a: seq<Msg>, m: Msg, b: seq<Msg>)
    ensures a + ([m] + b) == (a + [m]) + b
  {
  }

  lemma PacketReceived(payload: seq<byte>, saddr: Ip6)
    requires |payload| < 0x10000
    ensures |Packet(payload)| >= HEADER && Received(Packet(payload), saddr) == Parse(payload, Fresh(saddr))
  {
    hide Parse;
    assert Packet(payload)[HEADER..HEADER + |payload|] == payload;
  }

  function AllReceived(pkts: seq<seq<byte>>, saddr: Ip6): seq<Msg>
    requires forall i :: 0 <= i < |pkts| ==> |pkts[i]| >= HEADER
  {
    if pkts == [] then [] else AllReceived(pkts[..|pkts| - 1], saddr) + Received(pkts[|pkts| - 1], saddr)
  }

  // babel_send_queue, with all packets sent: what the receiver parses is the queue, in order,
  // nothing lost and nothing twice
  method SendQueue(queue: seq<Msg>, txLength: nat, ghost saddr: Ip6) returns (pkts: seq<seq<byte>>)
    requires HEADER + LONGEST <= txLength < 0x10000 && forall i :: 0 <= i < |queue| ==> WellFormed(queue[i])
    ensures forall i :: 0 <= i < |pkts| ==> HEADER <= |pkts[i]| <= txLength
    ensures AllDelivered(queue, AllReceived(pkts, saddr), saddr)
  {
    NothingYet(saddr);
    hide WellFormed, Writable, Received, EncodeAll, Packet, Delivered, AllDelivered, Synced, Parse;
    forall i | 0 <= i < |queue| ensures Writable(queue[i]) {
      WellFormedWritable(queue[i]);
    }
    pkts := [];
    var done := 0;
    while done < |queue|
      invariant done <= |queue| && forall i :: 0 <= i < |pkts| ==> HEADER <= |pkts[i]| <= txLength
      invariant AllDelivered(queue[..done], AllReceived(pkts, saddr), saddr)
    {
      var pkt, n := WriteQueue(queue[done..], txLength);
      OnePacket(queue, done, n, pkts, pkt, saddr);
      pkts := pkts + [pkt];
      done := done + n;
    }
    assert queue[..done] == queue;
  }

  lemma NothingYet(saddr: Ip6)
    ensures AllDelivered([], [], saddr) && Synced(START, Fresh(saddr))
  {
  }

  // One packet more carries the next n messages.
  lemma OnePacket(queue: seq<Msg>, done: nat, n: nat, pkts: seq<seq<byte>>, pkt: seq<byte>, saddr: Ip6)
    requires done + n <= |queue| && forall i :: 0 <= i < |queue| ==> WellFormed(queue[i]) && Writable(queue[i])
    requires |EncodeAll(queue[done..][..n], START)| < 0x10000 && pkt == Packet(EncodeAll(queue[done..][..n], START))
    requires forall i :: 0 <= i < |pkts| ==> |pkts[i]| >= HEADER
    requires AllDelivered(queue[..done], AllReceived(pkts, saddr), saddr)
    ensures |pkt| >= HEADER && AllDelivered(queue[..done + n], AllReceived(pkts + [pkt], saddr), saddr)
  {
    NothingYet(saddr);
    hide WellFormed, Writable, Received, EncodeAll, Packet, Delivered, AllDelivered, Synced, Parse;
    var chunk := queue[done..][..n];
    PacketReceived(EncodeAll(chunk, START), saddr);
    ParseEncoded(chunk, START, Fresh(saddr));
    Joined(queue[..done], chunk, AllReceived(pkts, saddr), Received(pkt, saddr), saddr);
    assert queue[..done] + chunk == queue[..done + n];
    assert (pkts + [pkt])[..|pkts|] == pkts;
  }

  lemma Joined(a: seq<Msg>, b: seq<Msg>, ra: seq<Msg>, rb: seq<Msg>, saddr: Ip6)
    requires AllDelivered(a, ra, saddr) && AllDelivered(b, rb, saddr)
    ensures AllDelivered(a + b, ra + rb, saddr)
  {
    hide Delivered;
  }
}
