/** IPv4 headers on the wire. */
module Ipv4Wire {
  import opened Bytes
  import opened TcpWire

  const IP_HEADER: nat := 20

  datatype Protocol = Icmp | Tcp | Udp

  datatype Ipv4Header = Ipv4Header(dscp: byte, ecn: byte, identification: word, flags: byte, fragment: word,
                                   ttl: byte, protocol: Protocol, src: long, dst: long)

  function Code(p: Protocol): byte {
    match p case Icmp => 1 case Tcp => 6 case Udp => 17
  }

  function ProtocolOf(b: byte): Parsed<Protocol> {
    if b == 1 then Good(Icmp) else if b == 6 then Good(Tcp) else if b == 17 then Good(Udp) else Bad(Unsupported)
  }

  /** Flags and fragment offset share one word; what does not fit is cut off. */
  function FragmentWord(h: Ipv4Header): word {
    h.flags % 8 * 8192 + h.fragment % 8192
  }

  /**
   * The twenty bytes of a header in front of `length` bytes. Nothing writes the checksum field: it
   * keeps the two bytes `c0` and `c1` that were in the buffer.
   */
  function Ipv4Bytes(h: Ipv4Header, length: nat, c0: byte, c1: byte): (r: seq<byte>)
    ensures |r| == IP_HEADER
  {
    [0x45, h.dscp % 64 * 4 + h.ecn % 4, Hi16(IP_HEADER + length), Lo8(IP_HEADER + length),
     Hi16(h.identification), Lo8(h.identification), Hi16(FragmentWord(h)), Lo8(FragmentWord(h)),
     h.ttl, Code(h.protocol), c0, c1,
     Byte3(h.src), Byte2(h.src), Hi16(h.src), Lo8(h.src), Byte3(h.dst), Byte2(h.dst), Hi16(h.dst), Lo8(h.dst)]
  }

  function FieldsOf(b: seq<byte>, p: Protocol): Ipv4Header
    requires |b| >= IP_HEADER
  {
    Ipv4Header(b[1] / 4, b[1] % 4, Get16(b[4], b[5]), Get16(b[6], b[7]) / 8192, Get16(b[6], b[7]) % 8192, b[8], p,
               Get32(b[12], b[13], b[14], b[15]), Get32(b[16], b[17], b[18], b[19]))
  }

  /** The parser: it trusts the total length, drops padding behind it, and only refuses the checksum 0xffff. */
  function Parse(b: seq<byte>): Parsed<(Ipv4Header, seq<byte>)> {
    if |b| < IP_HEADER then Bad(Malformed)
    else if b[0] / 16 != 4 then Bad(Unsupported)
    else if b[0] % 16 < 5 then Bad(Malformed)
    else if b[0] % 16 > 5 then Bad(Unsupported)
    else
      var total := Get16(b[2], b[3]);
      if total < IP_HEADER then Bad(Malformed)
      else if total > |b| then Bad(Malformed)
      else if Get16(b[6], b[7]) % 8192 != 0 then Bad(Unsupported)
      else
        match ProtocolOf(b[9])
        case Bad(f) => Bad(f)
        case Good(p) =>
          if Get16(b[10], b[11]) == 0xffff then Bad(Malformed)
          else Good((FieldsOf(b, p), b[IP_HEADER..total]))
  }

  // Where everything lies (section 3.1 of RFC 791)

  /** A header without options in front of `length` bytes; all but the checksum, which nobody writes. */
  predicate HeaderAt(b: seq<byte>, at: nat, h: Ipv4Header, length: nat) {
    && at + IP_HEADER <= |b|
    && b[at] == 0x45 && b[at + 1] / 4 == h.dscp % 64 && b[at + 1] % 4 == h.ecn % 4
    && WordIs(b, at + 2, (20 + length) % 0x1_0000) && WordIs(b, at + 4, h.identification)
    && WordIs(b, at + 6, h.flags % 8 * 0x2000 + h.fragment % 0x2000)
    && b[at + 8] == h.ttl && b[at + 9] == (match h.protocol case Icmp => 1 case Tcp => 6 case Udp => 17)
    && LongIs(b, at + 12, h.src) && LongIs(b, at + 16, h.dst)
  }

  /** What the bytes of a datagram say: a whole one, with any padding behind it. */
  predicate DatagramMeans(b: seq<byte>, h: Ipv4Header, payload: seq<byte>) {
    && h.dscp < 64 && h.ecn < 4 && h.flags < 8 && h.fragment == 0
    && IP_HEADER + |payload| < 0x1_0000 && Holds(b, IP_HEADER, payload)
    && HeaderAt(b, 0, h, |payload|) && !WordIs(b, 10, 0xffff)
  }

  lemma HeaderMeans(b: seq<byte>, h: Ipv4Header, length: nat)
    requires |b| >= IP_HEADER && h.dscp < 64 && h.ecn < 4 && h.flags < 8 && h.fragment == 0
    requires IP_HEADER + length < 0x1_0000
    ensures HeaderAt(b, 0, h, length) <==>
            && b[0] / 16 == 4 && b[0] % 16 == 5 && Get16(b[2], b[3]) == IP_HEADER + length
            && ProtocolOf(b[9]) == Good(h.protocol) && FieldsOf(b, h.protocol) == h
  {
    hide Get16, Get32, WordIs, LongIs;
    GetIs(b, 2, IP_HEADER + length);
    GetIs(b, 4, h.identification);
    GetIs(b, 6, h.flags * 0x2000);
    GetIs(b, 12, h.src);
    GetIs(b, 16, h.dst);
    var w := Get16(b[6], b[7]);
    assert w == h.flags * 0x2000 <==> w / 8192 == h.flags && w % 8192 == 0;
  }

  /** The parser accepts a datagram exactly if its bytes say something, and then says that. */
  lemma ParseExactly(b: seq<byte>, h: Ipv4Header, payload: seq<byte>)
    ensures Parse(b) == Good((h, payload)) <==> DatagramMeans(b, h, payload)
  {
    hide Get16, Get32, WordIs, LongIs, HeaderAt, ProtocolOf, FieldsOf;
    if |b| >= IP_HEADER {
      GetIs(b, 10, 0xffff);
      FieldsFit(b, h);
      if h.dscp < 64 && h.ecn < 4 && h.flags < 8 && h.fragment == 0 && IP_HEADER + |payload| < 0x1_0000 {
        HeaderMeans(b, h, |payload|);
      }
      var total := Get16(b[2], b[3]);
      if IP_HEADER <= total <= |b| { assert |b[IP_HEADER..total]| == total - IP_HEADER; }
    }
  }

  lemma FieldsFit(b: seq<byte>, h: Ipv4Header)
    requires |b| >= IP_HEADER
    ensures FieldsOf(b, h.protocol) == h ==>
              h.dscp < 64 && h.ecn < 4 && h.flags < 8 && h.fragment == Get16(b[6], b[7]) % 8192
    ensures forall p :: FieldsOf(b, p) == h ==> p == h.protocol
  {
    hide Get32;
  }

  lemma HeaderWritten(h: Ipv4Header, length: nat, c0: byte, c1: byte)
    ensures HeaderAt(Ipv4Bytes(h, length, c0, c1), 0, h, length)
  {
    hide Get16, Get32, Byte3, Byte2, Hi16, Lo8, WordIs, LongIs;
    var b := Ipv4Bytes(h, length, c0, c1);
    RoundTrip16(IP_HEADER + length);
    RoundTrip16(h.identification);
    RoundTrip16(FragmentWord(h));
    RoundTrip32(h.src);
    RoundTrip32(h.dst);
    GetIs(b, 2, (IP_HEADER + length) % 0x1_0000);
    GetIs(b, 4, h.identification);
    GetIs(b, 6, FragmentWord(h));
    GetIs(b, 12, h.src);
    GetIs(b, 16, h.dst);
  }

  lemma HeaderMoves(a: seq<byte>, b: seq<byte>, d: nat, h: Ipv4Header, length: nat)
    requires Holds(b, d, a) && HeaderAt(a, 0, h, length)
    ensures HeaderAt(b, d, h, length)
  {
    hide WordIs, LongIs;
    forall i: nat | i < |a| ensures b[d + i] == a[i] { assert b[d..d + |a|][i] == a[i]; }
    NumberMoves(a, b, d, 2, (20 + length) % 0x1_0000);
    NumberMoves(a, b, d, 4, h.identification);
    NumberMoves(a, b, d, 6, h.flags % 8 * 0x2000 + h.fragment % 0x2000);
    NumberMoves(a, b, d, 12, h.src);
    NumberMoves(a, b, d, 16, h.dst);
  }

  /** What a written header must satisfy to come back unchanged. */
  predicate Carried(h: Ipv4Header, length: nat, c0: byte, c1: byte) {
    && h.dscp < 64 && h.ecn < 4 && h.flags < 8 && h.fragment == 0 && IP_HEADER + length < 0x1_0000
    && !(c0 == 255 && c1 == 255)
  }

  lemma FieldsRoundTrip(h: Ipv4Header, length: nat, c0: byte, c1: byte, tail: seq<byte>)
    ensures var b := Ipv4Bytes(h, length, c0, c1) + tail;
            && b[0] == 0x45 && ProtocolOf(b[9]) == Good(h.protocol)
            && Get16(b[2], b[3]) == (IP_HEADER + length) % 0x1_0000
            && Get16(b[6], b[7]) == FragmentWord(h)
            && b[10] == c0 && b[11] == c1
            && FieldsOf(b, h.protocol) == Ipv4Header(h.dscp % 64, h.ecn % 4, h.identification, h.flags % 8,
                                                     h.fragment % 8192, h.ttl, h.protocol, h.src, h.dst)
  {
    hide Get16, Get32, Byte3, Byte2, Hi16, Lo8, FragmentWord;
    RoundTrip16(IP_HEADER + length);
    RoundTrip16(h.identification);
    RoundTrip16(FragmentWord(h));
    RoundTrip32(h.src);
    RoundTrip32(h.dst);
    FragmentParts(h);
  }

  lemma FragmentParts(h: Ipv4Header)
    ensures FragmentWord(h) / 8192 == h.flags % 8 && FragmentWord(h) % 8192 == h.fragment % 8192
  {
  }

  lemma ChecksumField(c0: byte, c1: byte)
    ensures Get16(c0, c1) == 0xffff <==> c0 == 255 && c1 == 255
  {
  }

  /** What the parser makes of a written header, payload and padding. */
  lemma ParseWritten(h: Ipv4Header, c0: byte, c1: byte, payload: seq<byte>, padding: seq<byte>)
    ensures var r := Parse(Ipv4Bytes(h, |payload|, c0, c1) + payload + padding);
            var total := (IP_HEADER + |payload|) % 0x1_0000;
            && (Carried(h, |payload|, c0, c1) ==> r == Good((h, payload)))
            && (r.Good? ==>
                  && !(c0 == 255 && c1 == 255) && IP_HEADER <= total
                  && r.value.0.dscp < 64 && r.value.0.ecn < 4 && r.value.0.flags < 8 && r.value.0.fragment == 0
                  && |r.value.1| == total - IP_HEADER
                  && r.value.1 == (payload + padding)[..total - IP_HEADER])
  {
    hide Get16, Get32, Byte3, Byte2, Hi16, Lo8, Ipv4Bytes, FieldsOf, ProtocolOf;
    var head := Ipv4Bytes(h, |payload|, c0, c1);
    var b := head + (payload + padding);
    assert head + payload + padding == b;
    FieldsRoundTrip(h, |payload|, c0, c1, payload + padding);
    FragmentParts(h);
    ChecksumField(c0, c1);
    var total := (IP_HEADER + |payload|) % 0x1_0000;
    if IP_HEADER <= total <= |b| {
      assert b[IP_HEADER..total] == (payload + padding)[..total - IP_HEADER];
    }
    if Carried(h, |payload|, c0, c1) {
      assert (payload + padding)[..total - IP_HEADER] == payload;
    }
  }

  /** Writing and parsing are inverse exactly under those conditions, whatever padding the link adds. */
  lemma RoundTrip(h: Ipv4Header, c0: byte, c1: byte, payload: seq<byte>, padding: seq<byte>)
    ensures Parse(Ipv4Bytes(h, |payload|, c0, c1) + payload + padding) == Good((h, payload))
            <==> Carried(h, |payload|, c0, c1)
  {
    hide Parse, Ipv4Bytes;
    ParseWritten(h, c0, c1, payload, padding);
  }
}

/** Whole frames: Ethernet, IPv4 and TCP headers written into one buffer, and parsed back. */
module Frame {
  import opened Bytes
  import opened Common
  import opened TcpWire
  import Ipv4Wire
  import Checksum

  const ETH_HEADER: nat := 14

  datatype EtherType = Arp | Ipv4

  datatype EthHeader = EthHeader(dst: seq<byte>, src: seq<byte>, etherType: EtherType)

  predicate EthGood(h: EthHeader) {
    |h.dst| == 6 && |h.src| == 6
  }

  function TypeCode(t: EtherType): word {
    match t case Arp => 0x806 case Ipv4 => 0x800
  }

  function EthBytes(h: EthHeader): (r: seq<byte>)
    requires EthGood(h)
    ensures |r| == ETH_HEADER
  {
    h.dst + h.src + Put16(TypeCode(h.etherType))
  }

  function ParseEth(b: seq<byte>): Parsed<(EthHeader, seq<byte>)> {
    if |b| < ETH_HEADER then Bad(Malformed)
    else
      var code := Get16(b[12], b[13]);
      if code == 0x806 then Good((EthHeader(b[..6], b[6..12], Arp), b[ETH_HEADER..]))
      else if code == 0x800 then Good((EthHeader(b[..6], b[6..12], Ipv4), b[ETH_HEADER..]))
      else Bad(Unsupported)
  }

  /** Destination, source and type. */
  predicate EthAt(b: seq<byte>, at: nat, h: EthHeader) {
    && at + ETH_HEADER <= |b|
    && b[at..at + 6] == h.dst && b[at + 6..at + 12] == h.src
    && WordIs(b, at + 12, match h.etherType case Arp => 0x806 case Ipv4 => 0x800)
  }

  /** The parser accepts a frame exactly if it has a header of one of the two types, and strips it. */
  lemma ParseEthExactly(b: seq<byte>, h: EthHeader, rest: seq<byte>)
    ensures ParseEth(b) == Good((h, rest)) <==> EthAt(b, 0, h) && rest == b[ETH_HEADER..]
  {
    hide Get16, WordIs;
    if |b| >= ETH_HEADER { GetAt(b, 12, if h.etherType.Arp? then 0x806 else 0x800); }
  }

  lemma EthWritten(h: EthHeader)
    requires EthGood(h)
    ensures EthAt(EthBytes(h), 0, h)
  {
    hide ParseEth, EthBytes;
    EthRoundTrip(h, []);
    assert EthBytes(h) + [] == EthBytes(h);
    ParseEthExactly(EthBytes(h), h, []);
  }

  lemma EthRoundTrip(h: EthHeader, rest: seq<byte>)
    requires EthGood(h)
    ensures ParseEth(EthBytes(h) + rest) == Good((h, rest))
  {
    hide Get16, Hi16, Lo8;
    var b := EthBytes(h) + rest;
    assert b[..6] == h.dst && b[6..12] == h.src && b[ETH_HEADER..] == rest;
    RoundTrip16(TypeCode(h.etherType));
  }

  datatype Segment = Segment(eth: EthHeader, ip: Ipv4Wire.Ipv4Header, tcp: TcpHeader, data: seq<byte>, offload: bool)

  /** A segment as the stack builds it. */
  predicate SegmentGood(s: Segment) {
    EthGood(s.eth) && s.eth.etherType == Ipv4 && s.ip.protocol == Ipv4Wire.Tcp && WellTyped(s.tcp)
  }

  function TotalHeader(s: Segment): nat {
    ETH_HEADER + Ipv4Wire.IP_HEADER + HeaderSize(s.tcp.options)
  }

  function TcpBytes(s: Segment): (r: seq<byte>)
    ensures |r| == HeaderSize(s.tcp.options)
  {
    HeaderBytes(s.tcp, WrittenChecksum(s.tcp, s.ip.src, s.ip.dst, s.data, s.offload))
  }

  /** The three headers, with the two bytes the buffer held where the IPv4 checksum belongs. */
  function HeadersBytes(s: Segment, c0: byte, c1: byte): (r: seq<byte>)
    requires SegmentGood(s)
    ensures |r| == TotalHeader(s)
  {
    EthBytes(s.eth) + Ipv4Wire.Ipv4Bytes(s.ip, HeaderSize(s.tcp.options) + |s.data|, c0, c1) + TcpBytes(s)
  }

  /** The receiving path: each layer strips its header. */
  function ParseFrame(b: seq<byte>, offload: bool): Parsed<(EthHeader, Ipv4Wire.Ipv4Header, TcpHeader, seq<byte>)> {
    match ParseEth(b)
    case Bad(f) => Bad(f)
    case Good((eth, datagram)) =>
      match Ipv4Wire.Parse(datagram)
      case Bad(f) => Bad(f)
      case Good((ip, segment)) =>
        match TcpWire.Parse(ip.src, ip.dst, segment, offload)
        case Bad(f) => Bad(f)
        case Good((tcp, data)) => Good((eth, ip, tcp, data))
  }

  /** What a segment must satisfy to come back unchanged. */
  ghost predicate Travels(s: Segment, c0: byte, c1: byte, rx: bool) {
    && Ipv4Wire.Carried(s.ip, HeaderSize(s.tcp.options) + |s.data|, c0, c1)
    && HeaderSize(s.tcp.options) <= MAX_HEADER && NoOperation !in s.tcp.options && AllReadable(s.tcp.options)
    && Vouched(s.tcp, s.ip.src, s.ip.dst, s.data, s.offload, rx)
  }

  lemma {:induction false} OptionsBound(os: seq<TcpOption>)
    requires forall i :: 0 <= i < |os| && os[i].Sack? ==> |os[i].blocks| <= 4
    ensures OptionsSize(os) <= 34 * |os|
  {
    if os != [] { OptionsBound(os[1..]); }
  }

  /** A payload cut short by a length that does not fit 16 bits never parses to all of the data. */
  lemma TruncationShows(s: Segment, cut: seq<byte>, offload: bool)
    requires SegmentGood(s)
    requires |cut| + 0x1_0000 <= HeaderSize(s.tcp.options) + |s.data|
    ensures var r := TcpWire.Parse(s.ip.src, s.ip.dst, cut, offload); r.Good? ==> |r.value.1| < |s.data|
  {
    hide TcpWire.Parse;
    var r := TcpWire.Parse(s.ip.src, s.ip.dst, cut, offload);
    OptionsBound(s.tcp.options);
    assert HeaderSize(s.tcp.options) <= 20 + 34 * 5 + 4;
    if r.Good? { ParsedWithin(s.ip.src, s.ip.dst, cut, offload); }
  }

  lemma ParsedWithin(src: long, dst: long, b: seq<byte>, offload: bool)
    ensures var r := TcpWire.Parse(src, dst, b, offload); r.Good? ==> |r.value.1| <= |b|
  {
    hide ParseOptions, TcpWire.FieldsOf, Checksum.Reference;
  }

  lemma LayersOf(s: Segment, c0: byte, c1: byte, padding: seq<byte>)
    requires SegmentGood(s)
    ensures var payload := TcpBytes(s) + s.data;
            var datagram := Ipv4Wire.Ipv4Bytes(s.ip, |payload|, c0, c1) + payload + padding;
            ParseEth(HeadersBytes(s, c0, c1) + s.data + padding) == Good((s.eth, datagram))
  {
    hide EthBytes, Ipv4Wire.Ipv4Bytes, TcpBytes, ParseEth;
    var payload := TcpBytes(s) + s.data;
    var head := Ipv4Wire.Ipv4Bytes(s.ip, |payload|, c0, c1);
    assert HeadersBytes(s, c0, c1) + s.data + padding == EthBytes(s.eth) + (head + payload + padding);
    EthRoundTrip(s.eth, head + payload + padding);
  }

  /**
   * A frame written by the stack, followed by any padding, parses back to the same three headers and
   * exactly the data if and only if the segment travels; `rx` says that the receiving card checks the
   * TCP checksum.
   */
  lemma FrameRoundTrip(s: Segment, c0: byte, c1: byte, padding: seq<byte>, rx: bool)
    requires SegmentGood(s)
    ensures ParseFrame(HeadersBytes(s, c0, c1) + s.data + padding, rx) == Good((s.eth, s.ip, s.tcp, s.data))
            <==> Travels(s, c0, c1, rx)
  {
    hide HeadersBytes, Ipv4Wire.Ipv4Bytes, Ipv4Wire.Parse, TcpWire.Parse, ParseEth, TcpBytes, HeaderSize, AllReadable,
         Vouched;
    var payload := TcpBytes(s) + s.data;
    var datagram := Ipv4Wire.Ipv4Bytes(s.ip, |payload|, c0, c1) + payload + padding;
    LayersOf(s, c0, c1, padding);
    Ipv4Wire.ParseWritten(s.ip, c0, c1, payload, padding);
    TcpPart(s, rx);
    var r := Ipv4Wire.Parse(datagram);
    if r.Good? && r.value.0 == s.ip && !(Ipv4Wire.IP_HEADER + |payload| < 0x1_0000) {
      var total := (Ipv4Wire.IP_HEADER + |payload|) % 0x1_0000;
      Wraps(Ipv4Wire.IP_HEADER + |payload|);
      TruncationShows(s, r.value.1, rx);
    }
  }

  lemma Wraps(x: nat)
    requires x >= 0x1_0000
    ensures x % 0x1_0000 + 0x1_0000 <= x
  {
  }

  lemma TcpPart(s: Segment, rx: bool)
    requires SegmentGood(s)
    ensures TcpWire.Parse(s.ip.src, s.ip.dst, TcpBytes(s) + s.data, rx) == Good((s.tcp, s.data))
            <==> && HeaderSize(s.tcp.options) <= MAX_HEADER && NoOperation !in s.tcp.options
                 && AllReadable(s.tcp.options) && Vouched(s.tcp, s.ip.src, s.ip.dst, s.data, s.offload, rx)
  {
    hide TcpWire.Parse, HeaderSize, AllReadable, WrittenChecksum, HeaderBytes, Vouched;
    TcpWire.RoundTrip(s.tcp, s.ip.src, s.ip.dst, s.data, s.offload, rx);
  }

  // ---------------------------------------------------------------------------
  // Writing in place
  // ---------------------------------------------------------------------------

  lemma SpliceSplice(s: seq<byte>, at: nat, a: seq<byte>, b: seq<byte>)
    requires at + |a| + |b| <= |s|
    ensures Splice(Splice(s, at, a), at + |a|, b) == Splice(s, at, a + b)
  {
  }

  /** Copy bytes into the buffer. */
  method Put(buf: array<byte>, at: nat, b: seq<byte>) returns (next: nat)
    requires at + |b| <= buf.Length
    modifies buf
    ensures next == at + |b|
    ensures buf[..] == Splice(old(buf[..]), at, b)
  {
    for i := 0 to |b|
      invariant forall k :: 0 <= k < at ==> buf[k] == old(buf[k])
      invariant forall k :: 0 <= k < i ==> buf[at + k] == b[k]
      invariant forall k :: at + i <= k < buf.Length ==> buf[k] == old(buf[k])
    {
      buf[at + i] := b[i];
    }
    next := at + |b|;
  }

  method WriteEth(h: EthHeader, buf: array<byte>, at: nat)
    requires EthGood(h) && at + ETH_HEADER <= buf.Length
    modifies buf
    ensures buf[..] == Splice(old(buf[..]), at, EthBytes(h))
  {
    hide Splice, Put16;
    ghost var s := buf[..];
    var cur := Put(buf, at, h.dst);
    cur := Put(buf, cur, h.src);
    SpliceSplice(s, at, h.dst, h.src);
    cur := Put(buf, cur, Put16(TypeCode(h.etherType)));
    SpliceSplice(s, at, h.dst + h.src, Put16(TypeCode(h.etherType)));
  }

  /** The first ten bytes and the last eight; the two between are left as they are. */
  method WriteIpv4(h: Ipv4Wire.Ipv4Header, length: nat, buf: array<byte>, at: nat)
    requires at + Ipv4Wire.IP_HEADER <= buf.Length
    modifies buf
    ensures buf[..] == Splice(old(buf[..]), at, Ipv4Wire.Ipv4Bytes(h, length, old(buf[at + 10]), old(buf[at + 11])))
  {
    hide Splice, Byte3, Byte2, Hi16, Lo8, Ipv4Wire.FragmentWord, Ipv4Wire.Code;
    ghost var s := buf[..];
    ghost var c := [buf[at + 10], buf[at + 11]];
    var first := [0x45, h.dscp % 64 * 4 + h.ecn % 4]
                 + Put16(Ipv4Wire.IP_HEADER + length) + Put16(h.identification) + Put16(Ipv4Wire.FragmentWord(h))
                 + [h.ttl, Ipv4Wire.Code(h.protocol)];
    var last := Put32(h.src) + Put32(h.dst);
    var cur := Put(buf, at, first);
    assert Splice(s, at, first) == Splice(Splice(s, at, first), at + 10, c) by { Kept(s, at, first, c); }
    cur := Put(buf, at + 12, last);
    SpliceSplice(s, at, first, c);
    SpliceSplice(s, at, first + c, last);
    assert first + c + last == Ipv4Wire.Ipv4Bytes(h, length, c[0], c[1]);
  }

  /** Bytes behind a written part are still the old ones. */
  lemma Kept(s: seq<byte>, at: nat, a: seq<byte>, c: seq<byte>)
    requires at + |a| + |c| <= |s| && c == s[at + |a|..at + |a| + |c|]
    ensures Splice(Splice(s, at, a), at + |a|, c) == Splice(s, at, a)
  {
    var t := Splice(s, at, a);
    assert t[at + |a|..at + |a| + |c|] == c;
  }

  /** The option loop, the end mark and the zero padding. */
  method WriteOptions(os: seq<TcpOption>, buf: array<byte>, at: nat)
    requires at + HeaderSize(os) - MIN_HEADER <= buf.Length
    modifies buf
    ensures buf[..] == Splice(old(buf[..]), at, OptionArea(os))
  {
    hide Splice, OptionBytes, OptionsBytes, OptionsSize, HeaderSize;
    ghost var s := buf[..];
    var cur := at;
    Nothing(s, at, os);
    for i := 0 to |os|
      invariant cur == at + |OptionsBytes(os[..i])| && |OptionsBytes(os[..i])| <= |OptionsBytes(os)|
      invariant buf[..] == Splice(s, at, OptionsBytes(os[..i]))
    {
      OptionsSnoc(os, i);
      var next := Put(buf, cur, OptionBytes(os[i]));
      SpliceSplice(s, at, OptionsBytes(os[..i]), OptionBytes(os[i]));
      cur := next;
    }
    assert os[..|os|] == os;
    var end: seq<byte> := [];
    if |os| > 0 {
      end := [0];
      cur := Put(buf, cur, [0]);
      SpliceSplice(s, at, OptionsBytes(os), [0]);
    } else {
      assert OptionsBytes(os) + [] == OptionsBytes(os);
    }
    var pad: seq<byte> := seq(HeaderSize(os) - MIN_HEADER - |OptionsBytes(os) + end|, _ => 0);
    cur := Put(buf, cur, pad);
    SpliceSplice(s, at, OptionsBytes(os) + end, pad);
  }

  lemma Nothing(s: seq<byte>, at: nat, os: seq<TcpOption>)
    requires at <= |s|
    ensures OptionsBytes(os[..0]) == [] && Splice(s, at, []) == s
  {
  }

  lemma {:induction false} OptionsSnoc(os: seq<TcpOption>, i: nat)
    requires i < |os|
    ensures OptionsBytes(os[..i + 1]) == OptionsBytes(os[..i]) + OptionBytes(os[i])
    ensures |OptionsBytes(os[..i + 1])| <= |OptionsBytes(os)|
  {
    hide OptionBytes, OptionSize;
    if i == 0 {
      assert os[..1][1..] == [];
    } else {
      OptionsSnoc(os[1..], i - 1);
      assert os[..i + 1][1..] == os[1..][..i];
      assert os[..i][1..] == os[1..][..i - 1];
    }
  }

  /** The TCP header; the checksum is computed over the finished header and written last. */
  method WriteTcp(s: Segment, buf: array<byte>, at: nat)
    requires SegmentGood(s) && at + HeaderSize(s.tcp.options) <= buf.Length
    requires !s.offload ==> HeaderSize(s.tcp.options) + |s.data| < 0x1_0000
    modifies buf
    ensures buf[..] == Splice(old(buf[..]), at, TcpBytes(s))
  {
    hide Splice, Byte3, Byte2, Hi16, Lo8, OffsetByte, FlagByte, OptionArea, HeaderSize, WrittenChecksum, HeaderBytes,
         FixedBytes, TcpBytes, Get16;
    ghost var before := buf[..];
    ghost var stale := Get16(buf[at + 16], buf[at + 17]);
    var h, size := s.tcp, HeaderSize(s.tcp.options);
    WriteFixed(h, buf, at);
    WriteOptions(h.options, buf, at + MIN_HEADER);
    SpliceSplice(before, at, FixedBytes(h, stale), OptionArea(h.options));
    HeaderParts(h, stale);
    assert buf[..] == Splice(before, at, HeaderBytes(h, stale));
    var checksum := 0;
    if !s.offload {
      var header := buf[at..at + size];
      SpliceMiddle(before, at, HeaderBytes(h, stale));
      assert header == HeaderBytes(h, stale);
      checksum := Checksum.TcpChecksum(s.ip.src, s.ip.dst, header, s.data);
    }
    WrittenIs(s, stale);
    var _ := Put(buf, at + 16, Put16(checksum));
    ChecksumLast(before, at, h, stale, checksum);
  }

  lemma SpliceMiddle(s: seq<byte>, at: nat, b: seq<byte>)
    requires at + |b| <= |s|
    ensures Splice(s, at, b)[at..at + |b|] == b
  {
  }

  lemma HeaderParts(h: TcpHeader, c: word)
    ensures FixedBytes(h, c) + OptionArea(h.options) == HeaderBytes(h, c)
  {
  }

  /** The checksum does not depend on what the field held before. */
  lemma WrittenIs(s: Segment, stale: word)
    ensures WrittenChecksum(s.tcp, s.ip.src, s.ip.dst, s.data, s.offload) ==
              if s.offload then 0 else Checksum.Reference(s.ip.src, s.ip.dst, HeaderBytes(s.tcp, stale) + s.data)
    ensures TcpBytes(s) == HeaderBytes(s.tcp, WrittenChecksum(s.tcp, s.ip.src, s.ip.dst, s.data, s.offload))
  {
    hide OptionArea, OffsetByte, FlagByte, Byte2, Byte3, Hi16, Lo8;
    var a, b := HeaderBytes(s.tcp, 0) + s.data, HeaderBytes(s.tcp, stale) + s.data;
    assert a[..16] == FixedBytes(s.tcp, 0)[..16] && b[..16] == FixedBytes(s.tcp, stale)[..16];
    assert a[18..] == FixedBytes(s.tcp, 0)[18..] + OptionArea(s.tcp.options) + s.data;
    assert b[18..] == FixedBytes(s.tcp, stale)[18..] + OptionArea(s.tcp.options) + s.data;
    Checksum.FieldIsNotCovered(s.ip.src, s.ip.dst, a, b);
  }

  lemma ChecksumLast(before: seq<byte>, at: nat, h: TcpHeader, stale: word, checksum: word)
    requires at + HeaderSize(h.options) <= |before|
    ensures Splice(Splice(before, at, HeaderBytes(h, stale)), at + 16, Put16(checksum))
            == Splice(before, at, HeaderBytes(h, checksum))
  {
    hide OptionArea, OffsetByte, FlagByte, Byte2, Byte3, Hi16, Lo8, HeaderSize;
    var a, b := HeaderBytes(h, stale), HeaderBytes(h, checksum);
    assert b == a[..16] + Put16(checksum) + a[18..];
  }

  /** The fixed fields, one after the other; the checksum field keeps its old content. */
  method WriteFixed(h: TcpHeader, buf: array<byte>, at: nat)
    requires at + MIN_HEADER <= buf.Length
    modifies buf
    ensures buf[..] == Splice(old(buf[..]), at, FixedBytes(h, Get16(old(buf[at + 16]), old(buf[at + 17]))))
  {
    hide Splice, Byte3, Byte2, Hi16, Lo8, OffsetByte, FlagByte, HeaderSize, Get16;
    ghost var s := buf[..];
    ghost var c := [buf[at + 16], buf[at + 17]];
    var first := Put16(h.srcPort) + Put16(h.dstPort) + Put32(h.seqNum) + Put32(h.ackNum)
                 + [OffsetByte(h), FlagByte(h)] + Put16(h.window);
    var _ := Put(buf, at, first);
    assert Splice(s, at, first) == Splice(Splice(s, at, first), at + 16, c) by { Kept(s, at, first, c); }
    var _ := Put(buf, at + 18, Put16(h.urgent));
    SpliceSplice(s, at, first, c);
    SpliceSplice(s, at, first + c, Put16(h.urgent));
    BytesOf16(c[0], c[1]);
    assert first + c + Put16(h.urgent) == FixedBytes(h, Get16(c[0], c[1]));
  }

  lemma BytesOf16(hi: byte, lo: byte)
    ensures Hi16(Get16(hi, lo)) == hi && Lo8(Get16(hi, lo)) == lo
  {
  }

  /** A whole frame: every field of the three headers at its place, and the checksum of what lies there. */
  ghost predicate FrameAt(b: seq<byte>, s: Segment) {
    var size := HeaderSize(s.tcp.options);
    && 34 + size <= |b|
    && EthAt(b, 0, s.eth) && Ipv4Wire.HeaderAt(b, 14, s.ip, size + |s.data|)
    && TcpWire.HeaderAt(b, 34, s.tcp,
                        if s.offload then 0 else Checksum.Reference(s.ip.src, s.ip.dst, b[34..34 + size] + s.data))
  }

  lemma TcpMoves(a: seq<byte>, b: seq<byte>, d: nat, h: TcpHeader, checksum: int)
    requires Holds(b, d, a) && |a| == HeaderSize(h.options) && TcpWire.HeaderAt(a, 0, h, checksum)
    ensures TcpWire.HeaderAt(b, d, h, checksum)
  {
    hide WordIs, LongIs, HeaderSize, OptionsAt, OptionsSize;
    forall i: nat | i < |a| ensures b[d + i] == a[i] { assert b[d..d + |a|][i] == a[i]; }
    NumberMoves(a, b, d, 0, h.srcPort);
    NumberMoves(a, b, d, 2, h.dstPort);
    NumberMoves(a, b, d, 4, h.seqNum);
    NumberMoves(a, b, d, 8, h.ackNum);
    NumberMoves(a, b, d, 14, h.window);
    NumberMoves(a, b, d, 16, checksum);
    NumberMoves(a, b, d, 18, h.urgent);
    OptionsMove(a, b, d, MIN_HEADER, h.options);
  }

  lemma FrameWritten(s: Segment, before: seq<byte>, c0: byte, c1: byte)
    requires SegmentGood(s) && TotalHeader(s) <= |before|
    ensures FrameAt(Splice(before, 0, HeadersBytes(s, c0, c1)), s)
  {
    hide EthBytes, Ipv4Wire.Ipv4Bytes, HeaderSize, TcpWire.HeaderAt, Ipv4Wire.HeaderAt, WordIs, WrittenChecksum,
         HeaderBytes;
    var size := HeaderSize(s.tcp.options);
    var eth, ip, tcp := EthBytes(s.eth), Ipv4Wire.Ipv4Bytes(s.ip, size + |s.data|, c0, c1), TcpBytes(s);
    var b := Splice(before, 0, HeadersBytes(s, c0, c1));
    assert b[..14] == eth && b[14..34] == ip && b[34..34 + size] == tcp;
    EthWritten(s.eth);
    EthMoves(eth, b, s.eth);
    Ipv4Wire.HeaderWritten(s.ip, size + |s.data|, c0, c1);
    Ipv4Wire.HeaderMoves(ip, b, 14, s.ip, size + |s.data|);
    var c := WrittenChecksum(s.tcp, s.ip.src, s.ip.dst, s.data, s.offload);
    TcpWire.HeaderWritten(s.tcp, c);
    TcpMoves(tcp, b, 34, s.tcp, c);
    ChecksumOf(s);
  }

  lemma EthMoves(a: seq<byte>, b: seq<byte>, h: EthHeader)
    requires EthAt(a, 0, h) && |a| == ETH_HEADER <= |b| && b[..ETH_HEADER] == a
    ensures EthAt(b, 0, h)
  {
    assert b[..6] == b[..14][..6] && b[6..12] == b[..14][6..12] && b[12] == b[..14][12] && b[13] == b[..14][13];
  }

  lemma ChecksumOf(s: Segment)
    ensures WrittenChecksum(s.tcp, s.ip.src, s.ip.dst, s.data, s.offload)
         == if s.offload then 0 else Checksum.Reference(s.ip.src, s.ip.dst, TcpBytes(s) + s.data)
  {
    hide HeaderBytes, Checksum.Reference;
    if !s.offload { ChecksumMatches(s.tcp, s.ip.src, s.ip.dst, s.data); }
  }

  /** All three headers in front of the data, in place. */
  method WriteHeader(s: Segment, buf: array<byte>)
    requires SegmentGood(s) && TotalHeader(s) <= buf.Length
    requires !s.offload ==> HeaderSize(s.tcp.options) + |s.data| < 0x1_0000
    modifies buf
    ensures buf[..] == Splice(old(buf[..]), 0, HeadersBytes(s, old(buf[24]), old(buf[25])))
    ensures FrameAt(buf[..], s)
  {
    hide Splice, EthBytes, Ipv4Wire.Ipv4Bytes, TcpBytes, HeaderSize;
    ghost var before := buf[..];
    ghost var eth := EthBytes(s.eth);
    var size := HeaderSize(s.tcp.options);
    WriteEth(s.eth, buf, 0);
    assert buf[..][24] == before[24] && buf[..][25] == before[25] by {
      SpliceKeeps(before, eth, 24);
      SpliceKeeps(before, eth, 25);
    }
    ghost var ip := Ipv4Wire.Ipv4Bytes(s.ip, size + |s.data|, before[24], before[25]);
    WriteIpv4(s.ip, size + |s.data|, buf, ETH_HEADER);
    SpliceSplice(before, 0, eth, ip);
    WriteTcp(s, buf, ETH_HEADER + Ipv4Wire.IP_HEADER);
    SpliceSplice(before, 0, eth + ip, TcpBytes(s));
    assert FrameAt(buf[..], s) by { FrameWritten(s, before, before[24], before[25]); }
  }

  lemma SpliceKeeps(s: seq<byte>, b: seq<byte>, i: nat)
    requires |b| <= i < |s|
    ensures Splice(s, 0, b)[i] == s[i]
  {
  }
}
