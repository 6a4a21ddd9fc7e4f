/** The segments of the handshake as bytes: what a peer sends is what the other peer's parser hands to it. */
module TcpSegments {
  import opened Bytes
  import opened Tcp
  import TcpPeer
  import TcpWorld
  import TcpWire
  import Ipv4Wire
  import Frame

  // ---------------------------------------------------------------------------
  // Headers of the handshake and headers on the wire
  // ---------------------------------------------------------------------------

  /** The options the handshake uses, in the range their fields have. */
  predicate OptionFits(o: TcpOption) {
    match o
    case MaxSegment(mss) => mss < 0x1_0000
    case WindowScale(shift) => shift < 256
    case Other => false
  }

  predicate EndpointFits(e: Endpoint) {
    e.addr < 0x1_0000_0000 && 0 < e.port < 0x1_0000
  }

  predicate Fits(p: Packet) {
    && EndpointFits(p.src) && EndpointFits(p.dst)
    && p.header.seqNum < 0x1_0000_0000 && p.header.ackNum < 0x1_0000_0000 && p.header.window < 0x1_0000
    && |p.header.options| <= TcpWire.MAX_OPTIONS
    && forall i :: 0 <= i < |p.header.options| ==> OptionFits(p.header.options[i])
  }

  function ToOption(o: TcpOption): TcpWire.TcpOption
    requires OptionFits(o)
  {
    match o
    case MaxSegment(mss) => TcpWire.MaxSegment(mss)
    case WindowScale(shift) => TcpWire.WindowScale(shift)
  }

  function FromOption(o: TcpWire.TcpOption): TcpOption {
    match o
    case MaxSegment(mss) => MaxSegment(mss)
    case WindowScale(shift) => WindowScale(shift)
    case _ => Other
  }

  function ToOptions(os: seq<TcpOption>): (r: seq<TcpWire.TcpOption>)
    requires forall i :: 0 <= i < |os| ==> OptionFits(os[i])
    ensures |r| == |os| && forall i :: 0 <= i < |r| ==> r[i] == ToOption(os[i])
  {
    if os == [] then [] else [ToOption(os[0])] + ToOptions(os[1..])
  }

  function FromOptions(os: seq<TcpWire.TcpOption>): (r: seq<TcpOption>)
    ensures |r| == |os| && forall i :: 0 <= i < |r| ==> r[i] == FromOption(os[i])
  {
    if os == [] then [] else [FromOption(os[0])] + FromOptions(os[1..])
  }

  /** The header the stack writes for a segment of the handshake. */
  function ToWire(p: Packet): TcpWire.TcpHeader
    requires Fits(p)
  {
    var h := p.header;
    TcpWire.TcpHeader(p.src.port, p.dst.port, h.seqNum, h.ackNum, false, false, false, false, h.ack, false, h.rst,
                      h.syn, false, h.window, 0, ToOptions(h.options))
  }

  /** The segment a peer sees: endpoints from both headers, and the fields the handshake looks at. */
  function FromWire(ip: Ipv4Wire.Ipv4Header, h: TcpWire.TcpHeader): Packet {
    Packet(Endpoint(ip.src, h.srcPort), Endpoint(ip.dst, h.dstPort),
           Header(h.syn, h.ack, h.rst, h.seqNum, h.ackNum, h.window, FromOptions(h.options)))
  }

  /** The whole frame around such a segment; it carries no data. */
  function ToFrame(p: Packet, dst: seq<byte>, src: seq<byte>, offload: bool): Frame.Segment
    requires Fits(p)
  {
    Frame.Segment(Frame.EthHeader(dst, src, Frame.Ipv4),
                  Ipv4Wire.Ipv4Header(0, 0, 0, 0, 0, 0, Ipv4Wire.Tcp, p.src.addr, p.dst.addr),
                  ToWire(p), [], offload)
  }

  /** A segment of the handshake sets no flag the handshake does not know, and points at no urgent data. */
  predicate PlainFlags(h: TcpWire.TcpHeader) {
    !h.ns && !h.cwr && !h.ece && !h.urg && !h.psh && !h.fin && h.urgent == 0
  }

  lemma WireRoundTrip(p: Packet, ip: Ipv4Wire.Ipv4Header)
    requires Fits(p) && ip.src == p.src.addr && ip.dst == p.dst.addr
    ensures FromWire(ip, ToWire(p)) == p && PlainFlags(ToWire(p))
  {
    var os, r := p.header.options, FromOptions(ToOptions(p.header.options));
    forall i | 0 <= i < |os| ensures r[i] == os[i] {
      assert OptionFits(os[i]);
    }
    assert r == os;
  }

  // ---------------------------------------------------------------------------
  // The way through the network
  // ---------------------------------------------------------------------------

  lemma {:induction false} OptionsAreSmall(os: seq<TcpOption>)
    requires forall i :: 0 <= i < |os| ==> OptionFits(os[i])
    ensures TcpWire.OptionsSize(ToOptions(os)) <= 4 * |os|
    decreases |os|
  {
    if os != [] {
      assert ToOptions(os)[1..] == ToOptions(os[1..]);
      OptionsAreSmall(os[1..]);
    }
  }

  lemma OptionsAreReadable(os: seq<TcpOption>)
    requires |os| <= TcpWire.MAX_OPTIONS && forall i :: 0 <= i < |os| ==> OptionFits(os[i])
    ensures var r := ToOptions(os);
            && TcpWire.NoOperation !in r && TcpWire.AllReadable(r)
            && (forall i :: 0 <= i < |r| ==> !r[i].Sack?)
            && TcpWire.HeaderSize(r) <= TcpWire.MAX_HEADER
  {
    OptionsAreSmall(os);
    forall i | 0 <= i < |os| ensures !ToOptions(os)[i].Sack? && !ToOptions(os)[i].NoOperation? {
      assert OptionFits(os[i]);
    }
  }

  /**
   * A segment of the handshake, written as a frame and parsed on the other side, is the same segment,
   * whatever padding the link adds. The sender wrote the checksum or the receiving card checks it, and
   * the IPv4 checksum field is not all ones.
   */
  lemma SegmentTravels(p: Packet, dst: seq<byte>, src: seq<byte>, c0: byte, c1: byte, padding: seq<byte>,
                       tx: bool, rx: bool)
    requires Fits(p) && |dst| == 6 && |src| == 6 && !(c0 == 255 && c1 == 255) && (rx || !tx)
    ensures Frame.SegmentGood(ToFrame(p, dst, src, tx))
    ensures var r := Frame.ParseFrame(Frame.HeadersBytes(ToFrame(p, dst, src, tx), c0, c1) + padding, rx);
            r.Good? && FromWire(r.value.1, r.value.2) == p && PlainFlags(r.value.2) && r.value.3 == []
  {
    hide Frame.ParseFrame, Frame.HeadersBytes, TcpWire.HeaderSize, TcpWire.AllReadable;
    var s := ToFrame(p, dst, src, tx);
    OptionsAreReadable(p.header.options);
    WireRoundTrip(p, s.ip);
    Frame.FrameRoundTrip(s, c0, c1, padding, rx);
    assert Frame.HeadersBytes(s, c0, c1) + s.data + padding == Frame.HeadersBytes(s, c0, c1) + padding;
  }

  /** What the world delivers is what the bytes say: every segment a peer sends makes it through. */
  lemma SentTravels(peer: TcpPeer.Peer, c: TcpWorld.Call, p: Packet, dst: seq<byte>, src: seq<byte>,
                    c0: byte, c1: byte, padding: seq<byte>, tx: bool, rx: bool)
    requires TcpWorld.Allowed(peer, c) && p in TcpWorld.Sent(peer, c)
    requires peer.config.window < 0x1_0000 && peer.config.scale < 256
    requires EndpointFits(p.src) && EndpointFits(p.dst) && p.header.seqNum < 0x1_0000_0000
    requires |dst| == 6 && |src| == 6 && !(c0 == 255 && c1 == 255) && (rx || !tx)
    ensures Fits(p) && Frame.SegmentGood(ToFrame(p, dst, src, tx))
    ensures var r := Frame.ParseFrame(Frame.HeadersBytes(ToFrame(p, dst, src, tx), c0, c1) + padding, rx);
            r.Good? && FromWire(r.value.1, r.value.2) == p
  {
    hide Frame.ParseFrame, Frame.HeadersBytes, Frame.SegmentGood, ToFrame, FromWire;
    SentFits(peer, c, p);
    SegmentTravels(p, dst, src, c0, c1, padding, tx, rx);
  }

  lemma SentFits(peer: TcpPeer.Peer, c: TcpWorld.Call, p: Packet)
    requires TcpWorld.Allowed(peer, c) && p in TcpWorld.Sent(peer, c)
    requires peer.config.window < 0x1_0000 && peer.config.scale < 256
    requires EndpointFits(p.src) && EndpointFits(p.dst) && p.header.seqNum < 0x1_0000_0000
    ensures Fits(p)
  {
    hide TcpPeer.ToListener, Connected, ScalesFit, Next;
    assert |p.header.options| <= 2 && forall i :: 0 <= i < |p.header.options| ==> OptionFits(p.header.options[i]);
  }
}
