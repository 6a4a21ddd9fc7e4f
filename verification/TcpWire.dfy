/** TCP headers on the wire: writing, parsing, and when the two are inverse. */
module TcpWire {
  import opened Bytes
  import Checksum

  const MIN_HEADER: nat := 20
  const MAX_HEADER: nat := 60
  const MAX_OPTIONS: nat := 5

  datatype Fault = Malformed | Unsupported | OutOfRange | IoError

  datatype Parsed<+T> = Good(value: T) | Bad(fault: Fault)

  type word = x: nat | x < 0x1_0000

  type long = x: nat | x < 0x1_0000_0000

  datatype Block = Block(begin: long, end: long)

  datatype TcpOption =
    | NoOperation
    | MaxSegment(mss: word)
    | WindowScale(shift: byte)
    | SackPermitted
    | Sack(blocks: seq<Block>)
    | Timestamp(sender: long, echo: long)

  datatype TcpHeader = TcpHeader(srcPort: word, dstPort: word, seqNum: long, ackNum: long,
                                 ns: bool, cwr: bool, ece: bool, urg: bool, ack: bool, psh: bool, rst: bool,
                                 syn: bool, fin: bool, window: word, urgent: word, options: seq<TcpOption>)

  /** What the header type guarantees: ports are not zero, and the option arrays have room for so many. */
  predicate WellTyped(h: TcpHeader) {
    && h.srcPort > 0 && h.dstPort > 0 && |h.options| <= MAX_OPTIONS
    && forall i :: 0 <= i < |h.options| && h.options[i].Sack? ==> |h.options[i].blocks| <= 4
  }

  // ---------------------------------------------------------------------------
  // Where everything lies (section 3.1 of RFC 793, section 2 of RFC 7323, section 2 of RFC 2018)
  // ---------------------------------------------------------------------------

  /** Whether the bit of the given weight says `x`. */
  predicate BitIs(v: byte, weight: nat, x: bool)
    requires weight > 0
  {
    (v / weight % 2 == 1) == x
  }

  /** The fixed fields of the header at `at`, and the header length in 32-bit words, as far as it fits. */
  predicate FieldsAt(b: seq<byte>, at: nat, h: TcpHeader, size: nat) {
    && at + MIN_HEADER <= |b|
    && WordIs(b, at, h.srcPort) && WordIs(b, at + 2, h.dstPort)
    && LongIs(b, at + 4, h.seqNum) && LongIs(b, at + 8, h.ackNum)
    && b[at + 12] / 16 * 4 == size % 64 && BitIs(b[at + 12], 1, h.ns)
    && BitIs(b[at + 13], 0x80, h.cwr) && BitIs(b[at + 13], 0x40, h.ece) && BitIs(b[at + 13], 0x20, h.urg)
    && BitIs(b[at + 13], 0x10, h.ack) && BitIs(b[at + 13], 8, h.psh) && BitIs(b[at + 13], 4, h.rst)
    && BitIs(b[at + 13], 2, h.syn) && BitIs(b[at + 13], 1, h.fin)
    && WordIs(b, at + 14, h.window) && WordIs(b, at + 18, h.urgent)
  }

  predicate BlocksAt(b: seq<byte>, at: nat, bs: seq<Block>) {
    forall i :: 0 <= i < |bs| ==> LongIs(b, at + 8 * i, bs[i].begin) && LongIs(b, at + 8 * i + 4, bs[i].end)
  }

  /** Kind, length and contents of one option. */
  predicate OptionAt(b: seq<byte>, at: nat, o: TcpOption) {
    && at + OptionSize(o) <= |b|
    && (!o.NoOperation? ==> b[at + 1] == OptionSize(o))
    && match o
       case NoOperation => b[at] == 1
       case MaxSegment(mss) => b[at] == 2 && WordIs(b, at + 2, mss)
       case WindowScale(shift) => b[at] == 3 && b[at + 2] == shift
       case SackPermitted => b[at] == 4
       case Sack(blocks) => b[at] == 5 && BlocksAt(b, at + 2, blocks)
       case Timestamp(sender, echo) => b[at] == 8 && LongIs(b, at + 2, sender) && LongIs(b, at + 6, echo)
  }

  /** Options one behind the other. */
  predicate OptionsAt(b: seq<byte>, at: nat, os: seq<TcpOption>)
    decreases |os|
  {
    os == [] || (OptionAt(b, at, os[0]) && OptionsAt(b, at + OptionSize(os[0]), os[1..]))
  }

  /** What an option area means: padding is skipped, and the end mark or the end of the area ends the list. */
  predicate AreaMeans(b: seq<byte>, at: nat, os: seq<TcpOption>)
    requires at <= |b|
    decreases |b| - at
  {
    if at == |b| || b[at] == 0 then os == []
    else if b[at] == 1 then AreaMeans(b, at + 1, os)
    else
      && os != [] && os[0] != NoOperation && (os[0].Sack? ==> 0 < |os[0].blocks| <= 4)
      && OptionAt(b, at, os[0]) && AreaMeans(b, at + OptionSize(os[0]), os[1..])
  }

  // ---------------------------------------------------------------------------
  // Writing options
  // ---------------------------------------------------------------------------

  function BlockBytes(bs: seq<Block>): (r: seq<byte>)
    ensures |r| == 8 * |bs|
  {
    if bs == [] then [] else Put32(bs[0].begin) + Put32(bs[0].end) + BlockBytes(bs[1..])
  }

  function OptionSize(o: TcpOption): nat {
    match o
    case NoOperation => 1
    case MaxSegment(_) => 4
    case WindowScale(_) => 3
    case SackPermitted => 2
    case Sack(blocks) => 2 + 8 * |blocks|
    case Timestamp(_, _) => 10
  }

  function OptionBytes(o: TcpOption): (r: seq<byte>)
    ensures |r| == OptionSize(o)
  {
    match o
    case NoOperation => [1]
    case MaxSegment(mss) => [2, 4] + Put16(mss)
    case WindowScale(shift) => [3, 3, shift]
    case SackPermitted => [4, 2]
    case Sack(blocks) => [5, (2 + 8 * |blocks|) % 256] + BlockBytes(blocks)
    case Timestamp(sender, echo) => [8, 10] + Put32(sender) + Put32(echo)
  }

  function OptionsSize(os: seq<TcpOption>): nat {
    if os == [] then 0 else OptionSize(os[0]) + OptionsSize(os[1..])
  }

  function OptionsBytes(os: seq<TcpOption>): (r: seq<byte>)
    ensures |r| == OptionsSize(os)
  {
    if os == [] then [] else OptionBytes(os[0]) + OptionsBytes(os[1..])
  }

  /** The header size: options, an end mark if there are any, rounded up to a multiple of four. */
  function HeaderSize(os: seq<TcpOption>): (n: nat)
    ensures n % 4 == 0 && n >= MIN_HEADER
    ensures OptionsSize(os) + (if os == [] then 0 else 1) <= n - MIN_HEADER
                                                          < OptionsSize(os) + (if os == [] then 0 else 1) + 4
  {
    var size := MIN_HEADER + OptionsSize(os) + (if os == [] then 0 else 1);
    (size + 3) / 4 * 4
  }

  /** Everything behind the fixed header: options, end mark, zero padding. */
  function OptionArea(os: seq<TcpOption>): (r: seq<byte>)
    ensures |r| == HeaderSize(os) - MIN_HEADER
  {
    var used := OptionsBytes(os) + (if os == [] then [] else [0]);
    used + seq(HeaderSize(os) - MIN_HEADER - |used|, _ => 0)
  }

  // ---------------------------------------------------------------------------
  // Parsing options
  // ---------------------------------------------------------------------------

  function ParseBlocks(b: seq<byte>, n: nat): Parsed<seq<Block>> {
    if n == 0 then Good([])
    else if |b| < 8 then Bad(IoError)
    else
      match ParseBlocks(b[8..], n - 1)
      case Bad(f) => Bad(f)
      case Good(rest) => Good([Block(Get32(b[0], b[1], b[2], b[3]), Get32(b[4], b[5], b[6], b[7]))] + rest)
  }

  /** One option that is neither the end mark nor padding, and how many bytes it takes. */
  function ParseOption(b: seq<byte>): (r: Parsed<(TcpOption, nat)>)
    requires |b| > 0 && b[0] > 1
    ensures r.Good? ==> 0 < r.value.1 <= |b|
  {
    if b[0] !in {2, 3, 4, 5, 8} then Bad(Malformed)
    else if |b| < 2 then Bad(IoError)
    else if b[0] == 2 then
      if b[1] != 4 then Bad(Malformed) else if |b| < 4 then Bad(IoError)
      else Good((MaxSegment(Get16(b[2], b[3])), 4))
    else if b[0] == 3 then
      if b[1] != 3 then Bad(Malformed) else if |b| < 3 then Bad(IoError)
      else Good((WindowScale(b[2]), 3))
    else if b[0] == 4 then
      if b[1] != 2 then Bad(Malformed) else Good((SackPermitted, 2))
    else if b[0] == 5 then
      if b[1] !in {10, 18, 26, 34} then Bad(Malformed)
      else
        match ParseBlocks(b[2..], (b[1] - 2) / 8)
        case Bad(f) => Bad(f)
        case Good(blocks) => BlocksLength(b[2..], (b[1] - 2) / 8); Good((Sack(blocks), b[1]))
    else
      if b[1] != 10 then Bad(Malformed) else if |b| < 10 then Bad(IoError)
      else Good((Timestamp(Get32(b[2], b[3], b[4], b[5]), Get32(b[6], b[7], b[8], b[9])), 10))
  }

  lemma {:induction false} BlocksLength(b: seq<byte>, n: nat)
    requires ParseBlocks(b, n).Good?
    ensures |b| >= 8 * n
  {
    if n > 0 { BlocksLength(b[8..], n - 1); }
  }

  function ParseOptions(b: seq<byte>, acc: seq<TcpOption>): Parsed<seq<TcpOption>>
    decreases |b|
  {
    if |b| == 0 || b[0] == 0 then Good(acc)
    else if b[0] == 1 then ParseOptions(b[1..], acc)
    else
      match ParseOption(b)
      case Bad(f) => Bad(f)
      case Good((o, n)) =>
        if |acc| >= MAX_OPTIONS then Bad(Malformed) else ParseOptions(b[n..], acc + [o])
  }

  /** The cursor loop over the option bytes. */
  method ScanOptions(b: seq<byte>) returns (r: Parsed<seq<TcpOption>>)
    ensures r == ParseOptions(b, [])
  {
    var pos := 0;
    var list: seq<TcpOption> := [];
    assert b[0..] == b;
    while pos < |b|
      invariant 0 <= pos <= |b|
      invariant ParseOptions(b, []) == ParseOptions(b[pos..], list)
      decreases |b| - pos
    {
      var rest := b[pos..];
      if rest[0] == 0 {
        return Good(list);
      }
      if rest[0] == 1 {
        assert rest[1..] == b[pos + 1..];
        pos := pos + 1;
        continue;
      }
      var o := ParseOption(rest);
      if o.Bad? {
        return Bad(o.fault);
      }
      if |list| >= MAX_OPTIONS {
        return Bad(Malformed);
      }
      assert rest[o.value.1..] == b[pos + o.value.1..];
      list := list + [o.value.0];
      pos := pos + o.value.1;
    }
    assert b[pos..] == [];
    return Good(list);
  }

  // ---------------------------------------------------------------------------
  // Options round trip
  // ---------------------------------------------------------------------------

  lemma BlockHead(x: Block, rest: seq<byte>)
    ensures var b := Put32(x.begin) + Put32(x.end) + rest;
            && Get32(b[0], b[1], b[2], b[3]) == x.begin && Get32(b[4], b[5], b[6], b[7]) == x.end
            && b[8..] == rest
  {
    hide Get32, Byte3, Byte2, Hi16, Lo8;
    RoundTrip32(x.begin);
    RoundTrip32(x.end);
  }

  lemma {:induction false} BlocksRoundTrip(bs: seq<Block>, rest: seq<byte>)
    ensures ParseBlocks(BlockBytes(bs) + rest, |bs|) == Good(bs)
  {
    hide Get32, Put32;
    if bs != [] {
      var more := BlockBytes(bs[1..]) + rest;
      assert BlockBytes(bs) + rest == Put32(bs[0].begin) + Put32(bs[0].end) + more;
      BlockHead(bs[0], more);
      BlocksRoundTrip(bs[1..], rest);
      assert bs == [Block(bs[0].begin, bs[0].end)] + bs[1..];
    }
  }

  /** A selective-acknowledgment option without blocks is written but refused by the parser. */
  predicate Readable(o: TcpOption) {
    o.Sack? ==> |o.blocks| > 0
  }

  lemma SackRoundTrip(bs: seq<Block>, rest: seq<byte>)
    requires |bs| <= 4
    ensures var b := OptionBytes(Sack(bs)) + rest;
            ParseOption(b) == if |bs| > 0 then Good((Sack(bs), 2 + 8 * |bs|)) else Bad(Malformed)
  {
    hide ParseBlocks, BlockBytes;
    var b := OptionBytes(Sack(bs)) + rest;
    assert b[2..] == BlockBytes(bs) + rest;
    assert b[0] == 5 && b[1] == 2 + 8 * |bs|;
    BlocksRoundTrip(bs, rest);
    assert (b[1] - 2) / 8 == |bs|;
  }

  lemma TimestampRoundTrip(sender: long, echo: long, rest: seq<byte>)
    ensures ParseOption(OptionBytes(Timestamp(sender, echo)) + rest) == Good((Timestamp(sender, echo), 10))
  {
    hide Get32, Byte3, Byte2, Hi16, Lo8, ParseBlocks;
    var b := OptionBytes(Timestamp(sender, echo)) + rest;
    assert b == [8, 10, Byte3(sender), Byte2(sender), Hi16(sender), Lo8(sender),
                 Byte3(echo), Byte2(echo), Hi16(echo), Lo8(echo)] + rest;
    RoundTrip32(sender);
    RoundTrip32(echo);
  }

  lemma SmallRoundTrip(o: TcpOption, rest: seq<byte>)
    requires o.MaxSegment? || o.WindowScale? || o.SackPermitted?
    ensures ParseOption(OptionBytes(o) + rest) == Good((o, OptionSize(o)))
  {
    hide Get16, Hi16, Lo8, ParseBlocks;
    if o.MaxSegment? {
      assert OptionBytes(o) + rest == [2, 4, Hi16(o.mss), Lo8(o.mss)] + rest;
      RoundTrip16(o.mss);
    }
  }

  lemma OptionRoundTrip(o: TcpOption, rest: seq<byte>)
    requires o != NoOperation && (o.Sack? ==> |o.blocks| <= 4)
    ensures var b := OptionBytes(o) + rest;
            && b[0] > 1
            && (Readable(o) ==> ParseOption(b) == Good((o, OptionSize(o))))
            && (!Readable(o) ==> ParseOption(b) == Bad(Malformed))
            && b[OptionSize(o)..] == rest
  {
    hide ParseOption;
    var b := OptionBytes(o) + rest;
    assert b[OptionSize(o)..] == rest;
    assert b[0] == OptionBytes(o)[0];
    match o
    case Sack(blocks) => SackRoundTrip(blocks, rest);
    case Timestamp(sender, echo) => TimestampRoundTrip(sender, echo, rest);
    case _ => SmallRoundTrip(o, rest);
  }

  /** What survives a trip over the wire: everything but the padding options. */
  function WithoutPadding(os: seq<TcpOption>): (r: seq<TcpOption>)
    ensures |r| <= |os|
  {
    if os == [] then []
    else if os[0] == NoOperation then WithoutPadding(os[1..])
    else [os[0]] + WithoutPadding(os[1..])
  }

  /** Nothing is lost exactly when there was no padding. */
  lemma {:induction false} NothingLost(os: seq<TcpOption>)
    ensures |WithoutPadding(os)| == |os| <==> NoOperation !in os
    ensures WithoutPadding(os) == os <==> NoOperation !in os
  {
    if os != [] {
      NothingLost(os[1..]);
      if os[0] != NoOperation { assert WithoutPadding(os) == [os[0]] + WithoutPadding(os[1..]); }
    }
  }

  predicate AllReadable(os: seq<TcpOption>) {
    forall i :: 0 <= i < |os| ==> Readable(os[i])
  }

  /** One option at the front of what is parsed. */
  lemma ParseStep(o: TcpOption, more: seq<byte>, acc: seq<TcpOption>)
    requires |acc| < MAX_OPTIONS && (o.Sack? ==> |o.blocks| <= 4)
    ensures ParseOptions(OptionBytes(o) + more, acc) ==
              if o == NoOperation then ParseOptions(more, acc)
              else if Readable(o) then ParseOptions(more, acc + [o])
              else Bad(Malformed)
  {
    hide ParseOption;
    if o == NoOperation {
      assert (OptionBytes(o) + more)[1..] == more;
    } else {
      OptionRoundTrip(o, more);
    }
  }

  lemma ParseEnd(rest: seq<byte>, acc: seq<TcpOption>)
    requires rest == [] || rest[0] == 0
    ensures ParseOptions(rest, acc) == Good(acc)
  {
  }

  lemma ReadableParts(os: seq<TcpOption>)
    ensures AllReadable(os) <==> os == [] || (Readable(os[0]) && AllReadable(os[1..]))
  {
    if os != [] {
      forall i | 0 < i < |os| ensures os[i] == os[1..][i - 1] {}
    }
  }

  lemma {:induction false} OptionsRoundTrip(os: seq<TcpOption>, rest: seq<byte>, acc: seq<TcpOption>)
    requires |acc| + |os| <= MAX_OPTIONS
    requires forall i :: 0 <= i < |os| && os[i].Sack? ==> |os[i].blocks| <= 4
    requires rest == [] || rest[0] == 0
    ensures ParseOptions(OptionsBytes(os) + rest, acc) ==
              if AllReadable(os) then Good(acc + WithoutPadding(os)) else Bad(Malformed)
    decreases |os|
  {
    hide ParseOptions, OptionBytes, Readable, AllReadable;
    ReadableParts(os);
    if os == [] {
      assert OptionsBytes(os) + rest == rest;
      assert acc + [] == acc;
      ParseEnd(rest, acc);
    } else {
      var o, more := os[0], OptionsBytes(os[1..]) + rest;
      assert OptionsBytes(os) + rest == OptionBytes(o) + more;
      ParseStep(o, more, acc);
      if o == NoOperation {
        OptionsRoundTrip(os[1..], rest, acc);
        PaddingIsReadable();
      } else if Readable(o) {
        OptionsRoundTrip(os[1..], rest, acc + [o]);
        assert acc + [o] + WithoutPadding(os[1..]) == acc + WithoutPadding(os);
      }
    }
  }

  lemma PaddingIsReadable()
    ensures Readable(NoOperation)
  {
  }

  // ---------------------------------------------------------------------------
  // The header
  // ---------------------------------------------------------------------------

  function Bit(b: bool): nat {
    if b then 1 else 0
  }

  function FlagByte(h: TcpHeader): byte {
    128 * Bit(h.cwr) + 64 * Bit(h.ece) + 32 * Bit(h.urg) + 16 * Bit(h.ack)
    + 8 * Bit(h.psh) + 4 * Bit(h.rst) + 2 * Bit(h.syn) + Bit(h.fin)
  }

  /** The upper half counts 32-bit words in four bits: a header of 64 bytes or more does not fit. */
  function OffsetByte(h: TcpHeader): byte {
    (HeaderSize(h.options) / 4) % 16 * 16 + Bit(h.ns)
  }

  function FixedBytes(h: TcpHeader, checksum: word): (r: seq<byte>)
    ensures |r| == MIN_HEADER
  {
    [Hi16(h.srcPort), Lo8(h.srcPort), Hi16(h.dstPort), Lo8(h.dstPort),
     Byte3(h.seqNum), Byte2(h.seqNum), Hi16(h.seqNum), Lo8(h.seqNum),
     Byte3(h.ackNum), Byte2(h.ackNum), Hi16(h.ackNum), Lo8(h.ackNum),
     OffsetByte(h), FlagByte(h), Hi16(h.window), Lo8(h.window),
     Hi16(checksum), Lo8(checksum), Hi16(h.urgent), Lo8(h.urgent)]
  }

  function HeaderBytes(h: TcpHeader, checksum: word): (r: seq<byte>)
    ensures |r| == HeaderSize(h.options)
  {
    FixedBytes(h, checksum) + OptionArea(h.options)
  }

  /** The checksum that is written: none if the card computes it. */
  function WrittenChecksum(h: TcpHeader, src: long, dst: long, data: seq<byte>, offload: bool): word {
    if offload then 0
    else
      Checksum.ReferenceFolds(src, dst, HeaderBytes(h, 0) + data);
      Checksum.Reference(src, dst, HeaderBytes(h, 0) + data)
  }

  /** The whole segment. */
  function SegmentBytes(h: TcpHeader, src: long, dst: long, data: seq<byte>, offload: bool): seq<byte> {
    HeaderBytes(h, WrittenChecksum(h, src, dst, data, offload)) + data
  }

  /** The checks that come before any field is used. */
  function DataOffset(b: seq<byte>): Parsed<nat> {
    if |b| < MIN_HEADER then Bad(Malformed)
    else
      var offset := b[12] / 16 * 4;
      if |b| < offset then Bad(Malformed)
      else if offset < MIN_HEADER then Bad(Malformed)
      else if offset > MAX_HEADER then Bad(Malformed)
      else Good(offset)
  }

  function FieldsOf(b: seq<byte>, options: seq<TcpOption>): TcpHeader
    requires |b| >= MIN_HEADER
  {
    TcpHeader(Get16(b[0], b[1]), Get16(b[2], b[3]), Get32(b[4], b[5], b[6], b[7]), Get32(b[8], b[9], b[10], b[11]),
              b[12] % 2 != 0, b[13] / 128 % 2 != 0, b[13] / 64 % 2 != 0, b[13] / 32 % 2 != 0, b[13] / 16 % 2 != 0,
              b[13] / 8 % 2 != 0, b[13] / 4 % 2 != 0, b[13] / 2 % 2 != 0, b[13] % 2 != 0,
              Get16(b[14], b[15]), Get16(b[18], b[19]), options)
  }

  /** Parse a segment that came from `src` for `dst`; with `offload` the card has checked the checksum. */
  function Parse(src: long, dst: long, b: seq<byte>, offload: bool): Parsed<(TcpHeader, seq<byte>)> {
    match DataOffset(b)
    case Bad(f) => Bad(f)
    case Good(offset) =>
      if Get16(b[0], b[1]) == 0 || Get16(b[2], b[3]) == 0 then Bad(OutOfRange)
      else if !offload && Get16(b[16], b[17]) != Checksum.Reference(src, dst, b) then Bad(Malformed)
      else
        match ParseOptions(b[MIN_HEADER..offset], [])
        case Bad(f) => Bad(f)
        case Good(options) => Good((FieldsOf(b, options), b[offset..]))
  }

  // ---------------------------------------------------------------------------
  // What the parser reads
  // ---------------------------------------------------------------------------

  lemma {:induction false} BlocksMean(b: seq<byte>, at: nat, n: nat, bs: seq<Block>)
    requires at <= |b|
    ensures ParseBlocks(b[at..], n) == Good(bs) <==> at + 8 * n <= |b| && |bs| == n && BlocksAt(b, at, bs)
    ensures ParseBlocks(b[at..], n).Bad? ==> at + 8 * n > |b|
    decreases n
  {
    hide Get32, LongIs;
    var c := b[at..];
    if n > 0 && |c| >= 8 {
      assert c[8..] == b[at + 8..];
      var rest := if bs == [] then [] else bs[1..];
      BlocksMean(b, at + 8, n - 1, rest);
      BlocksSplit(b, at, bs);
      if bs != [] {
        GetIs(b, at, bs[0].begin);
        GetIs(b, at + 4, bs[0].end);
        assert bs == [bs[0]] + bs[1..];
        var first := Block(Get32(c[0], c[1], c[2], c[3]), Get32(c[4], c[5], c[6], c[7]));
        var more := ParseBlocks(c[8..], n - 1);
        if more.Good? { assert ([first] + more.value)[1..] == more.value; }
      }
    }
  }

  lemma BlocksSplit(b: seq<byte>, at: nat, bs: seq<Block>)
    ensures bs != [] ==>
      (BlocksAt(b, at, bs) <==>
       LongIs(b, at, bs[0].begin) && LongIs(b, at + 4, bs[0].end) && BlocksAt(b, at + 8, bs[1..]))
  {
    hide LongIs;
    if bs != [] {
      if BlocksAt(b, at, bs) {
        forall i | 0 <= i < |bs[1..]|
          ensures LongIs(b, at + 8 + 8 * i, bs[1..][i].begin) && LongIs(b, at + 8 + 8 * i + 4, bs[1..][i].end)
        {
          assert bs[1..][i] == bs[i + 1] && at + 8 + 8 * i == at + 8 * (i + 1);
        }
      }
      if LongIs(b, at, bs[0].begin) && LongIs(b, at + 4, bs[0].end) && BlocksAt(b, at + 8, bs[1..]) {
        forall i | 0 <= i < |bs| ensures LongIs(b, at + 8 * i, bs[i].begin) && LongIs(b, at + 8 * i + 4, bs[i].end) {
          if i > 0 { assert bs[1..][i - 1] == bs[i] && at + 8 + 8 * (i - 1) == at + 8 * i; }
        }
      }
    }
  }

  /** An option parses to exactly what its bytes say. */
  lemma OptionMeans(b: seq<byte>, at: nat, o: TcpOption, n: nat)
    requires at < |b| && b[at] > 1
    ensures ParseOption(b[at..]) == Good((o, n)) <==>
            && n == OptionSize(o) && o != NoOperation && (o.Sack? ==> 0 < |o.blocks| <= 4) && OptionAt(b, at, o)
  {
    hide ParseBlocks, Get16, Get32, LongIs, WordIs, BlocksAt;
    var c := b[at..];
    if |c| >= 2 {
      match o
      case MaxSegment(mss) => if |c| >= 4 { GetAt(b, at + 2, mss); }
      case Timestamp(sender, echo) =>
        if |c| >= 10 {
          GetIs(b, at + 2, sender);
          GetIs(b, at + 6, echo);
        }
      case Sack(blocks) =>
        assert c[2..] == b[at + 2..];
        BlocksMean(b, at + 2, if c[1] >= 2 then (c[1] - 2) / 8 else 0, blocks);
      case _ =>
    }
  }

  lemma GetAt(b: seq<byte>, at: nat, n: int)
    requires at + 2 <= |b|
    ensures WordIs(b, at, n) <==> Get16(b[at], b[at + 1]) == n
  {
  }

  lemma {:induction false} AreaIs(b: seq<byte>, at: nat, acc: seq<TcpOption>, r: seq<TcpOption>)
    requires at <= |b| && |acc| <= MAX_OPTIONS
    ensures ParseOptions(b[at..], acc) == Good(r) <==>
            |acc| <= |r| <= MAX_OPTIONS && r[..|acc|] == acc && AreaMeans(b, at, r[|acc|..])
    decreases |b| - at
  {
    hide ParseOption, OptionAt, OptionSize;
    var c := b[at..];
    if at == |b| || b[at] == 0 {
      assert |r| == |acc| ==> r[..|acc|] == r;
    } else if b[at] == 1 {
      assert c[1..] == b[at + 1..];
      AreaIs(b, at + 1, acc, r);
    } else {
      AreaStep(b, at, acc, r);
    }
  }

  lemma AreaStep(b: seq<byte>, at: nat, acc: seq<TcpOption>, r: seq<TcpOption>)
    requires at < |b| && b[at] > 1 && |acc| <= MAX_OPTIONS
    ensures ParseOptions(b[at..], acc) == Good(r) <==>
            |acc| <= |r| <= MAX_OPTIONS && r[..|acc|] == acc && AreaMeans(b, at, r[|acc|..])
    decreases |b| - at, 0
  {
    hide ParseOption, OptionAt, OptionSize, ParseOptions, AreaMeans;
    var c := b[at..];
    var p := ParseOption(c);
    ParseOptionsOne(c, acc);
    AreaMeansOne(b, at, if |acc| <= |r| then r[|acc|..] else []);
    if |acc| < |r| {
      assert r[..|acc| + 1] == r[..|acc|] + [r[|acc|]];
      assert r[|acc|..][1..] == r[|acc| + 1..] && r[|acc|..][0] == r[|acc|];
      OptionMeans(b, at, r[|acc|], OptionSize(r[|acc|]));
    }
    if p.Good? && |acc| < MAX_OPTIONS {
      var (o, n) := p.value;
      assert c[n..] == b[at + n..];
      AreaIs(b, at + n, acc + [o], r);
      OptionMeans(b, at, o, n);
      assert (acc + [o])[..|acc|] == acc && (acc + [o])[|acc|] == o;
      if |acc| < |r| { assert r[..|acc| + 1][..|acc|] == r[..|acc|] && r[..|acc| + 1][|acc|] == r[|acc|]; }
    }
  }

  lemma ParseOptionsOne(c: seq<byte>, acc: seq<TcpOption>)
    requires |c| > 0 && c[0] > 1
    ensures var p := ParseOption(c);
            && (p.Bad? || |acc| >= MAX_OPTIONS ==> ParseOptions(c, acc).Bad?)
            && (p.Good? && |acc| < MAX_OPTIONS ==>
                  ParseOptions(c, acc) == ParseOptions(c[p.value.1..], acc + [p.value.0]))
  {
    hide ParseOption;
  }

  lemma AreaMeansOne(b: seq<byte>, at: nat, os: seq<TcpOption>)
    requires at < |b| && b[at] > 1
    ensures AreaMeans(b, at, os) <==>
            && os != [] && os[0] != NoOperation && (os[0].Sack? ==> 0 < |os[0].blocks| <= 4)
            && OptionAt(b, at, os[0]) && AreaMeans(b, at + OptionSize(os[0]), os[1..])
  {
    hide BlocksAt, LongIs, WordIs;
  }

  /** What the bytes of a segment say. */
  ghost predicate SegmentMeans(src: long, dst: long, b: seq<byte>, offload: bool, h: TcpHeader, data: seq<byte>) {
    && |b| >= MIN_HEADER
    && var offset := b[12] / 16 * 4;
    && MIN_HEADER <= offset <= |b| && data == b[offset..]
    && FieldsAt(b, 0, h, offset) && h.srcPort != 0 && h.dstPort != 0
    && |h.options| <= MAX_OPTIONS && AreaMeans(b[MIN_HEADER..offset], 0, h.options)
    && (offload || WordIs(b, 16, Checksum.Reference(src, dst, b)))
  }

  lemma FieldsMean(b: seq<byte>, h: TcpHeader)
    requires |b| >= MIN_HEADER
    ensures FieldsOf(b, h.options) == h <==> FieldsAt(b, 0, h, b[12] / 16 * 4)
  {
    hide Get16, Get32, WordIs, LongIs;
    GetIs(b, 0, h.srcPort);
    GetIs(b, 2, h.dstPort);
    GetIs(b, 4, h.seqNum);
    GetIs(b, 8, h.ackNum);
    GetIs(b, 14, h.window);
    GetAt(b, 18, h.urgent);
    OffsetFits(b[12]);
  }

  lemma OffsetFits(v: byte)
    ensures v / 16 * 4 % 64 == v / 16 * 4 && v / 1 == v
  {
  }

  /** The parser accepts a segment exactly if its bytes say something, and then says that. */
  lemma ParseExactly(src: long, dst: long, b: seq<byte>, offload: bool, h: TcpHeader, data: seq<byte>)
    ensures Parse(src, dst, b, offload) == Good((h, data)) <==> SegmentMeans(src, dst, b, offload, h, data)
  {
    hide ParseOptions, FieldsOf, FieldsAt, AreaMeans, Get16, WordIs, Checksum.Reference;
    if |b| >= MIN_HEADER {
      var offset := b[12] / 16 * 4;
      if MIN_HEADER <= offset <= |b| {
        var area := b[MIN_HEADER..offset];
        assert area[0..] == area;
        AreaIs(area, 0, [], h.options);
        assert h.options[0..] == h.options && h.options[..0] == [];
        FieldsMean(b, h);
        if FieldsOf(b, h.options) == h { PortsMean(b, h); }
        GetAt(b, 16, Checksum.Reference(src, dst, b));
        OptionsOf(b, ParseOptions(area, []), h);
      }
    }
  }

  lemma PortsMean(b: seq<byte>, h: TcpHeader)
    requires |b| >= MIN_HEADER && FieldsOf(b, h.options) == h
    ensures Get16(b[0], b[1]) == h.srcPort && Get16(b[2], b[3]) == h.dstPort
  {
    hide Get16, Get32;
  }

  lemma OptionsOf(b: seq<byte>, p: Parsed<seq<TcpOption>>, h: TcpHeader)
    requires |b| >= MIN_HEADER
    ensures p.Good? ==> (FieldsOf(b, p.value) == h <==> FieldsOf(b, h.options) == h && p.value == h.options)
  {
    hide Get16, Get32;
  }

  /** The parser as it runs: the checksum loop, then the cursor loop. */
  method ParseSegment(src: long, dst: long, b: seq<byte>, offload: bool) returns (r: Parsed<(TcpHeader, seq<byte>)>)
    requires |b| < 0x1_0000
    ensures r == Parse(src, dst, b, offload)
    ensures r.Good? ==> SegmentMeans(src, dst, b, offload, r.value.0, r.value.1)
  {
    if |b| < MIN_HEADER {
      return Bad(Malformed);
    }
    var offset := b[12] / 16 * 4;
    if |b| < offset {
      return Bad(Malformed);
    }
    if offset < MIN_HEADER {
      return Bad(Malformed);
    }
    assert offset <= MAX_HEADER;
    var header, data := b[..offset], b[offset..];
    if Get16(header[0], header[1]) == 0 {
      return Bad(OutOfRange);
    }
    if Get16(header[2], header[3]) == 0 {
      return Bad(OutOfRange);
    }
    if !offload {
      assert header + data == b;
      var checksum := Checksum.TcpChecksum(src, dst, header, data);
      if Get16(header[16], header[17]) != checksum {
        return Bad(Malformed);
      }
    }
    var options: seq<TcpOption> := [];
    if offset > MIN_HEADER {
      var scanned := ScanOptions(b[MIN_HEADER..offset]);
      if scanned.Bad? {
        return Bad(scanned.fault);
      }
      options := scanned.value;
    }
    r := Good((FieldsOf(b, options), data));
    ParseExactly(src, dst, b, offload, r.value.0, r.value.1);
  }

  // ---------------------------------------------------------------------------
  // Round trip
  // ---------------------------------------------------------------------------

  lemma FlagsRoundTrip(h: TcpHeader)
    ensures var b := FlagByte(h);
            && (b / 128 % 2 != 0) == h.cwr && (b / 64 % 2 != 0) == h.ece && (b / 32 % 2 != 0) == h.urg
            && (b / 16 % 2 != 0) == h.ack && (b / 8 % 2 != 0) == h.psh && (b / 4 % 2 != 0) == h.rst
            && (b / 2 % 2 != 0) == h.syn && (b % 2 != 0) == h.fin
  {
    var b7 := Bit(h.cwr);
    var b6 := 2 * b7 + Bit(h.ece);
    var b5 := 2 * b6 + Bit(h.urg);
    var b4 := 2 * b5 + Bit(h.ack);
    var b3 := 2 * b4 + Bit(h.psh);
    var b2 := 2 * b3 + Bit(h.rst);
    var b1 := 2 * b2 + Bit(h.syn);
    assert FlagByte(h) == 2 * b1 + Bit(h.fin);
    hide FlagByte, Bit;
    var b := FlagByte(h);
    Peel(b, h.fin, b1);
    Peel(b1, h.syn, b2);
    Peel(b2, h.rst, b3);
    Peel(b3, h.psh, b4);
    Peel(b4, h.ack, b5);
    Peel(b5, h.urg, b6);
    Peel(b6, h.ece, b7);
    Shifts(b);
    TopBit(h.cwr);
  }

  lemma Peel(b: nat, x: bool, rest: nat)
    requires b == 2 * rest + Bit(x)
    ensures b / 2 == rest && (b % 2 != 0) == x
  {
  }

  lemma TopBit(x: bool)
    ensures (Bit(x) % 2 != 0) == x
  {
  }

  lemma Shifts(b: nat)
    ensures b / 4 == b / 2 / 2 && b / 8 == b / 4 / 2 && b / 16 == b / 8 / 2
    ensures b / 32 == b / 16 / 2 && b / 64 == b / 32 / 2 && b / 128 == b / 64 / 2
  {
  }

  lemma OffsetRoundTrip(h: TcpHeader)
    ensures OffsetByte(h) / 16 * 4 == HeaderSize(h.options) % 64
    ensures (OffsetByte(h) % 2 != 0) == h.ns
  {
    hide HeaderSize;
    var n := HeaderSize(h.options) / 4;
    assert HeaderSize(h.options) == 4 * n;
    OffsetArith(n, Bit(h.ns));
  }

  lemma OffsetArith(n: nat, x: nat)
    requires x <= 1
    ensures (n % 16 * 16 + x) / 16 == n % 16 && (n % 16 * 16 + x) % 2 == x
    ensures 4 * n % 64 == n % 16 * 4
  {
    var q, m := n / 16, n % 16;
    assert n == 16 * q + m;
    assert 4 * n == 64 * q + 4 * m;
  }

  lemma FieldsRoundTrip(h: TcpHeader, checksum: word, tail: seq<byte>, options: seq<TcpOption>)
    requires WellTyped(h)
    ensures FieldsOf(FixedBytes(h, checksum) + tail, options) == h.(options := options)
    ensures var b := FixedBytes(h, checksum) + tail;
            Get16(b[0], b[1]) == h.srcPort && Get16(b[2], b[3]) == h.dstPort && Get16(b[16], b[17]) == checksum
            && b[12] == OffsetByte(h)
  {
    hide Get16, Get32, Byte3, Byte2, Hi16, Lo8, OffsetByte, FlagByte, HeaderSize;
    RoundTrip16(h.srcPort);
    RoundTrip16(h.dstPort);
    RoundTrip32(h.seqNum);
    RoundTrip32(h.ackNum);
    RoundTrip16(h.window);
    RoundTrip16(h.urgent);
    RoundTrip16(checksum);
    FlagsRoundTrip(h);
    OffsetRoundTrip(h);
  }

  // ---------------------------------------------------------------------------
  // What the writer leaves
  // ---------------------------------------------------------------------------

  lemma OptionMoves(a: seq<byte>, b: seq<byte>, d: nat, at: nat, o: TcpOption)
    requires Holds(b, d, a) && OptionAt(a, at, o)
    ensures OptionAt(b, d + at, o)
  {
    hide WordIs, LongIs;
    forall i: nat | i < |a| ensures b[d + i] == a[i] { assert b[d..d + |a|][i] == a[i]; }
    match o
    case MaxSegment(mss) => NumberMoves(a, b, d, at + 2, mss);
    case Timestamp(sender, echo) =>
      NumberMoves(a, b, d, at + 2, sender);
      NumberMoves(a, b, d, at + 6, echo);
    case Sack(blocks) =>
      forall i | 0 <= i < |blocks|
        ensures LongIs(b, d + at + 2 + 8 * i, blocks[i].begin) && LongIs(b, d + at + 2 + 8 * i + 4, blocks[i].end)
      {
        NumberMoves(a, b, d, at + 2 + 8 * i, blocks[i].begin);
        NumberMoves(a, b, d, at + 2 + 8 * i + 4, blocks[i].end);
      }
    case _ =>
  }

  lemma {:induction false} OptionsMove(a: seq<byte>, b: seq<byte>, d: nat, at: nat, os: seq<TcpOption>)
    requires Holds(b, d, a) && OptionsAt(a, at, os)
    ensures OptionsAt(b, d + at, os)
    decreases |os|
  {
    hide OptionAt, OptionSize, Holds;
    if os != [] {
      OptionMoves(a, b, d, at, os[0]);
      OptionsMove(a, b, d, at + OptionSize(os[0]), os[1..]);
    }
  }

  lemma {:induction false} BlocksWritten(bs: seq<Block>, pre: seq<byte>)
    ensures BlocksAt(pre + BlockBytes(bs), |pre|, bs)
    decreases |bs|
  {
    hide LongIs, Put32, BlocksAt;
    if bs == [] {
      NoBlocks(pre + BlockBytes(bs), |pre|);
    } else {
      var b, rest := pre + BlockBytes(bs), BlockBytes(bs[1..]);
      var first := Put32(bs[0].begin) + Put32(bs[0].end);
      assert b == (pre + first) + rest;
      BlocksWritten(bs[1..], pre + first);
      BlockWritten(pre, bs[0], rest);
      BlocksSplit(b, |pre|, bs);
    }
  }

  lemma BlockWritten(pre: seq<byte>, x: Block, rest: seq<byte>)
    ensures var b := pre + (Put32(x.begin) + Put32(x.end)) + rest;
            LongIs(b, |pre|, x.begin) && LongIs(b, |pre| + 4, x.end)
  {
    hide LongIs, Put32;
    var b := pre + (Put32(x.begin) + Put32(x.end)) + rest;
    LongWritten(x.begin);
    LongWritten(x.end);
    assert b[|pre|..|pre| + 4] == Put32(x.begin) && b[|pre| + 4..|pre| + 8] == Put32(x.end);
    NumberMoves(Put32(x.begin), b, |pre|, 0, x.begin);
    NumberMoves(Put32(x.end), b, |pre| + 4, 0, x.end);
  }

  lemma NoBlocks(b: seq<byte>, at: nat)
    ensures BlocksAt(b, at, [])
  {
  }

  lemma LongWritten(x: long)
    ensures LongIs(Put32(x), 0, x)
  {
    hide Get32, Byte2, Byte3, Hi16, Lo8, LongIs;
    RoundTrip32(x);
    GetIs(Put32(x), 0, x);
  }

  lemma WordWritten(x: word)
    ensures WordIs(Put16(x), 0, x)
  {
    hide Get16, Hi16, Lo8, WordIs;
    RoundTrip16(x);
    GetAt(Put16(x), 0, x);
  }

  lemma OptionWritten(o: TcpOption)
    requires o.Sack? ==> |o.blocks| <= 4
    ensures OptionAt(OptionBytes(o), 0, o)
  {
    hide WordIs, LongIs, BlocksAt, Put16, Put32, BlockBytes;
    var b := OptionBytes(o);
    match o
    case MaxSegment(mss) =>
      WordWritten(mss);
      assert b[2..4] == Put16(mss);
      NumberMoves(Put16(mss), b, 2, 0, mss);
    case Timestamp(sender, echo) =>
      LongWritten(sender);
      LongWritten(echo);
      assert b[2..6] == Put32(sender) && b[6..10] == Put32(echo);
      NumberMoves(Put32(sender), b, 2, 0, sender);
      NumberMoves(Put32(echo), b, 6, 0, echo);
    case Sack(blocks) => BlocksWritten(blocks, [5, (2 + 8 * |blocks|) % 256]);
    case _ =>
  }

  lemma {:induction false} OptionsWritten(os: seq<TcpOption>)
    requires forall i :: 0 <= i < |os| && os[i].Sack? ==> |os[i].blocks| <= 4
    ensures OptionsAt(OptionsBytes(os), 0, os)
  {
    hide OptionBytes, OptionAt, OptionSize;
    if os != [] {
      var first, rest := OptionBytes(os[0]), OptionsBytes(os[1..]);
      OptionWritten(os[0]);
      OptionsWritten(os[1..]);
      assert (first + rest)[..|first|] == first && (first + rest)[|first|..] == rest;
      OptionMoves(first, first + rest, 0, 0, os[0]);
      OptionsMove(rest, first + rest, |first|, 0, os[1..]);
    }
  }

  /** A written header: every field at its place, the options in order, an end mark and zeros. */
  ghost predicate HeaderAt(b: seq<byte>, at: nat, h: TcpHeader, checksum: int) {
    && at + HeaderSize(h.options) <= |b|
    && FieldsAt(b, at, h, HeaderSize(h.options)) && WordIs(b, at + 16, checksum)
    && OptionsAt(b, at + MIN_HEADER, h.options)
    && forall i :: at + MIN_HEADER + OptionsSize(h.options) <= i < at + HeaderSize(h.options) ==> b[i] == 0
  }

  lemma HeaderWritten(h: TcpHeader, checksum: word)
    requires WellTyped(h)
    ensures HeaderAt(HeaderBytes(h, checksum), 0, h, checksum)
  {
    hide HeaderBytes, HeaderSize, FieldsAt, OptionsAt, OptionsSize, WordIs;
    FixedWritten(h, checksum);
    AreaWritten(h, checksum);
  }

  lemma FixedWritten(h: TcpHeader, checksum: word)
    requires WellTyped(h)
    ensures var b := HeaderBytes(h, checksum); FieldsAt(b, 0, h, HeaderSize(h.options)) && WordIs(b, 16, checksum)
  {
    hide FixedBytes, OptionArea, OffsetByte, HeaderSize, FieldsOf, FieldsAt, Get16, WordIs;
    var b := HeaderBytes(h, checksum);
    FieldsRoundTrip(h, checksum, OptionArea(h.options), h.options);
    OffsetRoundTrip(h);
    FieldsMean(b, h);
    SameOffset(b, h);
    GetAt(b, 16, checksum);
  }

  lemma AreaWritten(h: TcpHeader, checksum: word)
    requires WellTyped(h)
    ensures var b := HeaderBytes(h, checksum);
            && OptionsAt(b, MIN_HEADER, h.options)
            && forall i :: MIN_HEADER + OptionsSize(h.options) <= i < |b| ==> b[i] == 0
  {
    hide FixedBytes, HeaderSize, OptionsBytes, OptionsSize, OptionsAt;
    var b := HeaderBytes(h, checksum);
    OptionsWritten(h.options);
    assert b[MIN_HEADER..MIN_HEADER + OptionsSize(h.options)] == OptionsBytes(h.options);
    OptionsMove(OptionsBytes(h.options), b, MIN_HEADER, 0, h.options);
  }

  lemma SameOffset(b: seq<byte>, h: TcpHeader)
    requires |b| >= MIN_HEADER && FieldsAt(b, 0, h, b[12] / 16 * 4) && b[12] / 16 * 4 == HeaderSize(h.options) % 64
    ensures FieldsAt(b, 0, h, HeaderSize(h.options))
  {
    hide WordIs, LongIs, HeaderSize;
  }

  /** The checksum that was written is the checksum of what was written. */
  lemma ChecksumMatches(h: TcpHeader, src: long, dst: long, data: seq<byte>)
    ensures var b := SegmentBytes(h, src, dst, data, false);
            |b| >= MIN_HEADER && WrittenChecksum(h, src, dst, data, false) == Checksum.Reference(src, dst, b)
  {
    hide OptionArea, OffsetByte, FlagByte, Byte2, Byte3, Hi16, Lo8;
    var c := WrittenChecksum(h, src, dst, data, false);
    var a, b := HeaderBytes(h, 0) + data, SegmentBytes(h, src, dst, data, false);
    assert a[..16] == FixedBytes(h, 0)[..16] && b[..16] == FixedBytes(h, c)[..16];
    assert a[18..] == FixedBytes(h, 0)[18..] + OptionArea(h.options) + data;
    assert b[18..] == FixedBytes(h, c)[18..] + OptionArea(h.options) + data;
    Checksum.FieldIsNotCovered(src, dst, a, b);
  }

  lemma AreaRoundTrip(os: seq<TcpOption>)
    requires |os| <= MAX_OPTIONS
    requires forall i :: 0 <= i < |os| && os[i].Sack? ==> |os[i].blocks| <= 4
    ensures ParseOptions(OptionArea(os), []) == if AllReadable(os) then Good(WithoutPadding(os)) else Bad(Malformed)
  {
    hide OptionsBytes, ParseOptions, AllReadable;
    var end := if os == [] then [] else [0];
    var pad: seq<byte> := seq(HeaderSize(os) - MIN_HEADER - |OptionsBytes(os) + end|, _ => 0);
    assert OptionArea(os) == OptionsBytes(os) + (end + pad);
    OptionsRoundTrip(os, end + pad, []);
    assert [] + WithoutPadding(os) == WithoutPadding(os);
  }

  /**
   * Whether the checksum field passes: the sender wrote it, the receiving card checks it, or the zero
   * left for the sending card happens to be the checksum.
   */
  ghost predicate Vouched(h: TcpHeader, src: long, dst: long, data: seq<byte>, tx: bool, rx: bool) {
    rx || !tx || Checksum.Reference(src, dst, SegmentBytes(h, src, dst, data, tx)) == 0
  }

  /**
   * A header that fits is parsed back, data and all, if its checksum field passes; padding options are
   * gone, empty SACK options are refused.
   */
  lemma ParseWritten(h: TcpHeader, src: long, dst: long, data: seq<byte>, tx: bool, rx: bool)
    requires WellTyped(h) && HeaderSize(h.options) <= MAX_HEADER
    ensures Vouched(h, src, dst, data, tx, rx) && AllReadable(h.options) ==>
              Parse(src, dst, SegmentBytes(h, src, dst, data, tx), rx)
              == Good((h.(options := WithoutPadding(h.options)), data))
    ensures !(Vouched(h, src, dst, data, tx, rx) && AllReadable(h.options)) ==>
              Parse(src, dst, SegmentBytes(h, src, dst, data, tx), rx) == Bad(Malformed)
  {
    hide OptionArea, OffsetByte, FlagByte, FieldsOf, ParseOptions, AllReadable, FixedBytes, WrittenChecksum, HeaderSize,
         Get16;
    var c := WrittenChecksum(h, src, dst, data, tx);
    var b, area, size := SegmentBytes(h, src, dst, data, tx), OptionArea(h.options), HeaderSize(h.options);
    assert b == FixedBytes(h, c) + (area + data);
    FieldsRoundTrip(h, c, area + data, WithoutPadding(h.options));
    OffsetRoundTrip(h);
    assert b[MIN_HEADER..size] == area;
    assert b[size..] == data;
    AreaRoundTrip(h.options);
    if tx { Offloaded(h, src, dst, data); } else { ChecksumMatches(h, src, dst, data); }
  }

  lemma Offloaded(h: TcpHeader, src: long, dst: long, data: seq<byte>)
    ensures WrittenChecksum(h, src, dst, data, true) == 0
  {
  }

  /** A header that does not fit comes back with another amount of data, if at all. */
  lemma ParseOversized(h: TcpHeader, src: long, dst: long, data: seq<byte>, tx: bool, rx: bool)
    requires WellTyped(h) && HeaderSize(h.options) > MAX_HEADER
    ensures var r := Parse(src, dst, SegmentBytes(h, src, dst, data, tx), rx);
            r.Good? ==> |r.value.1| > |data|
  {
    hide OptionArea, OffsetByte, FlagByte, FieldsOf, ParseOptions, FixedBytes, WrittenChecksum, Get16, HeaderSize;
    var c := WrittenChecksum(h, src, dst, data, tx);
    var b := SegmentBytes(h, src, dst, data, tx);
    assert b == FixedBytes(h, c) + (OptionArea(h.options) + data);
    FieldsRoundTrip(h, c, OptionArea(h.options) + data, []);
    OffsetRoundTrip(h);
  }

  /**
   * Writing and parsing a segment are inverse exactly for headers of at most 60 bytes without padding
   * options and without empty SACK options whose checksum field passes.
   */
  lemma RoundTrip(h: TcpHeader, src: long, dst: long, data: seq<byte>, tx: bool, rx: bool)
    requires WellTyped(h)
    ensures Parse(src, dst, SegmentBytes(h, src, dst, data, tx), rx) == Good((h, data))
            <==> && HeaderSize(h.options) <= MAX_HEADER && NoOperation !in h.options && AllReadable(h.options)
                 && Vouched(h, src, dst, data, tx, rx)
  {
    hide Parse, SegmentBytes, HeaderSize, AllReadable, Vouched;
    NothingLost(h.options);
    if HeaderSize(h.options) <= MAX_HEADER {
      ParseWritten(h, src, dst, data, tx, rx);
    } else {
      ParseOversized(h, src, dst, data, tx, rx);
    }
  }

  // ---------------------------------------------------------------------------
  // Corruption
  // ---------------------------------------------------------------------------

  /**
   * A segment that parsed, with one 16-bit word changed: it is refused unless the change is one the
   * checksum cannot see. In the data, that is exactly when it is refused.
   */
  lemma CorruptionIsRefused(src: long, dst: long, a: seq<byte>, b: seq<byte>, i: nat)
    requires Parse(src, dst, a, false).Good? && Checksum.OneWord(a, b, i)
    requires Checksum.WordAt(a, i) != Checksum.WordAt(b, i)
    ensures i == 16 ==> Parse(src, dst, b, false).Bad?
    ensures i != 16 && (Checksum.WordAt(b, i) - Checksum.WordAt(a, i)) % 0xffff != 0 ==> Parse(src, dst, b, false).Bad?
    ensures i >= DataOffset(a).value ==>
              (Parse(src, dst, b, false).Bad? <==> (Checksum.WordAt(b, i) - Checksum.WordAt(a, i)) % 0xffff != 0)
  {
    hide ParseOptions, FieldsOf, Get16, Checksum.WordAt;
    if i == 16 {
      assert a[18..] == a[i + 2..] && b[18..] == b[i + 2..];
      Checksum.FieldIsNotCovered(src, dst, a, b);
      FieldWord(a, b);
    } else {
      Checksum.ChangeIsSeen(src, dst, a, b, i);
      if i < 16 {
        assert a[16] == a[i + 2..][16 - i - 2] && b[16] == b[i + 2..][16 - i - 2];
        assert a[17] == a[i + 2..][17 - i - 2] && b[17] == b[i + 2..][17 - i - 2];
      } else {
        assert a[16] == a[..i][16] && b[16] == b[..i][16] && a[17] == a[..i][17] && b[17] == b[..i][17];
      }
      if i >= DataOffset(a).value { SameHeader(a, b, i); }
    }
  }

  lemma FieldWord(a: seq<byte>, b: seq<byte>)
    requires |a| == |b| >= MIN_HEADER && Checksum.WordAt(a, 16) != Checksum.WordAt(b, 16)
    ensures Get16(a[16], a[17]) != Get16(b[16], b[17])
  {
  }

  lemma SameHeader(a: seq<byte>, b: seq<byte>, i: nat)
    requires Checksum.OneWord(a, b, i) && DataOffset(a).Good? && i >= DataOffset(a).value
    ensures DataOffset(b) == DataOffset(a)
    ensures Get16(a[0], a[1]) == Get16(b[0], b[1]) && Get16(a[2], a[3]) == Get16(b[2], b[3])
    ensures a[MIN_HEADER..DataOffset(a).value] == b[MIN_HEADER..DataOffset(a).value]
  {
    var n := DataOffset(a).value;
    assert a[..n] == a[..i][..n] && b[..n] == b[..i][..n];
    forall k | 0 <= k < n ensures a[k] == b[k] {
      assert a[k] == a[..n][k] && b[k] == b[..n][k];
    }
  }
}
