/** Big-endian integers in byte sequences. */
module Bytes {
  type byte = x: nat | x < 256

  newtype u32 = x: int | 0 <= x < 0x1_0000_0000

  function Get16(hi: byte, lo: byte): (r: nat)
    ensures r < 0x1_0000
  {
    hi * 256 + lo
  }

  function Get32(a: byte, b: byte, c: byte, d: byte): (r: nat)
    ensures r < 0x1_0000_0000
  {
    ((a * 256 + b) * 256 + c) * 256 + d
  }

  /** Byte `i` of a number, counted from the least significant one. */
  function Hi16(x: nat): byte { (x / 256) % 256 }
  function Lo8(x: nat): byte { x % 256 }
  function Byte2(x: nat): byte { (x / 0x1_0000) % 256 }
  function Byte3(x: nat): byte { (x / 0x100_0000) % 256 }

  function Put16(x: nat): (r: seq<byte>)
    ensures |r| == 2
  {
    [Hi16(x), Lo8(x)]
  }

  function Put32(x: nat): (r: seq<byte>)
    ensures |r| == 4
  {
    [Byte3(x), Byte2(x), Hi16(x), Lo8(x)]
  }

  /** The two bytes at `at` are the number `n`, most significant byte first. */
  predicate WordIs(b: seq<byte>, at: nat, n: int) {
    at + 2 <= |b| && 0x100 * (b[at] as int) + b[at + 1] == n
  }

  /** The four bytes at `at` are the number `n`, most significant byte first. */
  predicate LongIs(b: seq<byte>, at: nat, n: int) {
    && at + 4 <= |b|
    && 0x100_0000 * (b[at] as int) + 0x1_0000 * (b[at + 1] as int) + 0x100 * (b[at + 2] as int) + b[at + 3] == n
  }

  /** `b` holds the bytes `a` from position `d` on. */
  predicate Holds(b: seq<byte>, d: nat, a: seq<byte>) {
    d + |a| <= |b| && b[d..d + |a|] == a
  }

  lemma NumberMoves(a: seq<byte>, b: seq<byte>, d: nat, at: nat, n: int)
    requires Holds(b, d, a)
    ensures WordIs(a, at, n) ==> WordIs(b, d + at, n)
    ensures LongIs(a, at, n) ==> LongIs(b, d + at, n)
  {
    forall i: nat | i < |a| ensures b[d + i] == a[i] { assert b[d..d + |a|][i] == a[i]; }
  }

  lemma GetIs(b: seq<byte>, at: nat, n: int)
    requires at + 4 <= |b|
    ensures WordIs(b, at, n) <==> Get16(b[at], b[at + 1]) == n
    ensures LongIs(b, at, n) <==> Get32(b[at], b[at + 1], b[at + 2], b[at + 3]) == n
  {
  }

  /** Writing and reading a 16-bit value; what does not fit is cut off. */
  lemma RoundTrip16(x: nat)
    ensures Get16(Hi16(x), Lo8(x)) == x % 0x1_0000
  {
    var q := x / 256;
    assert x == q * 256 + x % 256;
    assert q == (q / 256) * 256 + q % 256;
  }

  lemma RoundTrip32(x: nat)
    requires x < 0x1_0000_0000
    ensures Get32(Byte3(x), Byte2(x), Hi16(x), Lo8(x)) == x
  {
    var q := x / 256;
    assert x == q * 256 + x % 256;
    var p := q / 256;
    assert q == p * 256 + q % 256;
    assert p == x / 0x1_0000;
    var o := p / 256;
    assert p == o * 256 + p % 256;
    assert o == x / 0x100_0000;
  }
}

/** The Internet checksum of a TCP segment. */
module Checksum {
  import opened Bytes

  const TCP_PROTOCOL: nat := 6
  const FIXED: nat := 20

  // ---------------------------------------------------------------------------
  // Reference: one's-complement addition with end-around carry (section 1 of RFC 1071)
  // ---------------------------------------------------------------------------

  /** The 16-bit words of a byte sequence; an odd last byte is padded with a zero byte. */
  function Words(b: seq<byte>): seq<nat> {
    if |b| == 0 then []
    else if |b| == 1 then [Get16(b[0], 0)]
    else [Get16(b[0], b[1])] + Words(b[2..])
  }

  /** Add one 16-bit word and put the carry back in at the bottom. */
  function AddCarry(a: nat, w: nat): nat {
    (a + w) % 0x1_0000 + (a + w) / 0x1_0000
  }

  function OnesSum(ws: seq<nat>): nat {
    if ws == [] then 0 else AddCarry(OnesSum(ws[..|ws| - 1]), ws[|ws| - 1])
  }

  /** What the checksum covers: the pseudo header, then the segment with its checksum field taken as zero. */
  function Covered(src: nat, dst: nat, segment: seq<byte>): seq<byte>
    requires |segment| >= FIXED
  {
    Put32(src) + Put32(dst) + [0, 6] + Put16(|segment|) + segment[..16] + [0, 0] + segment[18..]
  }

  /** The checksum by its definition. */
  function Reference(src: nat, dst: nat, segment: seq<byte>): int
    requires |segment| >= FIXED
  {
    0xffff - OnesSum(Words(Covered(src, dst, segment)))
  }

  // ---------------------------------------------------------------------------
  // Plain sums and what folding them means
  // ---------------------------------------------------------------------------

  function Sum(ws: seq<nat>): nat {
    if ws == [] then 0 else ws[0] + Sum(ws[1..])
  }

  lemma {:induction false} SumAppend(a: seq<nat>, b: seq<nat>)
    ensures Sum(a + b) == Sum(a) + Sum(b)
  {
    if a == [] {
      assert a + b == b;
    } else {
      assert (a + b)[1..] == a[1..] + b;
      SumAppend(a[1..], b);
    }
  }

  lemma {:induction false} WordsAppend(a: seq<byte>, b: seq<byte>)
    requires |a| % 2 == 0
    ensures Words(a + b) == Words(a) + Words(b)
  {
    if |a| == 0 {
      assert a + b == b;
    } else {
      assert (a + b)[2..] == a[2..] + b;
      WordsAppend(a[2..], b);
    }
  }

  lemma {:induction false} WordsBound(b: seq<byte>)
    ensures |Words(b)| == (|b| + 1) / 2
    ensures forall i :: 0 <= i < |Words(b)| ==> Words(b)[i] < 0x1_0000
    ensures Sum(Words(b)) <= 0xffff * ((|b| + 1) / 2)
  {
    if |b| >= 2 {
      WordsBound(b[2..]);
      var rest := Words(b[2..]);
      assert Words(b)[1..] == rest;
      forall i | 0 <= i < |Words(b)| ensures Words(b)[i] < 0x1_0000 {
        if i > 0 { assert Words(b)[i] == rest[i - 1]; }
      }
    } else if |b| == 1 {
      assert Words(b)[1..] == [];
    }
  }

  /** Reduce a positive sum to 1..0xffff, modulo 0xffff. */
  function Fold(x: nat): (r: nat)
    requires x > 0
    ensures 1 <= r <= 0xffff
  {
    (x - 1) % 0xffff + 1
  }

  lemma FoldStep(x: nat)
    requires x > 0
    ensures Fold(x + 0xffff) == Fold(x)
  {
    assert (x - 1 + 0xffff) % 0xffff == (x - 1) % 0xffff;
  }

  lemma FoldFixed(x: nat)
    requires 0 < x <= 0xffff
    ensures Fold(x) == x
  {
  }

  lemma AddCarryFolds(a: nat, w: nat)
    requires a <= 0xffff && w <= 0xffff && a + w > 0
    ensures AddCarry(a, w) == Fold(a + w)
  {
    if a + w <= 0xffff {
      FoldFixed(a + w);
    } else {
      FoldStep(a + w - 0xffff);
      FoldFixed(a + w - 0xffff);
      assert (a + w) / 0x1_0000 == 1;
    }
  }

  lemma NoCarry()
    ensures AddCarry(0, 0) == 0
  {
  }

  lemma FoldAdd(x: nat, w: nat)
    requires x > 0
    ensures Fold(Fold(x) + w) == Fold(x + w)
  {
    var q := (x - 1) / 0xffff;
    assert x == q * 0xffff + Fold(x);
    FoldMany(Fold(x) + w, q);
  }

  lemma {:induction false} FoldMany(x: nat, q: nat)
    requires x > 0
    ensures Fold(q * 0xffff + x) == Fold(x)
  {
    if q > 0 {
      FoldMany(x, q - 1);
      FoldStep((q - 1) * 0xffff + x);
    }
  }

  /** The end-around sum is the plain sum folded; it is zero only for all-zero words. */
  lemma {:induction false} OnesSumFolds(ws: seq<nat>)
    requires forall i :: 0 <= i < |ws| ==> ws[i] <= 0xffff
    ensures OnesSum(ws) <= 0xffff
    ensures Sum(ws) == 0 ==> OnesSum(ws) == 0
    ensures Sum(ws) > 0 ==> OnesSum(ws) == Fold(Sum(ws))
  {
    hide Fold, AddCarry;
    if ws != [] {
      var n := |ws| - 1;
      var front, w := ws[..n], ws[n];
      OnesSumFolds(front);
      assert AddCarry(0, 0) == 0 by { NoCarry(); }
      assert ws == front + [w];
      SumAppend(front, [w]);
      assert Sum([w]) == w;
      if Sum(front) > 0 {
        AddCarryFolds(OnesSum(front), w);
        FoldAdd(Sum(front), w);
      } else if w > 0 {
        AddCarryFolds(0, w);
      }
    }
  }

  /** Two positive sums fold to the same word exactly when they are congruent modulo 0xffff. */
  lemma FoldEqual(x: nat, y: nat)
    requires x > 0 && y > 0
    ensures Fold(x) == Fold(y) <==> (x - y) % 0xffff == 0
  {
    var a, b := x - 1, y - 1;
    assert a == 0xffff * (a / 0xffff) + a % 0xffff;
    assert b == 0xffff * (b / 0xffff) + b % 0xffff;
    var d := a / 0xffff - b / 0xffff;
    assert x - y == 0xffff * d + (a % 0xffff - b % 0xffff);
    ModShift(a % 0xffff - b % 0xffff, d);
  }

  lemma ModShift(e: int, d: int)
    requires -0xffff < e < 0xffff
    ensures (0xffff * d + e) % 0xffff == 0 <==> e == 0
  {
    assert (0xffff * d + e) % 0xffff == e % 0xffff;
  }

  // ---------------------------------------------------------------------------
  // The loop
  // ---------------------------------------------------------------------------

  /** The sum of everything the checksum covers, without the start value. */
  function Total(src: nat, dst: nat, segment: seq<byte>): nat
    requires |segment| >= FIXED
  {
    Sum(Words(Covered(src, dst, segment)))
  }

  lemma SumJoin(a: seq<byte>, b: seq<byte>)
    requires |a| % 2 == 0
    ensures Sum(Words(a + b)) == Sum(Words(a)) + Sum(Words(b))
  {
    WordsAppend(a, b);
    SumAppend(Words(a), Words(b));
  }

  lemma PairSum(hi: byte, lo: byte)
    ensures Sum(Words([hi, lo])) == Get16(hi, lo)
  {
    assert Words([hi, lo])[1..] == [];
  }

  /** The total, part by part; the protocol number keeps it above zero. */
  lemma TotalParts(src: nat, dst: nat, segment: seq<byte>)
    requires |segment| >= FIXED
    ensures Total(src, dst, segment) == Sum(Words(Put32(src))) + Sum(Words(Put32(dst))) + 6
                + Sum(Words(Put16(|segment|))) + Sum(Words(segment[..16])) + Sum(Words(segment[18..]))
  {
    hide Words, Sum, Put32, Put16;
    var s6 := [0, 0] + segment[18..];
    var s5 := segment[..16] + s6;
    var s4 := Put16(|segment|) + s5;
    var s3 := [0, 6] + s4;
    var s2 := Put32(dst) + s3;
    assert Covered(src, dst, segment) == Put32(src) + s2;
    SumJoin(Put32(src), s2);
    SumJoin(Put32(dst), s3);
    SumJoin([0, 6], s4);
    SumJoin(Put16(|segment|), s5);
    SumJoin(segment[..16], s6);
    SumJoin([0, 0], segment[18..]);
    PairSum(0, 6);
    PairSum(0, 0);
  }

  /** Add the 16-bit words of `b`, two bytes at a time; an odd last byte counts as the high byte of a word. */
  method AddChunks(start: u32, b: seq<byte>) returns (state: u32)
    requires start as int + 0xffff * ((|b| + 1) / 2) < 0x1_0000_0000
    ensures state as int == start as int + Sum(Words(b))
  {
    state := start;
    var i := 0;
    WordsBound(b);
    while i + 1 < |b|
      invariant 0 <= i <= |b| && i % 2 == 0
      invariant state as int + Sum(Words(b[i..])) == start as int + Sum(Words(b))
    {
      assert b[i..][2..] == b[i + 2..];
      assert Words(b[i..])[1..] == Words(b[i + 2..]);
      state := state + (Get16(b[i], b[i + 1]) as u32);
      i := i + 2;
    }
    if i < |b| {
      assert b[i..] == [b[i]];
      assert Words(b[i..]) == [Get16(b[i], 0)];
      state := state + (Get16(b[i], 0) as u32);
    }
  }

  lemma FirstWords(b: seq<byte>, rest: seq<byte>)
    requires |b| >= 2 && rest == b[2..]
    ensures Sum(Words(b)) == Get16(b[0], b[1]) + Sum(Words(rest))
  {
    assert Words(b)[1..] == Words(rest);
  }

  /** The sum of the words of a pair of bytes and of a four-byte address. */
  lemma ShortWords(x: nat)
    ensures Sum(Words(Put16(x))) == Get16(Hi16(x), Lo8(x))
    ensures Sum(Words(Put32(x))) == Get16(Byte3(x), Byte2(x)) + Get16(Hi16(x), Lo8(x))
  {
    FirstWords(Put16(x), []);
    FirstWords(Put32(x), [Hi16(x), Lo8(x)]);
    FirstWords([Hi16(x), Lo8(x)], []);
  }

  lemma FixedWords(h: seq<byte>)
    requires |h| >= 16
    ensures Sum(Words(h[..16])) ==
              Get16(h[0], h[1]) + Get16(h[2], h[3]) + Get16(h[4], h[5]) + Get16(h[6], h[7])
              + Get16(h[8], h[9]) + Get16(h[10], h[11]) + Get16(h[12], h[13]) + Get16(h[14], h[15])
  {
    hide Get16;
    FirstWords(h[..16], h[2..16]);
    FirstWords(h[2..16], h[4..16]);
    FirstWords(h[4..16], h[6..16]);
    FirstWords(h[6..16], h[8..16]);
    FirstWords(h[8..16], h[10..16]);
    FirstWords(h[10..16], h[12..16]);
    FirstWords(h[12..16], h[14..16]);
    FirstWords(h[14..16], []);
  }

  /** Everything behind the checksum field: the urgent pointer, the options and the data. */
  lemma TailWords(header: seq<byte>, data: seq<byte>)
    requires |header| >= FIXED && |header| % 2 == 0
    ensures Sum(Words((header + data)[18..])) ==
              Get16(header[18], header[19]) + Sum(Words(header[FIXED..])) + Sum(Words(data))
  {
    hide Get16;
    var t := (header + data)[18..];
    assert t == [header[18], header[19]] + (header[FIXED..] + data);
    FirstWords(t, header[FIXED..] + data);
    WordsAppend(header[FIXED..], data);
    SumAppend(Words(header[FIXED..]), Words(data));
  }

  /** The last loop: take 0xffff away until the sum fits 16 bits. */
  method Reduce(start: u32) returns (state: u32)
    requires start > 0
    ensures state as int == Fold(start as int)
  {
    state := start;
    while state > 0xffff
      invariant state > 0 && Fold(state as int) == Fold(start as int)
    {
      FoldStep(state as int - 0xffff);
      state := state - 0xffff;
    }
    FoldFixed(state as int);
  }

  /** The words of the pseudo header and of the fixed header, added one by one to the start value 0xffff. */
  method AddFixed(src: nat, dst: nat, h: seq<byte>, length: nat) returns (state: u32)
    requires FIXED <= |h| && length < 0x1_0000
    ensures state as int == 0xffff + Sum(Words(Put32(src))) + Sum(Words(Put32(dst))) + 6
              + Sum(Words(Put16(length))) + Sum(Words(h[..16])) + Get16(h[18], h[19])
    ensures state as int <= 0xffff * 16
  {
    hide Get16, Words, Sum, Put32, Put16, Hi16, Lo8, Byte2, Byte3;
    ShortWords(src);
    ShortWords(dst);
    ShortWords(length);
    FixedWords(h);
    RoundTrip16(length);
    state := 0xffff;
    state := state + (Get16(Byte3(src), Byte2(src)) as u32);
    state := state + (Get16(Hi16(src), Lo8(src)) as u32);
    state := state + (Get16(Byte3(dst), Byte2(dst)) as u32);
    state := state + (Get16(Hi16(dst), Lo8(dst)) as u32);
    state := state + (TCP_PROTOCOL as u32);
    state := state + (length as u32);
    state := state + (Get16(h[0], h[1]) as u32);
    state := state + (Get16(h[2], h[3]) as u32);
    state := state + (Get16(h[4], h[5]) as u32);
    state := state + (Get16(h[6], h[7]) as u32);
    state := state + (Get16(h[8], h[9]) as u32);
    state := state + (Get16(h[10], h[11]) as u32);
    state := state + (Get16(h[12], h[13]) as u32);
    state := state + (Get16(h[14], h[15]) as u32);
    state := state + (Get16(h[18], h[19]) as u32);
  }

  lemma ReferenceFolds(src: nat, dst: nat, segment: seq<byte>)
    requires |segment| >= FIXED
    ensures Total(src, dst, segment) > 0
    ensures Reference(src, dst, segment) == 0xffff - Fold(Total(src, dst, segment))
    ensures 0 <= Reference(src, dst, segment) < 0xffff
  {
    TotalParts(src, dst, segment);
    var ws := Words(Covered(src, dst, segment));
    WordsBound(Covered(src, dst, segment));
    OnesSumFolds(ws);
  }

  /**
   * The program's checksum is the one RFC 1071 defines, for every segment an IPv4 datagram can hold,
   * and its 32-bit accumulator never overflows on the way.
   */
  method TcpChecksum(src: nat, dst: nat, header: seq<byte>, data: seq<byte>) returns (checksum: nat)
    requires |header| >= FIXED && |header| % 2 == 0 && |header| + |data| < 0x1_0000
    ensures checksum == Reference(src, dst, header + data)
  {
    var segment := header + data;
    var state := AddFixed(src, dst, header, |header| + |data|);
    if |header| > FIXED {
      state := AddChunks(state, header[FIXED..]);
    } else {
      assert header[FIXED..] == [];
    }
    WordsBound(header[FIXED..]);
    state := AddChunks(state, data);
    assert state as int == 0xffff + Total(src, dst, segment) by {
      TotalParts(src, dst, segment);
      TailWords(header, data);
      assert segment[..16] == header[..16];
    }
    state := Reduce(state);
    ReferenceFolds(src, dst, segment);
    FoldStep(Total(src, dst, segment));
    checksum := 0xffff - state as nat;
  }

  // ---------------------------------------------------------------------------
  // The receiver's check (section 1 of RFC 1071, section 3.1 of RFC 793)
  // ---------------------------------------------------------------------------

  /** All bytes, those at even positions counting 256 times. */
  function Weighted(b: seq<byte>): nat {
    if b == [] then 0
    else
      var n := |b| - 1;
      Weighted(b[..n]) + if n % 2 == 0 then 256 * (b[n] as nat) else b[n]
  }

  lemma {:induction false} WordsAreWeighted(b: seq<byte>)
    ensures Sum(Words(b)) == Weighted(b)
    decreases |b|
  {
    hide Words, Sum;
    if b == [] {
      NoWords();
    } else {
      var n := |b| - 1;
      WordsAreWeighted(b[..n]);
      if n % 2 == 0 {
        assert b == b[..n] + [b[n]];
        SumJoin(b[..n], [b[n]]);
        LastSum(b[n]);
      } else {
        var m := n - 1;
        WordsAreWeighted(b[..m]);
        assert b == b[..m] + [b[m], b[n]] && b[..n][..m] == b[..m];
        SumJoin(b[..m], [b[m], b[n]]);
        PairSum(b[m], b[n]);
      }
    }
  }

  lemma NoWords()
    ensures Sum(Words([])) == 0
  {
  }

  lemma LastSum(x: byte)
    ensures Sum(Words([x])) == 256 * (x as nat)
  {
    assert Words([x])[1..] == [];
  }

  lemma Halves(x: nat)
    requires x < 0x1_0000_0000
    ensures Sum(Words(Put32(x))) == x / 0x1_0000 + x % 0x1_0000
  {
    hide Words, Sum, Hi16, Lo8, Byte2, Byte3;
    assert Put32(x) == [Byte3(x), Byte2(x)] + [Hi16(x), Lo8(x)];
    SumJoin([Byte3(x), Byte2(x)], [Hi16(x), Lo8(x)]);
    PairSum(Byte3(x), Byte2(x));
    PairSum(Hi16(x), Lo8(x));
    HalfBytes(x);
  }

  lemma HalfBytes(x: nat)
    requires x < 0x1_0000_0000
    ensures Get16(Byte3(x), Byte2(x)) == x / 0x1_0000 && Get16(Hi16(x), Lo8(x)) == x % 0x1_0000
  {
    var q := x / 0x1_0000;
    assert q / 256 == x / 0x100_0000;
    RoundTrip16(x);
    RoundTrip16(q);
  }

  /** The total and the checksum field are all bytes of pseudo header and segment. */
  lemma TotalIsWeighted(src: nat, dst: nat, b: seq<byte>)
    requires FIXED <= |b| < 0x1_0000 && src < 0x1_0000_0000 && dst < 0x1_0000_0000
    ensures Total(src, dst, b) + 256 * (b[16] as nat) + b[17]
         == src / 0x1_0000 + src % 0x1_0000 + dst / 0x1_0000 + dst % 0x1_0000 + 6 + |b| + Weighted(b)
  {
    hide Total, Words, Sum, Put16, Put32, Weighted;
    TotalParts(src, dst, b);
    Halves(src);
    Halves(dst);
    LengthWord(|b|);
    WordsAreWeighted(b);
    var tail := b[18..];
    assert b == b[..16] + ([b[16], b[17]] + tail);
    SumJoin(b[..16], [b[16], b[17]] + tail);
    SumJoin([b[16], b[17]], tail);
    PairSum(b[16], b[17]);
  }

  lemma LengthWord(n: nat)
    requires n < 0x1_0000
    ensures Sum(Words(Put16(n))) == n
  {
    hide Words, Sum, Hi16, Lo8;
    PairSum(Hi16(n), Lo8(n));
    RoundTrip16(n);
  }

  /**
   * A receiver that adds up pseudo header and segment, field included, gets a multiple of 0xffff exactly
   * if the field is the checksum, or all ones where the checksum is zero.
   */
  lemma ReceiverCheck(src: nat, dst: nat, b: seq<byte>)
    requires FIXED <= |b| < 0x1_0000 && src < 0x1_0000_0000 && dst < 0x1_0000_0000
    ensures var c := Reference(src, dst, b);
            (src / 0x1_0000 + src % 0x1_0000 + dst / 0x1_0000 + dst % 0x1_0000 + 6 + |b| + Weighted(b)) % 0xffff == 0
            <==> WordIs(b, 16, c) || (c == 0 && WordIs(b, 16, 0xffff))
  {
    hide Total, Reference, Weighted, Fold;
    ReferenceFolds(src, dst, b);
    TotalIsWeighted(src, dst, b);
    var t, f := Total(src, dst, b), 256 * (b[16] as nat) + b[17];
    FoldedSum(t, f);
  }

  lemma FoldedSum(t: nat, f: nat)
    requires t > 0 && f <= 0xffff
    ensures (t + f) % 0xffff == 0 <==> f == 0xffff - Fold(t) || (Fold(t) == 0xffff && f == 0xffff)
  {
    var q := (t - 1) / 0xffff;
    assert t + f == 0xffff * q + (Fold(t) + f);
    hide Fold;
    if Fold(t) + f < 0xffff {
      ModShift(Fold(t) + f, q);
    } else if Fold(t) + f == 0x1fffe {
      ModShift(0, q + 2);
    } else {
      ModShift(Fold(t) + f - 0xffff, q + 1);
    }
  }

  // ---------------------------------------------------------------------------
  // What a changed word does
  // ---------------------------------------------------------------------------

  /** The 16-bit word at an even position. */
  function WordAt(b: seq<byte>, i: nat): nat
    requires i < |b|
  {
    Get16(b[i], if i + 1 < |b| then b[i + 1] else 0)
  }

  /** Two byte sequences that differ in one word at most. */
  ghost predicate OneWord(a: seq<byte>, b: seq<byte>, i: nat) {
    && |a| == |b| && i < |a| && i % 2 == 0
    && a[..i] == b[..i]
    && (i + 2 <= |a| ==> a[i + 2..] == b[i + 2..])
  }

  lemma SplitAt(b: seq<byte>, i: nat)
    requires i < |b| && i % 2 == 0
    ensures Sum(Words(b)) == Sum(Words(b[..i])) + WordAt(b, i) + (if i + 2 <= |b| then Sum(Words(b[i + 2..])) else 0)
  {
    assert b == b[..i] + b[i..];
    SumJoin(b[..i], b[i..]);
    if i + 2 <= |b| {
      assert b[i..][2..] == b[i + 2..];
      FirstWords(b[i..], b[i + 2..]);
    } else {
      assert b[i..] == [b[i]];
    }
  }

  lemma ChangeMovesSum(a: seq<byte>, b: seq<byte>, i: nat)
    requires OneWord(a, b, i)
    ensures Sum(Words(b)) - Sum(Words(a)) == WordAt(b, i) - WordAt(a, i)
  {
    SplitAt(a, i);
    SplitAt(b, i);
  }

  lemma ChangeMovesTotal(src: nat, dst: nat, a: seq<byte>, b: seq<byte>, i: nat)
    requires |a| >= FIXED && OneWord(a, b, i) && i != 16
    ensures Total(src, dst, b) - Total(src, dst, a) == WordAt(b, i) - WordAt(a, i)
  {
    hide Words, Sum, Total, WordAt, OneWord, Put16, Put32;
    SameLength(a, b, i);
    TotalParts(src, dst, a);
    TotalParts(src, dst, b);
    if i < 16 {
      ChangeInFront(a, b, i);
      ChangeMovesSum(a[..16], b[..16], i);
    } else {
      ChangeBehind(a, b, i);
      ChangeMovesSum(a[18..], b[18..], i - 18);
    }
  }

  lemma SameLength(a: seq<byte>, b: seq<byte>, i: nat)
    requires OneWord(a, b, i)
    ensures |a| == |b| && i < |a| && i % 2 == 0
  {
  }

  lemma ChangeInFront(a: seq<byte>, b: seq<byte>, i: nat)
    requires |a| >= FIXED && OneWord(a, b, i) && i < 16
    ensures OneWord(a[..16], b[..16], i) && a[18..] == b[18..]
    ensures WordAt(a[..16], i) == WordAt(a, i) && WordAt(b[..16], i) == WordAt(b, i)
  {
    hide Get16;
    assert a[..i] == a[..16][..i] && b[..i] == b[..16][..i];
    assert a[i + 2..][..16 - i - 2] == a[..16][i + 2..];
    assert b[i + 2..][..16 - i - 2] == b[..16][i + 2..];
    assert a[18..] == a[i + 2..][16 - i..] && b[18..] == b[i + 2..][16 - i..];
  }

  lemma ChangeBehind(a: seq<byte>, b: seq<byte>, i: nat)
    requires |a| >= FIXED && OneWord(a, b, i) && 16 < i
    ensures i >= 18 && OneWord(a[18..], b[18..], i - 18) && a[..16] == b[..16]
    ensures WordAt(a[18..], i - 18) == WordAt(a, i) && WordAt(b[18..], i - 18) == WordAt(b, i)
  {
    hide Get16;
    assert a[..16] == a[..i][..16] && b[..16] == b[..i][..16];
    assert a[18..][..i - 18] == a[..i][18..] && b[18..][..i - 18] == b[..i][18..];
    if i + 2 <= |a| {
      assert a[18..][i - 18 + 2..] == a[i + 2..] && b[18..][i - 18 + 2..] == b[i + 2..];
    }
  }

  /**
   * Changing one covered word leaves the checksum alone exactly when the old and the new word are
   * congruent modulo 0xffff, that is equal or 0x0000 and 0xffff.
   */
  lemma ChangeIsSeen(src: nat, dst: nat, a: seq<byte>, b: seq<byte>, i: nat)
    requires |a| >= FIXED && OneWord(a, b, i) && i != 16
    ensures Reference(src, dst, a) == Reference(src, dst, b)
            <==> (WordAt(b, i) - WordAt(a, i)) % 0xffff == 0
  {
    ReferenceFolds(src, dst, a);
    ReferenceFolds(src, dst, b);
    ChangeMovesTotal(src, dst, a, b, i);
    FoldEqual(Total(src, dst, b), Total(src, dst, a));
  }

  /** The checksum field itself is not covered. */
  lemma FieldIsNotCovered(src: nat, dst: nat, a: seq<byte>, b: seq<byte>)
    requires |a| >= FIXED && |a| == |b| && a[..16] == b[..16] && a[18..] == b[18..]
    ensures Reference(src, dst, a) == Reference(src, dst, b)
  {
  }
}
