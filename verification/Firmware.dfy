/** Programming a firmware image into one flash, or spread over two. */
module Firmware {
  import opened Common
  import opened Bytes
  import opened Nor
  import opened FlashDriver
  import opened FlashObject

  datatype Outcome = Succeeded | EraseFailed | WriteFailed | VerifyFailed

  /** A length rounded up so that the end of the range is on a block boundary. */
  function RoundUp(offset: nat, len: nat, block: nat): (n: nat)
    requires block > 0
    ensures n >= len
  {
    if (offset + len) % block != 0 then len + (block - (offset + len) % block) else len
  }

  lemma RoundUpIs(offset: nat, len: nat, block: nat, limit: nat)
    requires Divides(block, offset) && Divides(block, limit) && len <= limit
    ensures Divides(block, RoundUp(offset, len, block)) && RoundUp(offset, len, block) <= limit
    ensures block > 0 ==> len <= RoundUp(offset, len, block) < len + block
  {
    var x := offset + len;
    var m := x % block;
    var q := x / block;
    assert x == q * block + m;
    DivMul(block, q, q * block);
    if m != 0 {
      DivMul(block, 1, block);
      DivAdd(block, q * block, block);
      DivSub(block, q * block + block, offset);
      DivAdd(block, offset, limit);
      DivSub(block, offset + limit, q * block);
    } else {
      DivSub(block, x, offset);
    }
  }

  /**
   * Erase, write and verify. Unless the device fails, the range holds the image; everything outside
   * the rounded range is untouched in every case; and the verification never fails.
   */
  method ProgramImage(f: Flash, offset: nat, segment: seq<byte>, len: nat) returns (outcome: Outcome)
    requires f.Geometry() && f.BlockSized(offset, |segment|) && len <= |segment|
    requires offset + |segment| <= |f.cells| && |f.cells| % 2 == 0 && f.eraseBlock > 0
    modifies f
    ensures var n := RoundUp(offset, len, f.eraseBlock);
            && n <= |segment|
            && UnchangedOutside(old(f.cells), f.cells, offset, n)
            && (outcome == Succeeded ==>
                  f.cells == old(f.cells)[..offset] + segment[..n] + old(f.cells)[offset + n..])
    ensures outcome != VerifyFailed && (outcome == Succeeded <==> f.refusals == old(f.refusals))
  {
    hide Divides, Programmed, Fill, UnchangedOutside, f.Geometry, Covered;
    ghost var c := f.cells;
    var n := len;
    if (offset + len) % f.eraseBlock != 0 {
      n := n + (f.eraseBlock - (offset + len) % f.eraseBlock);
    }
    RoundUpIs(offset, len, f.eraseBlock, |segment|);
    Shorter(f, offset, n, |segment|);
    var erased := f.EraseProgress(offset, n);
    SameLength(c, f.cells, offset, n);
    if erased != Fine {
      return EraseFailed;
    }
    ghost var before := f.cells;
    var written := f.WriteProgress(offset, segment[..n]);
    Wider(c, before, f.cells, offset, n, offset, n);
    SameLength(c, f.cells, offset, n);
    if written != Fine {
      return WriteFailed;
    }
    EraseThenProgram(c, offset, segment[..n]);
    var check := f.ReadProgress(offset, n);
    assert f.cells == c[..offset] + segment[..n] + c[offset + n..];
    assert check == segment[..n];
    if segment[..n] != check {
      return VerifyFailed;
    }
    return Succeeded;
  }

  lemma Shorter(f: Flash, offset: nat, n: nat, limit: nat)
    requires f.Geometry() && f.BlockSized(offset, limit) && Divides(f.eraseBlock, n) && n <= limit
    ensures f.BlockSized(offset, n) && f.WordSized(offset, n)
  {
    DivTrans(2, f.eraseBlock, offset);
    DivTrans(2, f.eraseBlock, n);
  }

  // ---------------------------------------------------------------------------
  // Two flashes, four bits each
  // ---------------------------------------------------------------------------

  const HEAD: nat := 0x68

  function LowHalf(a: byte, b: byte): byte { b % 16 + a % 16 * 16 }
  function HighHalf(a: byte, b: byte): byte { b / 16 + a / 16 * 16 }

  /** The first byte of each pair, and the second, put together again. */
  function First(c1: byte, c2: byte): byte { c1 / 16 + c2 / 16 * 16 }
  function Second(c1: byte, c2: byte): byte { c1 % 16 + c2 % 16 * 16 }

  lemma HalvesRoundTrip(a: byte, b: byte)
    ensures First(LowHalf(a, b), HighHalf(a, b)) == a
    ensures Second(LowHalf(a, b), HighHalf(a, b)) == b
  {
    var x, y := LowHalf(a, b), HighHalf(a, b);
    assert x / 16 == a % 16 && x % 16 == b % 16;
    assert y / 16 == a / 16 && y % 16 == b / 16;
  }

  /** A segment that can be split: an even size with room for the head twice. */
  predicate Splittable(size: nat) {
    size % 2 == 0 && size >= 2 * HEAD
  }

  function PrimaryByte(s: seq<byte>, i: nat): byte
    requires Splittable(|s|) && i < |s| / 2
  {
    if i < HEAD then s[i] else LowHalf(s[HEAD + 2 * (i - HEAD)], s[HEAD + 2 * (i - HEAD) + 1])
  }

  function SecondaryByte(s: seq<byte>, i: nat): byte
    requires Splittable(|s|) && i < |s| / 2
  {
    if i < HEAD then 255 else HighHalf(s[HEAD + 2 * (i - HEAD)], s[HEAD + 2 * (i - HEAD) + 1])
  }

  /** What goes to the first flash: the head, then the low halves of each pair of bytes. */
  function Primary(s: seq<byte>): (r: seq<byte>)
    requires Splittable(|s|)
    ensures |r| == |s| / 2
  {
    seq(|s| / 2, i requires 0 <= i < |s| / 2 => PrimaryByte(s, i))
  }

  /** What goes to the second flash: a blank head, then the high halves. */
  function Secondary(s: seq<byte>): (r: seq<byte>)
    requires Splittable(|s|)
    ensures |r| == |s| / 2
  {
    seq(|s| / 2, i requires 0 <= i < |s| / 2 => SecondaryByte(s, i))
  }

  /** Which bits lie where: the first device has the head and the low halves, the second the high halves. */
  lemma SplitPlaces(s: seq<byte>, i: nat)
    requires Splittable(|s|) && i < |s| / 2
    ensures i < HEAD ==> Primary(s)[i] == s[i] && Secondary(s)[i] == 255
    ensures i >= HEAD ==>
              && Primary(s)[i] / 16 == s[2 * i - HEAD] % 16 && Primary(s)[i] % 16 == s[2 * i - HEAD + 1] % 16
              && Secondary(s)[i] / 16 == s[2 * i - HEAD] / 16 && Secondary(s)[i] % 16 == s[2 * i - HEAD + 1] / 16
  {
    if i >= HEAD { assert HEAD + 2 * (i - HEAD) == 2 * i - HEAD; }
  }

  /** Byte `k` of the merged segment. */
  function MergedByte(pri: seq<byte>, sec: seq<byte>, size: nat, k: nat): byte
    requires Splittable(size) && |pri| == |sec| == size / 2 && k < size
  {
    if k < HEAD then pri[k]
    else if k < size - HEAD then
      var i := HEAD + (k - HEAD) / 2;
      if k % 2 == 0 then First(pri[i], sec[i]) else Second(pri[i], sec[i])
    else 255
  }

  function Merged(pri: seq<byte>, sec: seq<byte>, size: nat): (r: seq<byte>)
    requires Splittable(size) && |pri| == |sec| == size / 2
    ensures |r| == size
  {
    seq(size, k requires 0 <= k < size => MergedByte(pri, sec, size, k))
  }

  /** The loop that deals the image out to two buffers. */
  method Split(s: seq<byte>) returns (pri: array<byte>, sec: array<byte>)
    requires Splittable(|s|)
    ensures fresh(pri) && fresh(sec) && pri[..] == Primary(s) && sec[..] == Secondary(s)
  {
    hide LowHalf, HighHalf;
    pri := new byte[|s| / 2](_ => 255);
    sec := new byte[|s| / 2](_ => 255);
    for i := 0 to HEAD
      invariant forall j :: 0 <= j < i ==> pri[j] == s[j]
      invariant forall j :: 0 <= j < sec.Length ==> sec[j] == 255
    {
      pri[i] := s[i];
    }
    var k, c := HEAD, HEAD;
    while k < |s| - HEAD
      invariant HEAD <= c <= |s| / 2 && k == HEAD + 2 * (c - HEAD)
      invariant forall j :: 0 <= j < c ==> pri[j] == PrimaryByte(s, j) && sec[j] == SecondaryByte(s, j)
    {
      pri[c] := LowHalf(s[k], s[k + 1]);
      sec[c] := HighHalf(s[k], s[k + 1]);
      c := c + 1;
      k := k + 2;
    }
  }

  /** The loop that puts an image together from two buffers. */
  method Merge(pri: seq<byte>, sec: seq<byte>, size: nat) returns (s: array<byte>)
    requires Splittable(size) && |pri| == |sec| == size / 2
    ensures fresh(s) && s[..] == Merged(pri, sec, size)
  {
    hide First, Second;
    s := new byte[size](_ => 255);
    for i := 0 to HEAD
      invariant forall j :: 0 <= j < i ==> s[j] == pri[j]
      invariant forall j :: i <= j < size ==> s[j] == 255
    {
      s[i] := pri[i];
    }
    var k, c := HEAD, HEAD;
    while k < size - HEAD
      invariant HEAD <= c <= size / 2 && k == HEAD + 2 * (c - HEAD)
      invariant forall j :: 0 <= j < k ==> s[j] == MergedByte(pri, sec, size, j)
      invariant forall j :: k <= j < size ==> s[j] == 255
    {
      s[k] := First(pri[c], sec[c]);
      s[k + 1] := Second(pri[c], sec[c]);
      PairIs(pri, sec, size, k, c);
      c := c + 1;
      k := k + 2;
    }
  }

  lemma PairIs(pri: seq<byte>, sec: seq<byte>, size: nat, k: nat, c: nat)
    requires Splittable(size) && |pri| == |sec| == size / 2
    requires HEAD <= c && k == HEAD + 2 * (c - HEAD) && k < size - HEAD
    ensures MergedByte(pri, sec, size, k) == First(pri[c], sec[c])
    ensures MergedByte(pri, sec, size, k + 1) == Second(pri[c], sec[c])
  {
    assert (k - HEAD) / 2 == c - HEAD && (k + 1 - HEAD) / 2 == c - HEAD;
  }

  /** Buffers that agree with the split image on `n` bytes merge to the image on twice as many, less the head. */
  lemma MergeUndoes(s: seq<byte>, pri: seq<byte>, sec: seq<byte>, n: nat, k: nat)
    requires Splittable(|s|) && |pri| == |sec| == |s| / 2 && HEAD <= n <= |s| / 2
    requires pri[..n] == Primary(s)[..n] && sec[..n] == Secondary(s)[..n]
    requires k < HEAD + 2 * (n - HEAD) && k < |s| - HEAD
    ensures MergedByte(pri, sec, |s|, k) == s[k]
  {
    hide LowHalf, HighHalf, First, Second;
    if k < HEAD {
      assert pri[k] == pri[..n][k] && Primary(s)[k] == Primary(s)[..n][k];
    } else {
      var i := HEAD + (k - HEAD) / 2;
      var at := HEAD + 2 * (i - HEAD);
      assert pri[i] == pri[..n][i] && Primary(s)[i] == Primary(s)[..n][i];
      assert sec[i] == sec[..n][i] && Secondary(s)[i] == Secondary(s)[..n][i];
      HalvesRoundTrip(s[at], s[at + 1]);
      assert k == at || k == at + 1;
    }
  }

  /** Merging undoes splitting exactly for images whose last 0x68 bytes are blank. */
  lemma MergeSplit(s: seq<byte>)
    requires Splittable(|s|)
    ensures Merged(Primary(s), Secondary(s), |s|)[..|s| - HEAD] == s[..|s| - HEAD]
    ensures Merged(Primary(s), Secondary(s), |s|) == s <==> forall k :: |s| - HEAD <= k < |s| ==> s[k] == 255
  {
    hide Primary, Secondary;
    var m := Merged(Primary(s), Secondary(s), |s|);
    forall k | 0 <= k < |s| - HEAD ensures m[k] == s[k] {
      MergeUndoes(s, Primary(s), Secondary(s), |s| / 2, k);
    }
    if m == s {
      forall k | |s| - HEAD <= k < |s| ensures s[k] == 255 { assert m[k] == s[k]; }
    }
  }

  /** How much of each half is written for `len` bytes of image. */
  function HalfLength(len: nat, size: nat): nat {
    if len < HEAD then size / 2 else Min((len - HEAD) / 2 + HEAD, size / 2)
  }

  /** That much holds the image, but for the last byte of one whose length is odd; and no shorter half does. */
  lemma HalfLengthIs(len: nat, size: nat)
    requires Splittable(size) && HEAD <= len <= size - HEAD
    ensures var n := HalfLength(len, size);
            HEAD <= n <= size / 2 && HEAD + 2 * (n - HEAD) == (if len % 2 == 0 then len else len - 1)
  {
  }

  /**
   * Program both flashes. If that succeeds, reading both back and merging gives the image up to the
   * length that was written, less the part of the segment that is never stored.
   */
  method ProgramDual(pri: Flash, sec: Flash, offset: nat, segment: seq<byte>, len: nat) returns (outcome: Outcome)
    requires pri != sec && pri.Geometry() && sec.Geometry() && pri.eraseBlock > 0
    requires Splittable(|segment|) && len <= |segment|
    requires pri.BlockSized(offset, |segment| / 2)
    requires offset + |segment| / 2 <= |pri.cells| && offset + |segment| / 2 <= |sec.cells|
    requires |pri.cells| % 2 == 0 && |sec.cells| % 2 == 0
    modifies pri, sec
    ensures |pri.cells| == |old(pri.cells)| && |sec.cells| == |old(sec.cells)|
    ensures var n := RoundUp(offset, HalfLength(len, |segment|), pri.eraseBlock);
            && UnchangedOutside(old(pri.cells), pri.cells, offset, n)
            && UnchangedOutside(old(sec.cells), sec.cells, offset, n)
    ensures outcome != VerifyFailed
    ensures outcome == Succeeded ==> pri.refusals == old(pri.refusals) && sec.refusals == old(sec.refusals)
    ensures pri.refusals == old(pri.refusals) && sec.refusals == old(sec.refusals) ==>
              outcome == Succeeded || !Fits(pri, sec, offset, |segment| / 2)
    ensures var n := RoundUp(offset, HalfLength(len, |segment|), pri.eraseBlock);
            outcome == Succeeded ==>
              && HEAD <= n <= |segment| / 2
              && pri.cells[offset..offset + n] == Primary(segment)[..n]
              && sec.cells[offset..offset + n] == Secondary(segment)[..n]
    ensures var n, half := RoundUp(offset, HalfLength(len, |segment|), pri.eraseBlock), |segment| / 2;
            outcome == Succeeded ==> forall k :: 0 <= k < HEAD + 2 * (n - HEAD) && k < |segment| - HEAD ==>
              MergedByte(pri.cells[offset..offset + half], sec.cells[offset..offset + half], |segment|, k) == segment[k]
  {
    hide Divides, UnchangedOutside, RoundUp, Primary, Secondary, MergedByte, Programmed, Fill, Fits,
         pri.Geometry, pri.BlockSized;
    var half := |segment| / 2;
    var n := RoundUp(offset, HalfLength(len, |segment|), pri.eraseBlock);
    RoundedHalf(pri, sec, offset, half, HalfLength(len, |segment|));
    var p, s := Split(segment);
    ghost var pc, sc := pri.cells, sec.cells;
    SameSelf(sc, offset, n);
    var status := pri.EraseProgress(offset, n);
    SameLength(pc, pri.cells, offset, n);
    if status != Fine {
      return EraseFailed;
    }
    if Fits(pri, sec, offset, half) { SecondSized(pri, sec, offset, n, half); }
    status := sec.EraseProgress(offset, n);
    SameLength(sc, sec.cells, offset, n);
    if status != Fine {
      return EraseFailed;
    }
    ghost var pe, se := pri.cells, sec.cells;
    status := pri.WriteProgress(offset, p[..n]);
    Wider(pc, pe, pri.cells, offset, n, offset, n);
    SameLength(pc, pri.cells, offset, n);
    if status != Fine {
      return WriteFailed;
    }
    status := sec.WriteProgress(offset, s[..n]);
    Wider(sc, se, sec.cells, offset, n, offset, n);
    SameLength(sc, sec.cells, offset, n);
    if status != Fine {
      return WriteFailed;
    }
    EraseThenProgram(pc, offset, p[..n]);
    EraseThenProgram(sc, offset, s[..n]);
    Holds(pc, offset, p[..n], pri.cells);
    Holds(sc, offset, s[..n], sec.cells);
    var check1 := pri.ReadProgress(offset, n);
    var check2 := sec.ReadProgress(offset, n);
    if p[..n] != check1 || s[..n] != check2 {
      return VerifyFailed;
    }
    MergedImage(segment, pri.cells, sec.cells, offset, n, p[..], s[..]);
    return Succeeded;
  }

  /** The second device can erase what the first one rounds to: no larger blocks, and regions that reach as far. */
  ghost predicate Fits(pri: Flash, sec: Flash, offset: nat, half: nat) {
    Divides(sec.eraseBlock, pri.eraseBlock) && (sec.kind.Bpi? ==> Covered(sec.regions, offset, half))
  }

  lemma SecondSized(pri: Flash, sec: Flash, offset: nat, n: nat, half: nat)
    requires Fits(pri, sec, offset, half) && pri.BlockSized(offset, n) && n <= half
    ensures sec.BlockSized(offset, n)
  {
    DivTrans(sec.eraseBlock, pri.eraseBlock, offset);
    DivTrans(sec.eraseBlock, pri.eraseBlock, n);
  }

  lemma RoundedHalf(pri: Flash, sec: Flash, offset: nat, half: nat, len: nat)
    requires pri.Geometry() && pri.eraseBlock > 0 && pri.BlockSized(offset, half) && HEAD <= len <= half
    ensures var n := RoundUp(offset, len, pri.eraseBlock);
            && HEAD <= n <= half
            && pri.BlockSized(offset, n) && pri.WordSized(offset, n) && sec.WordSized(offset, n)
  {
    hide Divides, Covered, RoundUp;
    var n := RoundUp(offset, len, pri.eraseBlock);
    RoundUpIs(offset, len, pri.eraseBlock, half);
    Shorter(pri, offset, n, half);
    DivTrans(2, pri.eraseBlock, offset);
    DivTrans(2, pri.eraseBlock, n);
    EvenIs(offset);
    EvenIs(n);
  }

  lemma EvenIs(x: nat)
    ensures Divides(2, x) <==> x % 2 == 0
  {
  }

  lemma Holds(c: seq<byte>, a: nat, s: seq<byte>, d: seq<byte>)
    requires a + |s| <= |c| && d == c[..a] + s + c[a + |s|..]
    ensures |d| == |c| && d[a..a + |s|] == s
  {
  }

  lemma MergedImage(s: seq<byte>, pc: seq<byte>, sc: seq<byte>, offset: nat, n: nat, p: seq<byte>, q: seq<byte>)
    requires Splittable(|s|) && p == Primary(s) && q == Secondary(s) && HEAD <= n <= |s| / 2
    requires offset + |s| / 2 <= |pc| && offset + |s| / 2 <= |sc|
    requires pc[offset..offset + n] == p[..n] && sc[offset..offset + n] == q[..n]
    ensures forall k :: 0 <= k < HEAD + 2 * (n - HEAD) && k < |s| - HEAD ==>
              MergedByte(pc[offset..offset + |s| / 2], sc[offset..offset + |s| / 2], |s|, k) == s[k]
  {
    hide Primary, Secondary, MergedByte;
    var a, b := pc[offset..offset + |s| / 2], sc[offset..offset + |s| / 2];
    assert a[..n] == pc[offset..offset + n] && b[..n] == sc[offset..offset + n];
    forall k | 0 <= k < HEAD + 2 * (n - HEAD) && k < |s| - HEAD ensures MergedByte(a, b, |s|, k) == s[k] {
      MergeUndoes(s, a, b, n, k);
    }
  }
}
