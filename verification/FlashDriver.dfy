/**
 * What the two flash drivers have in common: how requests are cut into pieces, and what the word
 * driver leaves in the cells of a device.
 */
module FlashDriver {
  import opened Common
  import opened Bytes
  import opened Nor

  datatype Kind = Spi | Bpi

  datatype Region = Region(start: nat, end: nat, size: nat)

  datatype Status = Fine | BadRequest | DeviceError

  const PAGE: nat := 256
  const STEP: nat := 0x10000

  /** Nothing outside `n` cells from `a` differs. */
  ghost predicate UnchangedOutside(c: seq<byte>, d: seq<byte>, a: nat, n: nat) {
    |c| == |d| && forall i :: 0 <= i < |c| && !(a <= i < a + n) ==> c[i] == d[i]
  }

  // ---------------------------------------------------------------------------
  // Divisibility
  // ---------------------------------------------------------------------------

  predicate Divides(d: nat, x: nat) {
    d > 0 && x % d == 0
  }

  lemma DivMul(d: nat, k: nat, x: nat)
    requires d > 0 && x == k * d
    ensures Divides(d, x)
  {
    DivUnique(x, d, k, 0);
  }

  lemma DivAdd(d: nat, x: nat, y: nat)
    requires Divides(d, x) && Divides(d, y)
    ensures Divides(d, x + y)
  {
    assert x == (x / d) * d && y == (y / d) * d;
    DivMul(d, x / d + y / d, x + y);
  }

  lemma DivSub(d: nat, x: nat, y: nat)
    requires Divides(d, x) && Divides(d, y) && y <= x
    ensures Divides(d, x - y)
    ensures y < x ==> x - y >= d
  {
    var p, q := x / d, y / d;
    assert x == p * d && y == q * d;
    QuotientsDiffer(d, x, y, p, q);
    DivMul(d, p - q, x - y);
  }

  lemma QuotientsDiffer(d: nat, x: nat, y: nat, p: nat, q: nat)
    requires d > 0 && x == p * d && y == q * d && y <= x
    ensures p >= q && x - y == (p - q) * d
    ensures y < x ==> x - y >= d
  {
    if p < q {
      assert y - x == (q - p) * d;
      MulGrows(q - p, d);
    } else if p > q {
      MulGrows(p - q, d);
    }
  }

  lemma DivTrans(d: nat, m: nat, x: nat)
    requires Divides(d, m) && Divides(m, x)
    ensures Divides(d, x)
  {
    var j, k := m / d, x / m;
    assert m == j * d && x == k * m;
    assert x == (k * j) * d;
    DivMul(d, k * j, x);
  }

  ghost predicate IsPow2(x: nat) {
    exists e: nat :: x == Pow2(e)
  }

  lemma {:induction false} PowDivides(d: nat, e: nat)
    requires d <= e
    ensures Divides(Pow2(d), Pow2(e))
  {
    if e == d {
      DivMul(Pow2(d), 1, Pow2(e));
    } else {
      PowDivides(d, e - 1);
      var m := Pow2(d);
      var k := Pow2(e - 1) / m;
      assert Pow2(e - 1) == k * m;
      DivMul(m, 2 * k, Pow2(e));
    }
  }

  lemma {:induction false} PowGrows(d: nat, e: nat)
    requires Pow2(d) <= Pow2(e)
    ensures d <= e
    decreases d
  {
    if d > 0 && e > 0 { PowGrows(d - 1, e - 1); }
  }

  /** Among powers of two the smaller one divides the larger one. */
  lemma PowersDivide(x: nat, y: nat)
    requires IsPow2(x) && IsPow2(y) && x <= y
    ensures Divides(x, y)
  {
    var d: nat, e: nat :| x == Pow2(d) && y == Pow2(e);
    PowGrows(d, e);
    PowDivides(d, e);
  }

  lemma StepIsPow2()
    ensures IsPow2(STEP)
  {
    assert Pow2(4) == 16;
    assert Pow2(8) == 16 * Pow2(4);
    assert Pow2(12) == 16 * Pow2(8);
    assert Pow2(16) == 16 * Pow2(12);
  }

  /** A multiple of a step: how far a transfer from `addr` goes before the next boundary. */
  function Segment(addr: nat, remain: nat, step: nat): (seg: nat)
    requires step > 0
    ensures remain > 0 ==> 0 < seg <= remain
  {
    if remain > step then
      if (addr + step) % step != 0 then step - (addr + step) % step else step
    else remain
  }

  /** Transfers of multiples stay multiples. */
  lemma SegmentDivides(d: nat, addr: nat, remain: nat, step: nat)
    requires step > 0 && Divides(d, step) && Divides(d, addr) && Divides(d, remain)
    ensures Divides(d, Segment(addr, remain, step))
  {
    if remain > step {
      DivAdd(d, addr, step);
      var x := addr + step;
      var m := x % step;
      if m != 0 {
        var q := x / step;
        assert x == q * step + m;
        DivMul(step, q, q * step);
        DivTrans(d, step, q * step);
        DivSub(d, x, q * step);
        DivSub(d, step, m);
      }
    }
  }

  // ---------------------------------------------------------------------------
  // Programming through 16-bit words
  // ---------------------------------------------------------------------------

  /** The next piece of a write: up to the end of the write buffer. */
  function Piece(addr: nat, len: nat, buffer: nat): (n: nat)
    requires buffer > 0
    ensures n <= len && (len > 0 ==> n > 0) && addr % buffer + n <= buffer
  {
    Min(len, buffer - addr % buffer)
  }

  /** What the word driver leaves in the device: addresses and lengths are halved, so odd bytes are dropped. */
  function WordProgrammed(c: seq<byte>, addr: nat, s: seq<byte>, buffer: nat): (r: seq<byte>)
    requires addr + |s| <= |c| && buffer > 0
    ensures |r| == |c|
    decreases |s|
  {
    if s == [] then c
    else
      var n := Piece(addr, |s|, buffer);
      WordProgrammed(Programmed(c, addr / 2 * 2, s[..n / 2 * 2]), addr + n, s[n..], buffer)
  }

  lemma WordStep(c: seq<byte>, a: nat, s: seq<byte>, buffer: nat)
    requires a + |s| <= |c| && buffer > 0 && s != []
    ensures var n := Piece(a, |s|, buffer);
            WordProgrammed(c, a, s, buffer)
            == WordProgrammed(Programmed(c, a / 2 * 2, s[..n / 2 * 2]), a + n, s[n..], buffer)
  {
  }

  /** For even addresses and lengths nothing is dropped. */
  lemma {:induction false} WordsComplete(c: seq<byte>, addr: nat, s: seq<byte>, buffer: nat)
    requires addr + |s| <= |c| && buffer > 0 && Divides(2, buffer) && addr % 2 == 0 && |s| % 2 == 0
    ensures WordProgrammed(c, addr, s, buffer) == Programmed(c, addr, s)
    decreases |s|
  {
    hide Programmed, Piece, WordProgrammed, Divides;
    if s == [] {
      EmptyWrite(c, addr, s, buffer);
    } else {
      var n := Piece(addr, |s|, buffer);
      EvenPiece(addr, |s|, buffer);
      WordStep(c, addr, s, buffer);
      Evens(addr, |s|, n);
      WordsComplete(Programmed(c, addr, s[..n]), addr + n, s[n..], buffer);
      ProgramProgram(c, addr, s[..n], s[n..]);
      assert s[..n] + s[n..] == s;
    }
  }

  lemma Evens(a: nat, l: nat, n: nat)
    requires a % 2 == 0 && l % 2 == 0 && n % 2 == 0 && n <= l
    ensures a / 2 * 2 == a && n / 2 * 2 == n && (a + n) % 2 == 0 && (l - n) % 2 == 0
  {
  }

  lemma EvenRemainder(addr: nat, buffer: nat)
    requires buffer > 0 && Divides(2, buffer) && addr % 2 == 0
    ensures (addr % buffer) % 2 == 0
  {
    var q, m := addr / buffer, addr % buffer;
    assert addr == q * buffer + m;
    DivMul(buffer, q, q * buffer);
    DivTrans(2, buffer, q * buffer);
    DivSub(2, addr, q * buffer);
  }

  lemma EvenPiece(addr: nat, len: nat, buffer: nat)
    requires buffer > 0 && Divides(2, buffer) && addr % 2 == 0 && len % 2 == 0
    ensures Piece(addr, len, buffer) % 2 == 0
  {
    EvenRemainder(addr, buffer);
    EvenMin(len, buffer, addr % buffer);
  }

  lemma EvenMin(len: nat, buffer: nat, m: nat)
    requires len % 2 == 0 && buffer % 2 == 0 && m % 2 == 0 && m <= buffer
    ensures Min(len, buffer - m) % 2 == 0
  {
  }

  /** The word driver never touches a cell in front of the word its address is in, nor one behind its range. */
  lemma {:induction false} WordsWithin(c: seq<byte>, addr: nat, s: seq<byte>, buffer: nat, i: nat)
    requires addr + |s| <= |c| && buffer > 0 && i < |c| && (i < addr / 2 * 2 || addr + |s| <= i)
    ensures WordProgrammed(c, addr, s, buffer)[i] == c[i]
    decreases |s|
  {
    if s != [] {
      var n := Piece(addr, |s|, buffer);
      WordsWithin(Programmed(c, addr / 2 * 2, s[..n / 2 * 2]), addr + n, s[n..], buffer, i);
    }
  }

  /** With an odd length at an even address the last byte is never programmed. */
  lemma {:induction false} OddLengthDropsLast(c: seq<byte>, addr: nat, s: seq<byte>, buffer: nat)
    requires addr + |s| <= |c| && buffer > 0 && Divides(2, buffer) && addr % 2 == 0 && |s| % 2 == 1
    ensures WordProgrammed(c, addr, s, buffer)[addr + |s| - 1] == c[addr + |s| - 1]
    decreases |s|
  {
    hide Programmed, Piece;
    var n, last := Piece(addr, |s|, buffer), addr + |s| - 1;
    OddOrEven(addr, |s|, buffer);
    var d := Programmed(c, addr / 2 * 2, s[..n / 2 * 2]);
    ProgrammedOutside(c, addr / 2 * 2, s[..n / 2 * 2], last);
    if n == |s| {
      assert s[n..] == [];
    } else {
      OddLengthDropsLast(d, addr + n, s[n..], buffer);
    }
  }

  /** From an even address a piece is even, unless it is all that is left. */
  lemma OddOrEven(a: nat, len: nat, buffer: nat)
    requires Divides(2, buffer) && buffer > 0 && a % 2 == 0
    ensures Piece(a, len, buffer) == len || Piece(a, len, buffer) % 2 == 0
  {
    EvenRemainder(a, buffer);
  }

  lemma ProgrammedOutside(c: seq<byte>, a: nat, s: seq<byte>, i: nat)
    requires a + |s| <= |c| && i < |c| && (i < a || a + |s| <= i)
    ensures Programmed(c, a, s)[i] == c[i]
  {
  }

  /** From an odd address, zeros written to erased cells end up in the wrong place. */
  lemma OddAddressMisplaces(c: seq<byte>, addr: nat, s: seq<byte>, buffer: nat)
    requires addr + |s| <= |c| && buffer > 0 && addr % 2 == 1 && |s| > 0
    requires forall i :: 0 <= i < |c| ==> c[i] == 255
    requires forall i :: 0 <= i < |s| ==> s[i] == 0
    ensures WordProgrammed(c, addr, s, buffer) != Programmed(c, addr, s)
  {
    hide Piece, And, WordProgrammed, Programmed;
    ErasedTakes(0);
    var n := Piece(addr, |s|, buffer);
    var d := Programmed(c, addr / 2 * 2, s[..n / 2 * 2]);
    WordStep(c, addr, s, buffer);
    if n == 1 {
      WordsWithin(d, addr + n, s[n..], buffer, addr);
      ProgrammedOutside(c, addr / 2 * 2, s[..n / 2 * 2], addr);
      ProgrammedAt(c, addr, s, addr);
    } else {
      WordsWithin(d, addr + n, s[n..], buffer, addr - 1);
      ProgrammedAt(c, addr / 2 * 2, s[..n / 2 * 2], addr - 1);
      ProgrammedOutside(c, addr, s, addr - 1);
    }
  }

  /** The word driver programs what it is given exactly when address and length are even. */
  lemma WordsExact(addr: nat, len: nat, buffer: nat, size: nat)
    requires addr + len <= size && Divides(2, buffer) && buffer > 0
    ensures (forall c: seq<byte>, s: seq<byte> :: |c| == size && |s| == len ==>
               WordProgrammed(c, addr, s, buffer) == Programmed(c, addr, s))
            <==> len == 0 || (addr % 2 == 0 && len % 2 == 0)
  {
    hide WordProgrammed, Programmed;
    var c: seq<byte>, s: seq<byte> := seq(size, _ => 255), seq(len, _ => 0);
    if len == 0 {
      forall c: seq<byte>, s: seq<byte> | |c| == size && |s| == len
        ensures WordProgrammed(c, addr, s, buffer) == Programmed(c, addr, s)
      {
        EmptyWrite(c, addr, s, buffer);
      }
    } else if addr % 2 == 1 {
      OddAddressMisplaces(c, addr, s, buffer);
    } else if len % 2 == 1 {
      OddLengthDropsLast(c, addr, s, buffer);
      ErasedTakes(0);
      ProgrammedAt(c, addr, s, addr + len - 1);
    } else {
      forall c: seq<byte>, s: seq<byte> | |c| == size && |s| == len
        ensures WordProgrammed(c, addr, s, buffer) == Programmed(c, addr, s)
      {
        WordsComplete(c, addr, s, buffer);
      }
    }
  }

  lemma EmptyWrite(c: seq<byte>, addr: nat, s: seq<byte>, buffer: nat)
    requires addr <= |c| && s == [] && buffer > 0
    ensures WordProgrammed(c, addr, s, buffer) == Programmed(c, addr, s)
  {
    NothingDone(c, addr);
  }

  lemma ProgrammedAt(c: seq<byte>, a: nat, s: seq<byte>, i: nat)
    requires a + |s| <= |c| && a <= i < a + |s|
    ensures Programmed(c, a, s)[i] == And(c[i], s[i - a])
  {
  }
}
