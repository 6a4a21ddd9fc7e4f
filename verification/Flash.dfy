/** NOR flash contents: erasing sets bits, programming only clears them. */
module Nor {
  import opened Common
  import opened Bytes

  /** The low `n` bits of `x` and `y`, both. */
  function AndBits(x: nat, y: nat, n: nat): nat {
    if n == 0 then 0 else 2 * AndBits(x / 2, y / 2, n - 1) + (x % 2) * (y % 2)
  }

  function And(x: byte, y: byte): (r: byte) {
    AndBound(x, y, 8);
    AndBits(x, y, 8)
  }

  lemma {:induction false} AndBound(x: nat, y: nat, n: nat)
    requires y < Pow2(n)
    ensures AndBits(x, y, n) <= y
  {
    if n > 0 { AndBound(x / 2, y / 2, n - 1); }
  }

  lemma {:induction false} AndOnes(y: nat, n: nat)
    requires y < Pow2(n)
    ensures AndBits(Pow2(n) - 1, y, n) == y
  {
    if n > 0 {
      assert (Pow2(n) - 1) / 2 == Pow2(n - 1) - 1;
      AndOnes(y / 2, n - 1);
    }
  }

  lemma Pow8()
    ensures Pow2(8) == 256
  {
    assert Pow2(4) == 16;
    assert Pow2(8) == 16 * Pow2(4);
  }

  /** A byte programmed into an erased cell is stored as it is. */
  lemma ErasedTakes(y: byte)
    ensures And(255, y) == y
  {
    Pow8();
    AndOnes(y, 8);
  }

  /** `n` cells from `a` on are erased. */
  function Fill(c: seq<byte>, a: nat, n: nat): (r: seq<byte>)
    requires a + n <= |c|
    ensures |r| == |c|
  {
    seq(|c|, i requires 0 <= i < |c| => if a <= i < a + n then 255 else c[i])
  }

  /** The bytes `s` are programmed from `a` on. */
  function Programmed(c: seq<byte>, a: nat, s: seq<byte>): (r: seq<byte>)
    requires a + |s| <= |c|
    ensures |r| == |c|
  {
    seq(|c|, i requires 0 <= i < |c| => if a <= i < a + |s| then And(c[i], s[i - a]) else c[i])
  }

  lemma FillFill(c: seq<byte>, a: nat, m: nat, n: nat)
    requires a + m + n <= |c|
    ensures Fill(Fill(c, a, m), a + m, n) == Fill(c, a, m + n)
  {
  }

  lemma ProgramProgram(c: seq<byte>, a: nat, s: seq<byte>, t: seq<byte>)
    requires a + |s| + |t| <= |c|
    ensures Programmed(Programmed(c, a, s), a + |s|, t) == Programmed(c, a, s + t)
  {
    hide And;
  }

  lemma NothingDone(c: seq<byte>, a: nat)
    requires a <= |c|
    ensures Fill(c, a, 0) == c && Programmed(c, a, []) == c
  {
  }

  /** Erase, then program: the range holds the image and nothing else changed. */
  lemma EraseThenProgram(c: seq<byte>, a: nat, s: seq<byte>)
    requires a + |s| <= |c|
    ensures Programmed(Fill(c, a, |s|), a, s) == c[..a] + s + c[a + |s|..]
  {
    hide And;
    var r, image := Programmed(Fill(c, a, |s|), a, s), c[..a] + s + c[a + |s|..];
    forall i | 0 <= i < |c| ensures r[i] == image[i] {
      if a <= i < a + |s| { ErasedTakes(s[i - a]); }
    }
  }
}

/** How a range is cut into erase blocks of 4 KiB and 64 KiB. */
module ErasePlan {
  const SECTOR: nat := 0x10000
  const SUBSECTOR: nat := 0x1000
  const RATIO: nat := 16

  datatype Block = Block(addr: nat, size: nat)

  /** Blocks of an allowed size at a multiple of that size. */
  predicate Aligned(b: Block) {
    (b.size == SECTOR || b.size == SUBSECTOR) && b.addr % b.size == 0
  }

  /** The blocks lie end to end and cover exactly `len` bytes from `addr`. */
  ghost predicate Tiles(bs: seq<Block>, addr: nat, len: nat)
    decreases |bs|
  {
    if bs == [] then len == 0
    else
      && Aligned(bs[0]) && bs[0].addr == addr && bs[0].size <= len
      && Tiles(bs[1..], addr + bs[0].size, len - bs[0].size)
  }

  /** The block the driver erases next; zero if the request is invalid. */
  function Next(addr: nat, len: nat): nat {
    if addr % SECTOR == 0 && len >= SECTOR then SECTOR
    else if addr % SUBSECTOR == 0 && len >= SUBSECTOR then SUBSECTOR
    else 0
  }

  /** The driver's choice of blocks, up to the first invalid remainder. */
  function Plan(addr: nat, len: nat): seq<Block>
    decreases len
  {
    var n := Next(addr, len);
    if len == 0 || n == 0 then [] else [Block(addr, n)] + Plan(addr + n, len - n)
  }

  lemma {:induction false} TilesSnoc(bs: seq<Block>, addr: nat, len: nat, b: Block)
    requires Tiles(bs, addr, len) && Aligned(b) && b.addr == addr + len
    ensures Tiles(bs + [b], addr, len + b.size)
    decreases |bs|
  {
    if bs != [] {
      assert (bs + [b])[1..] == bs[1..] + [b];
      TilesSnoc(bs[1..], addr + bs[0].size, len - bs[0].size, b);
    }
  }

  predicate Multiple(x: nat) {
    x % SUBSECTOR == 0
  }

  lemma SectorIsMultiple(x: nat)
    requires x % SECTOR == 0
    ensures Multiple(x)
  {
    assert x == SUBSECTOR * (16 * (x / SECTOR));
  }

  lemma MultipleShift(x: nat)
    ensures Multiple(x + SUBSECTOR) <==> Multiple(x)
    ensures Multiple(x + SECTOR) <==> Multiple(x)
  {
  }

  lemma MultipleStep(addr: nat, len: nat)
    requires Next(addr, len) > 0
    ensures Multiple(addr)
    ensures Multiple(addr + Next(addr, len))
    ensures Multiple(len) <==> Multiple(len - Next(addr, len))
  {
    if addr % SECTOR == 0 { SectorIsMultiple(addr); }
    assert addr % SUBSECTOR == 0 ==> Multiple(addr);
    hide Multiple;
    MultipleShift(addr);
    MultipleShift(len - Next(addr, len));
  }

  lemma PlanStep(addr: nat, len: nat)
    requires len > 0 && Next(addr, len) > 0
    ensures Next(addr, len) <= len
    ensures Plan(addr, len) ==
              [Block(addr, Next(addr, len))] + Plan(addr + Next(addr, len), len - Next(addr, len))
    ensures Aligned(Block(addr, Next(addr, len)))
  {
  }

  lemma PlanEnd(addr: nat)
    ensures Plan(addr, 0) == []
  {
  }

  /** The plan covers the whole range exactly when both ends are on 4 KiB boundaries. */
  lemma {:induction false} PlanTiles(addr: nat, len: nat)
    ensures Multiple(addr) && Multiple(len) ==> Tiles(Plan(addr, len), addr, len)
    ensures len > 0 && Tiles(Plan(addr, len), addr, len) ==> Multiple(addr) && Multiple(len)
    decreases len
  {
    var n := Next(addr, len);
    if len > 0 && n > 0 {
      MultipleStep(addr, len);
      PlanTiles(addr + n, len - n);
      assert Plan(addr, len)[1..] == Plan(addr + n, len - n);
    }
  }

  /** From inside a 64 KiB sector up to its end only small blocks fit. */
  lemma {:induction false} SmallSteps(addr: nat, len: nat, k: nat)
    requires Multiple(addr) && Multiple(len) && k < RATIO && (addr + k * SUBSECTOR) % SECTOR == 0
    requires len >= k * SUBSECTOR
    ensures |Plan(addr, len)| == k + |Plan(addr + k * SUBSECTOR, len - k * SUBSECTOR)|
    decreases k
  {
    if k > 0 {
      InsideSector(addr, k);
      assert Next(addr, len) == SUBSECTOR;
      MultipleStep(addr, len);
      SmallSteps(addr + SUBSECTOR, len - SUBSECTOR, k - 1);
    }
  }

  lemma InsideSector(addr: nat, k: nat)
    requires 0 < k < RATIO && (addr + k * SUBSECTOR) % SECTOR == 0
    ensures addr % SECTOR != 0
  {
  }

  /** Whatever aligned block is taken first, the plan for the whole is at most one longer than for the rest. */
  lemma GreedyStep(b: Block, addr: nat, len: nat)
    requires Aligned(b) && b.addr == addr && b.size <= len && Multiple(len)
    ensures |Plan(addr, len)| <= 1 + |Plan(addr + b.size, len - b.size)|
  {
    AlignedMultiple(b);
    if Next(addr, len) != b.size {
      assert b.size == SUBSECTOR && Next(addr, len) == SECTOR;
      assert (addr + SUBSECTOR + 15 * SUBSECTOR) % SECTOR == 0;
      SmallSteps(addr + SUBSECTOR, len - SUBSECTOR, 15);
    }
  }

  lemma AlignedMultiple(b: Block)
    requires Aligned(b)
    ensures Multiple(b.addr) && Multiple(b.size) && Multiple(b.addr + b.size)
    ensures forall n: nat :: Multiple(n) && n >= b.size ==> Multiple(n - b.size)
    ensures Next(b.addr, b.size) == b.size
  {
    if b.size == SECTOR {
      assert b.addr == SUBSECTOR * (16 * (b.addr / SECTOR));
    }
  }

  /** No other tiling by aligned blocks uses fewer erase commands. */
  lemma {:induction false} PlanIsShortest(bs: seq<Block>, addr: nat, len: nat)
    requires Tiles(bs, addr, len) && Multiple(len)
    ensures |Plan(addr, len)| <= |bs|
    decreases |bs|
  {
    if bs != [] {
      AlignedMultiple(bs[0]);
      PlanIsShortest(bs[1..], addr + bs[0].size, len - bs[0].size);
      GreedyStep(bs[0], addr, len);
    }
  }
}
