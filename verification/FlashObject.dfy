/** The mutable flash device with its drivers and the programming of a firmware image. */
module FlashObject {
  import opened Common
  import opened Bytes
  import opened Nor
  import opened FlashDriver
  import ErasePlan

  class Flash {
    const kind: Kind
    const buffer: nat
    const eraseBlock: nat
    const regions: seq<Region>
    var cells: seq<byte>
    /** How many commands the device has refused. */
    ghost var refusals: nat

    /** The geometry a driver finds when it opens the device. */
    ghost predicate Geometry() {
      && IsPow2(buffer) && Divides(2, buffer) && IsPow2(eraseBlock) && Divides(2, eraseBlock)
      && (kind.Spi? ==> buffer == PAGE && eraseBlock == ErasePlan.SUBSECTOR)
      && (forall k :: 0 <= k < |regions| ==>
            && IsPow2(regions[k].size) && regions[k].size <= eraseBlock
            && Divides(regions[k].size, regions[k].start) && Divides(regions[k].size, regions[k].end))
      && (forall k :: 0 <= k < |regions| ==> regions[k].start < regions[k].end)
      && (forall k :: 0 < k < |regions| ==> regions[k].start == regions[k - 1].end)
      && (|regions| > 0 ==> regions[0].start == 0)
    }

    constructor (kind: Kind, buffer: nat, eraseBlock: nat, regions: seq<Region>, cells: seq<byte>)
      ensures this.kind == kind && this.buffer == buffer && this.eraseBlock == eraseBlock && this.regions == regions
      ensures this.cells == cells
    {
      this.kind := kind;
      this.buffer := buffer;
      this.eraseBlock := eraseBlock;
      this.regions := regions;
      this.cells := cells;
      refusals := 0;
    }

    // -------------------------------------------------------------------------
    // What the hardware does
    // -------------------------------------------------------------------------

    /** Whether the device answers that writing is enabled. */
    method Enabled() returns (ok: bool)
      modifies this`refusals
      ensures refusals == old(refusals) + if ok then 0 else 1
    {
      ok := *;
      refusals := refusals + if ok then 0 else 1;
    }

    /** Erase one block. */
    method EraseCells(a: nat, n: nat)
      requires a + n <= |cells|
      modifies this`cells
      ensures cells == Fill(old(cells), a, n)
    {
      cells := Fill(cells, a, n);
    }

    /** Program bytes; the device cannot go past the end of its write buffer. */
    method ProgramCells(a: nat, s: seq<byte>)
      requires buffer > 0 && a % buffer + |s| <= buffer && a + |s| <= |cells|
      modifies this`cells
      ensures cells == Programmed(old(cells), a, s)
    {
      cells := Programmed(cells, a, s);
    }

    /** A command may fail and leave anything in the cells it was for. */
    method Damage(a: nat, n: nat)
      requires a + n <= |cells|
      modifies this`cells
      ensures UnchangedOutside(old(cells), cells, a, n)
    {
      var noise: seq<byte> := *;
      if |noise| != n {
        noise := cells[a..a + n];
      }
      cells := cells[..a] + noise + cells[a + n..];
    }

    // -------------------------------------------------------------------------
    // The serial driver
    // -------------------------------------------------------------------------

    method SpiRead(addr: nat, len: nat) returns (d: seq<byte>)
      requires addr + len <= |cells|
      ensures d == cells[addr..addr + len]
    {
      d := [];
      var left := len;
      while left > 0
        invariant 0 <= left <= len && d == cells[addr..addr + len - left]
      {
        d := d + [cells[addr + len - left]];
        left := left - 1;
      }
    }

    /** One page program per turn; `done` bytes arrived if the device stops answering. */
    method SpiWrite(addr: nat, src: seq<byte>) returns (status: Status, ghost done: nat)
      requires buffer == PAGE && addr + |src| <= |cells|
      modifies this
      ensures refusals >= old(refusals) && (status == DeviceError <==> refusals > old(refusals))
      ensures status != BadRequest && done <= |src| && (status == Fine ==> done == |src|)
      ensures cells == Programmed(old(cells), addr, src[..done])
    {
      hide Programmed;
      ghost var c := cells;
      var pos := 0;
      done := 0;
      assert src[..0] == [];
      NothingDone(c, addr);
      while pos < |src|
        invariant refusals == old(refusals)
        invariant done == pos <= |src| && |cells| == |c|
        invariant cells == Programmed(c, addr, src[..pos])
      {
        var ok := Enabled();
        if !ok {
          return DeviceError, done;
        }
        var start, page := pos, [];
        while pos < |src|
          invariant refusals == old(refusals)
          invariant start <= pos <= |src| && page == src[start..pos]
          invariant |cells| == |c| && cells == Programmed(c, addr, src[..start])
          invariant pos == start || ((addr + start) % PAGE + |page| < PAGE && (addr + pos) % PAGE != 0)
          decreases |src| - pos
        {
          page := page + [src[pos]];
          PageStep(addr + start, |page|);
          pos := pos + 1;
          if (addr + pos) % PAGE == 0 {
            break;
          }
        }
        ProgramCells(addr + start, page);
        ProgramProgram(c, addr, src[..start], page);
        assert src[..start] + page == src[..pos];
        done := pos;
      }
      assert src[..done] == src[..|src|];
      status := Fine;
    }

    /** Erase in the largest aligned blocks that fit; `done` says how far it got. */
    method SpiErase(addr: nat, len: nat) returns (status: Status, ghost done: nat, ghost commands: seq<ErasePlan.Block>)
      requires addr + len <= |cells|
      modifies this
      ensures refusals >= old(refusals) && (status == DeviceError <==> refusals > old(refusals))
      ensures done <= len && cells == Fill(old(cells), addr, done)
      ensures status == Fine ==> done == len && commands == ErasePlan.Plan(addr, len)
      ensures status == Fine ==> ErasePlan.Tiles(commands, addr, len)
      ensures status == BadRequest ==> !(ErasePlan.Multiple(addr) && ErasePlan.Multiple(len))
    {
      hide Fill, ErasePlan.Tiles, ErasePlan.Plan, ErasePlan.Multiple, ErasePlan.Aligned;
      ghost var c := cells;
      var a, left := addr, len;
      done, commands := 0, [];
      NothingDone(c, addr);
      NothingTiled(addr);
      assert [] + ErasePlan.Plan(addr, len) == ErasePlan.Plan(addr, len);
      while left > 0
        invariant refusals == old(refusals)
        invariant a == addr + done && left == len - done && done <= len
        invariant cells == Fill(c, addr, done)
        invariant |cells| == |c| && ErasePlan.Tiles(commands, addr, done)
        invariant commands + ErasePlan.Plan(a, left) == ErasePlan.Plan(addr, len)
        invariant ErasePlan.Multiple(addr) && ErasePlan.Multiple(len) ==>
                    ErasePlan.Multiple(a) && ErasePlan.Multiple(left)
        decreases left
      {
        var size := 0;
        if a % ErasePlan.SECTOR == 0 && left >= ErasePlan.SECTOR {
          size := ErasePlan.SECTOR;
        } else if a % ErasePlan.SUBSECTOR == 0 && left >= ErasePlan.SUBSECTOR {
          size := ErasePlan.SUBSECTOR;
        }
        if size == 0 {
          Remaining(a, left);
          return BadRequest, done, commands;
        }
        var ok := Enabled();
        if !ok {
          return DeviceError, done, commands;
        }
        EraseCells(a, size);
        FillFill(c, addr, done, size);
        ErasePlan.MultipleStep(a, left);
        ErasePlan.PlanStep(a, left);
        ghost var rest := ErasePlan.Plan(a + size, left - size);
        assert commands + ([ErasePlan.Block(a, size)] + rest) == commands + [ErasePlan.Block(a, size)] + rest;
        ErasePlan.TilesSnoc(commands, addr, done, ErasePlan.Block(a, size));
        commands := commands + [ErasePlan.Block(a, size)];
        done := done + size;
        if left <= size {
          break;
        }
        a := a + size;
        left := left - size;
      }
      ErasePlan.PlanEnd(addr + done);
      assert commands + [] == commands;
      status := Fine;
    }

    // -------------------------------------------------------------------------
    // The parallel driver, which works in 16-bit words
    // -------------------------------------------------------------------------

    /** Odd ends are taken out of the word they lie in. */
    method BpiRead(addr: nat, len: nat) returns (d: seq<byte>)
      requires addr + len <= |cells| && |cells| % 2 == 0
      requires addr % 2 == 1 ==> len > 0
      ensures d == cells[addr..addr + len]
    {
      d := [];
      var a, left := addr, len;
      if a % 2 == 1 {
        d := d + [cells[a / 2 * 2 + 1]];
        a, left := a + 1, left - 1;
      }
      while left > 1
        invariant a % 2 == 0 && a + left == addr + len && left >= 0 && a >= addr
        invariant d == cells[addr..a]
      {
        d := d + [cells[a / 2 * 2], cells[a / 2 * 2 + 1]];
        a, left := a + 2, left - 2;
      }
      if left > 0 {
        d := d + [cells[a / 2 * 2]];
      }
    }

    /** One buffered program; on failure the cells it was for may hold anything. */
    method BufferedProgram(word: nat, n: nat, src: seq<byte>) returns (ok: bool)
      requires buffer > 0 && 2 * n <= |src| && 2 * word + 2 * n <= |cells| && (2 * word) % buffer + 2 * n <= buffer
      modifies this
      ensures refusals == old(refusals) + if ok then 0 else 1
      ensures ok ==> cells == Programmed(old(cells), 2 * word, src[..2 * n])
      ensures !ok ==> UnchangedOutside(old(cells), cells, 2 * word, 2 * n)
    {
      ok := Enabled();
      if ok {
        ProgramCells(2 * word, src[..2 * n]);
      } else {
        Damage(2 * word, 2 * n);
      }
    }

    /** One turn of the write loop; at an even address it touches nothing but its piece. */
    method WritePiece(a: nat, rest: seq<byte>) returns (ok: bool, seg: nat)
      requires Geometry() && a + |rest| <= |cells| && rest != []
      modifies this
      ensures refusals == old(refusals) + if ok then 0 else 1
      ensures 0 < seg <= |rest| && |cells| == |old(cells)|
      ensures ok ==> WordProgrammed(cells, a + seg, rest[seg..], buffer) == WordProgrammed(old(cells), a, rest, buffer)
      ensures a % 2 == 0 ==> UnchangedOutside(old(cells), cells, a, seg) && (seg == |rest| || seg % 2 == 0)
    {
      hide Programmed, WordProgrammed, UnchangedOutside, Divides, IsPow2;
      ghost var c := cells;
      BufferEven(this);
      seg := Piece(a, |rest|, buffer);
      WordBounds(a, seg, buffer);
      WordStep(cells, a, rest, buffer);
      if a % 2 == 0 { OddOrEven(a, |rest|, buffer); }
      ok := BufferedProgram(a / 2, seg / 2, rest);
      SameSelf(c, a, seg);
      if ok {
        WithinPiece(c, a, seg, rest);
      } else {
        SameLength(c, cells, 2 * (a / 2), 2 * (seg / 2));
        if a % 2 == 0 { Wider(c, c, cells, a, seg, 2 * (a / 2), 2 * (seg / 2)); }
      }
    }

    /** Pieces up to the end of the write buffer, in words. */
    method BpiWrite(addr: nat, src: seq<byte>) returns (status: Status)
      requires Geometry() && addr + |src| <= |cells|
      modifies this
      ensures refusals >= old(refusals) && (status == DeviceError <==> refusals > old(refusals))
      ensures status != BadRequest && |cells| == |old(cells)|
      ensures status == Fine ==> cells == WordProgrammed(old(cells), addr, src, buffer)
      ensures addr % 2 == 0 ==> UnchangedOutside(old(cells), cells, addr, |src|)
    {
      hide Geometry, WordProgrammed, UnchangedOutside;
      ghost var c := cells;
      var pos := 0;
      assert src[0..] == src;
      BufferEven(this);
      SameSelf(c, addr, |src|);
      while pos < |src|
        invariant refusals == old(refusals)
        invariant 0 <= pos <= |src| && |cells| == |c|
        invariant WordProgrammed(cells, addr + pos, src[pos..], buffer) == WordProgrammed(c, addr, src, buffer)
        invariant addr % 2 == 0 ==> UnchangedOutside(c, cells, addr, |src|) && (pos == |src| || pos % 2 == 0)
      {
        ghost var before := cells;
        EvenAdd(addr, pos);
        var ok, seg := WritePiece(addr + pos, src[pos..]);
        if addr % 2 == 0 { Wider(c, before, cells, addr, |src|, addr + pos, seg); }
        if !ok {
          return DeviceError;
        }
        EvenAdd(pos, seg);
        assert src[pos..][seg..] == src[pos + seg..];
        pos := pos + seg;
      }
      assert src[pos..] == [];
      NoMoreWords(cells, addr + pos, src[pos..], buffer);
      status := Fine;
    }

    method SectorErase(a: nat, n: nat) returns (ok: bool)
      requires a + n <= |cells|
      modifies this
      ensures refusals == old(refusals) + if ok then 0 else 1
      ensures ok ==> cells == Fill(old(cells), a, n)
      ensures !ok ==> UnchangedOutside(old(cells), cells, a, n)
    {
      ok := Enabled();
      if ok {
        EraseCells(a, n);
      } else {
        Damage(a, n);
      }
    }

    /** The block size at an address; zero outside all regions. */
    method BlockSizeAt(a: nat) returns (size: nat)
      ensures size == SizeAt(regions, a)
    {
      size := 0;
      for k := 0 to |regions|
        invariant SizeAt(regions, a) == SizeAt(regions[k..], a)
      {
        assert regions[k..][1..] == regions[k + 1..];
        if regions[k].start <= a < regions[k].end {
          return regions[k].size;
        }
      }
    }

    /** Erase block by block, each as large as the region it lies in says. */
    method BpiErase(addr: nat, len: nat) returns (status: Status)
      requires Geometry() && addr + len <= |cells|
      modifies this
      ensures refusals >= old(refusals) && (status == DeviceError <==> refusals > old(refusals))
      ensures |cells| == |old(cells)| && UnchangedOutside(old(cells), cells, addr, len)
      ensures status == Fine ==> cells == Fill(old(cells), addr, len)
      ensures Covered(regions, addr, len) && Divides(eraseBlock, addr) && Divides(eraseBlock, len) ==>
                status != BadRequest
    {
      hide Fill, Divides, SizeAt, Covered;
      ghost var c := cells;
      ghost var good := Covered(regions, addr, len) && Divides(eraseBlock, addr) && Divides(eraseBlock, len);
      var a, left := addr, len;
      NothingDone(c, addr);
      FillOutside(c, addr, 0, len);
      if good && len > 0 { FirstBlock(this, addr, len); }
      while left > 0
        invariant refusals == old(refusals)
        invariant addr <= a && left >= 0 && a + left == addr + len && |cells| == |c|
        invariant cells == Fill(c, addr, a - addr)
        invariant good && left > 0 ==> OnBlock(regions, a)
        decreases left
      {
        FillOutside(c, addr, a - addr, len);
        var size := BlockSizeAt(a);
        if good { GoodBlock(this, addr, len, a); }
        if size == 0 {
          return BadRequest;
        }
        if a % size != 0 || left < size {
          return BadRequest;
        }
        ghost var before := cells;
        var ok := SectorErase(a, size);
        if !ok {
          Wider(c, before, cells, addr, len, a, size);
          return DeviceError;
        }
        FillFill(c, addr, a - addr, size);
        FillOutside(c, addr, a - addr + size, len);
        if left <= size {
          a, left := a + size, 0;
          break;
        }
        if good { NextBlock(this, addr, len, a); }
        a := a + size;
        left := left - size;
      }
      FillOutside(c, addr, a - addr, len);
      status := Fine;
    }

    // -------------------------------------------------------------------------
    // Either driver
    // -------------------------------------------------------------------------

    /** Requests on word boundaries; only the parallel driver needs them. */
    predicate WordSized(addr: nat, len: nat) {
      kind.Bpi? ==> addr % 2 == 0 && len % 2 == 0
    }

    /** Requests on erase-block boundaries, inside the regions. */
    ghost predicate BlockSized(addr: nat, len: nat) {
      Divides(eraseBlock, addr) && Divides(eraseBlock, len) && (kind.Bpi? ==> Covered(regions, addr, len))
    }

    method Read(addr: nat, len: nat) returns (d: seq<byte>)
      requires addr + len <= |cells| && |cells| % 2 == 0 && len > 0
      ensures d == cells[addr..addr + len]
    {
      if kind.Spi? {
        d := SpiRead(addr, len);
      } else {
        d := BpiRead(addr, len);
      }
    }

    method Write(addr: nat, src: seq<byte>) returns (status: Status)
      requires Geometry() && addr + |src| <= |cells| && WordSized(addr, |src|)
      modifies this
      ensures refusals >= old(refusals) && (status == DeviceError <==> refusals > old(refusals))
      ensures UnchangedOutside(old(cells), cells, addr, |src|)
      ensures status == Fine ==> cells == Programmed(old(cells), addr, src)
      ensures status != BadRequest
    {
      hide IsPow2, Divides, Programmed, WordProgrammed;
      ghost var c := cells;
      if kind.Spi? {
        ghost var done;
        status, done := SpiWrite(addr, src);
        SameSelf(c, addr, |src|);
        WithinProgram(c, c, addr, |src|, addr, src[..done]);
        if done == |src| { assert src[..done] == src; }
      } else {
        status := BpiWrite(addr, src);
        BufferEven(this);
        WordsComplete(c, addr, src, buffer);
      }
    }

    method Erase(addr: nat, len: nat) returns (status: Status)
      requires Geometry() && addr + len <= |cells|
      modifies this
      ensures refusals >= old(refusals) && (status == DeviceError <==> refusals > old(refusals))
      ensures UnchangedOutside(old(cells), cells, addr, len)
      ensures status == Fine ==> cells == Fill(old(cells), addr, len)
      ensures BlockSized(addr, len) ==> status != BadRequest
    {
      hide IsPow2, Fill, ErasePlan.Plan, ErasePlan.Tiles, Covered;
      ghost var c := cells;
      if kind.Spi? {
        ghost var done, commands;
        status, done, commands := SpiErase(addr, len);
        FillOutside(c, addr, done, len);
      } else {
        status := BpiErase(addr, len);
      }
    }

    // -------------------------------------------------------------------------
    // Progress loops
    // -------------------------------------------------------------------------

    method ReadProgress(addr: nat, len: nat) returns (d: seq<byte>)
      requires addr + len <= |cells| && |cells| % 2 == 0
      ensures d == cells[addr..addr + len]
    {
      d := [];
      var a, remain := addr, len;
      while remain > 0
        invariant addr <= a && remain >= 0 && a + remain == addr + len
        invariant d == cells[addr..a]
      {
        var seg := FlashDriver.Segment(a, remain, STEP);
        var part := Read(a, seg);
        d := d + part;
        a, remain := a + seg, remain - seg;
      }
    }

    method WriteProgress(addr: nat, src: seq<byte>) returns (status: Status)
      requires Geometry() && addr + |src| <= |cells| && WordSized(addr, |src|)
      modifies this
      ensures refusals >= old(refusals) && (status == DeviceError <==> refusals > old(refusals))
      ensures UnchangedOutside(old(cells), cells, addr, |src|)
      ensures status == Fine ==> cells == Programmed(old(cells), addr, src)
      ensures status != BadRequest
    {
      hide IsPow2, Divides, Programmed, FlashDriver.Segment, UnchangedOutside;
      ghost var c := cells;
      var step := if buffer > STEP then buffer else STEP;
      StepEven(this);
      var pos := 0;
      assert src[..0] == [];
      NothingDone(c, addr);
      SameSelf(c, addr, |src|);
      while pos < |src|
        invariant refusals == old(refusals)
        invariant 0 <= pos <= |src| && |cells| == |c| && WordSized(addr + pos, |src| - pos)
        invariant cells == Programmed(c, addr, src[..pos]) && UnchangedOutside(c, cells, addr, |src|)
      {
        var a := addr + pos;
        var seg := FlashDriver.Segment(a, |src| - pos, step);
        EvenSegment(this, a, |src| - pos, step);
        ghost var before := cells;
        status := Write(a, src[pos..pos + seg]);
        Wider(c, before, cells, addr, |src|, a, seg);
        SameLength(before, cells, a, seg);
        if status != Fine {
          return;
        }
        ProgramProgram(c, addr, src[..pos], src[pos..pos + seg]);
        assert src[..pos] + src[pos..pos + seg] == src[..pos + seg];
        pos := pos + seg;
      }
      assert src[..pos] == src;
      status := Fine;
    }

    method EraseProgress(addr: nat, len: nat) returns (status: Status)
      requires Geometry() && addr + len <= |cells|
      modifies this
      ensures refusals >= old(refusals) && (status == DeviceError <==> refusals > old(refusals))
      ensures UnchangedOutside(old(cells), cells, addr, len)
      ensures status == Fine ==> cells == Fill(old(cells), addr, len)
      ensures BlockSized(addr, len) ==> status != BadRequest
    {
      hide IsPow2, Divides, Fill, FlashDriver.Segment, UnchangedOutside, Covered;
      ghost var c := cells;
      var step := if eraseBlock > STEP then eraseBlock else STEP;
      StepDivides(this);
      var a, remain := addr, len;
      NothingDone(c, addr);
      SameSelf(c, addr, len);
      while remain > 0
        invariant refusals == old(refusals)
        invariant addr <= a && remain >= 0 && a + remain == addr + len && |cells| == |c|
        invariant cells == Fill(c, addr, a - addr) && UnchangedOutside(c, cells, addr, len)
        invariant BlockSized(addr, len) ==> BlockSized(a, remain)
      {
        var seg := FlashDriver.Segment(a, remain, step);
        if BlockSized(a, remain) { SizedSegment(this, a, remain, step); }
        ghost var before := cells;
        status := Erase(a, seg);
        Wider(c, before, cells, addr, len, a, seg);
        SameLength(before, cells, a, seg);
        if status != Fine {
          return;
        }
        FillFill(c, addr, a - addr, seg);
        a, remain := a + seg, remain - seg;
      }
      status := Fine;
    }
  }

  // ---------------------------------------------------------------------------
  // Facts about regions and words
  // ---------------------------------------------------------------------------

  function SizeAt(rs: seq<Region>, a: nat): nat {
    if rs == [] then 0
    else if rs[0].start <= a < rs[0].end then rs[0].size
    else SizeAt(rs[1..], a)
  }

  /** The regions reach to the end of a range. */
  ghost predicate Covered(rs: seq<Region>, addr: nat, len: nat) {
    |rs| > 0 && addr + len <= rs[|rs| - 1].end
  }

  /** An address lies at a block boundary of its region. */
  ghost predicate OnBlock(rs: seq<Region>, a: nat) {
    exists k :: 0 <= k < |rs| && rs[k].start <= a < rs[k].end && Divides(rs[k].size, a)
  }

  lemma {:induction false} SizeIs(rs: seq<Region>, k: nat, a: nat)
    requires k < |rs| && rs[k].start <= a < rs[k].end
    requires forall j :: 0 <= j < |rs| ==> rs[j].start < rs[j].end
    requires forall j :: 0 < j < |rs| ==> rs[j].start == rs[j - 1].end
    ensures SizeAt(rs, a) == rs[k].size
    decreases k
  {
    if k > 0 {
      StartsLater(rs, 0, k);
      assert rs[1..][k - 1] == rs[k];
      SizeIs(rs[1..], k - 1, a);
    }
  }

  lemma {:induction false} StartsLater(rs: seq<Region>, j: nat, k: nat)
    requires j < k < |rs|
    requires forall i :: 0 <= i < |rs| ==> rs[i].start < rs[i].end
    requires forall i :: 0 < i < |rs| ==> rs[i].start == rs[i - 1].end
    ensures rs[j].end <= rs[k].start
    decreases k - j
  {
    if k > j + 1 { StartsLater(rs, j, k - 1); }
  }

  lemma {:induction false} RegionOf(rs: seq<Region>, a: nat) returns (k: nat)
    requires |rs| > 0 && rs[0].start <= a < rs[|rs| - 1].end
    requires forall i :: 0 < i < |rs| ==> rs[i].start == rs[i - 1].end
    ensures k < |rs| && rs[k].start <= a < rs[k].end
    decreases |rs|
  {
    if a < rs[0].end {
      k := 0;
    } else {
      k := RegionOf(rs[1..], a);
      k := k + 1;
    }
  }

  lemma BlockDivides(f: Flash, k: nat, x: nat)
    requires f.Geometry() && k < |f.regions| && Divides(f.eraseBlock, x)
    ensures Divides(f.regions[k].size, x)
  {
    PowersDivide(f.regions[k].size, f.eraseBlock);
    DivTrans(f.regions[k].size, f.eraseBlock, x);
  }

  lemma FirstBlock(f: Flash, addr: nat, len: nat)
    requires f.Geometry() && Covered(f.regions, addr, len) && len > 0 && Divides(f.eraseBlock, addr)
    ensures OnBlock(f.regions, addr)
  {
    var k := RegionOf(f.regions, addr);
    BlockDivides(f, k, addr);
  }

  /** At a block boundary inside a good range the whole block lies in the range. */
  lemma GoodBlock(f: Flash, addr: nat, len: nat, a: nat)
    requires f.Geometry() && addr <= a < addr + len && OnBlock(f.regions, a)
    requires Divides(f.eraseBlock, addr) && Divides(f.eraseBlock, len)
    ensures var size := SizeAt(f.regions, a); size > 0 && a % size == 0 && a + size <= addr + len
  {
    var k :| 0 <= k < |f.regions| && f.regions[k].start <= a < f.regions[k].end && Divides(f.regions[k].size, a);
    SizeIs(f.regions, k, a);
    DivAdd(f.eraseBlock, addr, len);
    BlockDivides(f, k, addr + len);
    DivSub(f.regions[k].size, addr + len, a);
  }

  lemma NextBlock(f: Flash, addr: nat, len: nat, a: nat)
    requires f.Geometry() && addr <= a && OnBlock(f.regions, a) && Covered(f.regions, addr, len)
    requires a + SizeAt(f.regions, a) < addr + len
    ensures OnBlock(f.regions, a + SizeAt(f.regions, a))
  {
    var k :| 0 <= k < |f.regions| && f.regions[k].start <= a < f.regions[k].end && Divides(f.regions[k].size, a);
    var r := f.regions[k];
    SizeIs(f.regions, k, a);
    DivSub(r.size, r.end, a);
    DivMul(r.size, 1, r.size);
    DivAdd(r.size, a, r.size);
    if a + r.size == r.end {
      assert f.regions[k + 1].start == r.end;
    }
  }

  lemma FillOutside(c: seq<byte>, addr: nat, n: nat, len: nat)
    requires addr + len <= |c| && n <= len
    ensures UnchangedOutside(c, Fill(c, addr, n), addr, len)
  {
  }

  lemma Wider(c: seq<byte>, before: seq<byte>, after: seq<byte>, addr: nat, len: nat, a: nat, n: nat)
    requires UnchangedOutside(c, before, addr, len) && UnchangedOutside(before, after, a, n)
    requires addr <= a && a + n <= addr + len
    ensures UnchangedOutside(c, after, addr, len)
  {
  }

  lemma WithinPiece(c: seq<byte>, a: nat, seg: nat, rest: seq<byte>)
    requires seg <= |rest| && a + |rest| <= |c|
    ensures var d := Programmed(c, 2 * (a / 2), rest[..2 * (seg / 2)]);
            |d| == |c| && (a % 2 == 0 ==> UnchangedOutside(c, d, a, seg))
  {
  }

  lemma WithinProgram(c: seq<byte>, before: seq<byte>, addr: nat, len: nat, at: nat, s: seq<byte>)
    requires UnchangedOutside(c, before, addr, len) && addr <= at && at + |s| <= addr + len <= |c|
    ensures UnchangedOutside(c, Programmed(before, at, s), addr, len)
  {
  }

  /** Halving never pushes a piece over the end of the write buffer. */
  lemma WordBounds(a: nat, seg: nat, buffer: nat)
    requires Divides(2, buffer) && buffer > 0 && a % buffer + seg <= buffer
    ensures (2 * (a / 2)) % buffer + 2 * (seg / 2) <= buffer
  {
    if a % 2 == 1 {
      var q, m := a / buffer, a % buffer;
      assert a == q * buffer + m;
      if m == 0 {
        DivMul(buffer, q, a);
        DivTrans(2, buffer, a);
      }
      DivUnique(a - 1, buffer, q, m - 1);
    }
  }

  lemma NoMoreWords(c: seq<byte>, a: nat, s: seq<byte>, buffer: nat)
    requires a + |s| <= |c| && buffer > 0 && s == []
    ensures WordProgrammed(c, a, s, buffer) == c
  {
  }

  lemma BufferEven(f: Flash)
    requires f.Geometry()
    ensures f.buffer > 0 && Divides(2, f.buffer)
  {
  }

  lemma SameSelf(c: seq<byte>, a: nat, n: nat)
    ensures UnchangedOutside(c, c, a, n)
  {
  }

  lemma EvenAdd(x: nat, y: nat)
    ensures x % 2 == 0 && y % 2 == 0 ==> (x + y) % 2 == 0
  {
  }

  lemma SameLength(c: seq<byte>, d: seq<byte>, a: nat, n: nat)
    requires UnchangedOutside(c, d, a, n)
    ensures |c| == |d|
  {
  }

  lemma StepEven(f: Flash)
    requires f.Geometry()
    ensures var step := if f.buffer > STEP then f.buffer else STEP; step > 0 && Divides(2, step)
  {
  }

  lemma StepDivides(f: Flash)
    requires f.Geometry()
    ensures var step := if f.eraseBlock > STEP then f.eraseBlock else STEP;
            step > 0 && f.eraseBlock > 0 && Divides(f.eraseBlock, step)
  {
    StepIsPow2();
    if f.eraseBlock > STEP {
      DivMul(f.eraseBlock, 1, f.eraseBlock);
    } else {
      PowersDivide(f.eraseBlock, STEP);
    }
  }

  lemma EvenSegment(f: Flash, a: nat, remain: nat, step: nat)
    requires step > 0 && Divides(2, step) && f.WordSized(a, remain) && remain > 0
    ensures var seg := FlashDriver.Segment(a, remain, step);
            f.WordSized(a, seg) && f.WordSized(a + seg, remain - seg)
  {
    hide FlashDriver.Segment;
    if f.kind.Bpi? {
      SegmentDivides(2, a, remain, step);
    }
  }

  lemma SizedSegment(f: Flash, a: nat, remain: nat, step: nat)
    requires step > 0 && Divides(f.eraseBlock, step) && f.BlockSized(a, remain) && remain > 0
    ensures var seg := FlashDriver.Segment(a, remain, step);
            f.BlockSized(a, seg) && f.BlockSized(a + seg, remain - seg)
  {
    hide FlashDriver.Segment, Divides;
    var seg := FlashDriver.Segment(a, remain, step);
    SegmentDivides(f.eraseBlock, a, remain, step);
    DivAdd(f.eraseBlock, a, seg);
    DivSub(f.eraseBlock, remain, seg);
  }

  lemma NothingTiled(addr: nat)
    ensures ErasePlan.Tiles([], addr, 0)
  {
  }

  lemma PageStep(a: nat, n: nat)
    requires n > 0 && a % PAGE + (n - 1) < PAGE
    ensures a % PAGE + n <= PAGE
    ensures (a + n) % PAGE != 0 ==> a % PAGE + n < PAGE
  {
  }

  lemma Remaining(a: nat, left: nat)
    requires left > 0 && ErasePlan.Next(a, left) == 0
    ensures !(ErasePlan.Multiple(a) && ErasePlan.Multiple(left))
  {
  }
}
