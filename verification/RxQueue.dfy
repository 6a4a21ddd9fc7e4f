/** The receive queue object of the user-space driver: wrapping pointers and in-place arrays. */
module RxQueueObject {
  import opened Common
  import opened Mempool
  import opened Pointers
  import opened RxRing

  class RxQueue {
    const slots: array<Option<nat>>
    const cpl: array<Cpl>
    var headPtr: nat
    var tailPtr: nat
    var cleanTailPtr: nat
    var cplTailPtr: nat
    var accumulatedCqUpdates: nat
    /** Registers as the NIC sees them. */
    var headReg: nat
    var cplTailReg: nat
    ghost var view: Rx

    ghost predicate Coupled()
      reads this, slots, cpl
    {
      && slots.Length == 256 && cpl.Length == 256
      && slots[..] == view.slots && cpl[..] == view.cq
      && headPtr == Wrap32(view.head)
      && cleanTailPtr == Wrap32(view.clean)
      && RxInv(view)
    }

    /** All pointers agree with the view; holds between a refill and the rest of the call. */
    ghost predicate Synced()
      reads this, slots, cpl
    {
      && Coupled()
      && tailPtr == Wrap32(view.tail)
      && cplTailPtr == Wrap32(view.cqTail)
      && accumulatedCqUpdates == view.unreported <= 32
      && cplTailReg == view.reported % 65536
      && view.cqTail == view.reported + view.unreported
    }

    /** Between calls the NIC has been told the head. */
    ghost predicate Valid()
      reads this, slots, cpl
    {
      Synced() && Settled(view) && headReg == view.head % 65536
    }

    /** A NIC that widens the head register from a head it knew recovers the head. */
    lemma HeadIsTold(last: nat)
      requires Valid() && last <= view.head < last + 65536
      ensures Widen(Wrap32(last), headReg) == Wrap32(view.head)
    {
      hide RxInv, Widen;
      WidenRecovers(last, view.head);
    }

    constructor ()
      ensures Valid() && Blank(view) && fresh(slots) && fresh(cpl)
    {
      slots := new Option<nat>[256](_ => None);
      cpl := new Cpl[256](_ => Cpl(0, 0));
      headPtr, tailPtr, cleanTailPtr, cplTailPtr := 0, 0, 0, 0;
      accumulatedCqUpdates, headReg, cplTailReg := 0, 0, 0;
      new;
      hide RxInv, Settled;
      view := Rx(slots[..], cpl[..], 0, 0, 0, 0, 0, 0, []);
      BlankInv(view);
    }

    /** `mqnic_prepare_rx_desc` at the head, then advance the head. */
    method PostOne(pool: PacketPool) returns (ok: bool)
      requires Synced() && pool.Valid() && view.head < view.clean + 256
      modifies this`headPtr, this`view, slots, pool`freeStackTop, pool.refCount
      ensures pool.Valid()
      ensures match AllocFrom(old(pool.View()))
              case Exhausted => !ok
              case Allocated(p, b) => ok && Synced() && pool.View() == p && view == Post(old(view), b)
    {
      hide PoolInv;
      var buf := pool.Alloc();
      if buf == None {
        return false;
      }
      PostKeeps(view, buf.value);
      WrapKeepsSlot(view.head);
      WrapStep(view.head);
      hide RxInv;
      slots[headPtr % 256] := buf;
      headPtr := Wrap32(headPtr + 1);
      view := Post(view, buf.value);
      return true;
    }

    /** `mqnic_refill_rx_buffers`; `ok` is false where the program aborts on a dry pool. */
    method Refill(pool: PacketPool) returns (ok: bool)
      requires Valid() && pool.Valid()
      modifies this`headPtr, this`headReg, this`view, slots, pool`freeStackTop, pool.refCount
      ensures pool.Valid()
      ensures match RxRing.Refill(old(pool.View()), old(view))
              case Aborted => !ok
              case Refilled(p, r) =>
                ok && Synced() && pool.View() == p && view == r && headReg == view.head % 65536
    {
      hide RxInv, PoolInv;
      ghost var p0, r0 := pool.View(), view;
      Bounds(view);
      WrapDistance(view.head, view.clean);
      var missing := 256 - Wrap32(headPtr - cleanTailPtr);
      ghost var n := missing;
      if missing < 8 {
        return true;
      }
      while missing > 0
        invariant 0 <= missing && pool.Valid() && Synced()
        invariant view.head + missing == view.clean + 256
        invariant PostMany(pool.View(), view, missing) == PostMany(p0, r0, n)
      {
        ok := PostOne(pool);
        if !ok {
          return false;
        }
        missing := missing - 1;
      }
      WrapKeepsSlot(view.head);
      headReg := headPtr % 65536;
      return true;
    }

    /** The local CQ pointer of the completion loop stands for the view's. */
    ghost predicate CqAt(cqTail: nat)
      reads this`view
    {
      cqTail == Wrap32(view.cqTail) && cqTail % 256 == view.cqTail % 256
    }

    /** One round of the completion loop: hand over the buffer, empty the slot, clear the length. */
    method TakeOne(cqTail: nat, ghost n: nat) returns (k: Packet, next: nat)
      requires Coupled() && CqAt(cqTail) && n > 0 && cpl[cqTail % 256].len != 0
      modifies this`view, slots, cpl
      ensures Coupled() && CqAt(next)
      ensures Consume(old(view), n) == Batch(Consume(view, n - 1).rx, [k] + Consume(view, n - 1).packets)
    {
      assert Ready(view);
      ReadyMeans(view);
      ConsumeUnfold(view, n);
      WrapStep(view.cqTail);
      WrapKeepsSlot(view.cqTail + 1);
      hide RxInv, Consume;
      var cqIndex := cqTail % 256;
      var rxqIndex := cpl[cqIndex].index % 256;
      k := Packet(slots[rxqIndex].value, cpl[cqIndex].len);
      slots[rxqIndex] := None;
      cpl[cqIndex] := cpl[cqIndex].(len := 0);
      next := Wrap32(cqTail + 1);
      view := ConsumeOne(view);
    }

    /** With the flag clear or the budget spent, the batch is complete. */
    lemma NothingReady(cqTail: nat, n: nat)
      requires Coupled() && CqAt(cqTail) && (n == 0 || cpl[cqTail % 256].len == 0)
      ensures Consume(view, n) == Batch(view, [])
    {
      ConsumeNothing(view, n);
    }

    /** The completion loop of `mqnic_rx_batch_hints`: consume while the length flag is set. */
    method TakeBatch(bufs: array<Packet>, from: nat, max: nat) returns (count: nat, cqTail: nat)
      requires Coupled() && cplTailPtr == Wrap32(view.cqTail) && from + max <= bufs.Length
      modifies this`view, slots, cpl, bufs
      ensures Coupled() && count <= max && cqTail == Wrap32(view.cqTail)
      ensures view == Consume(old(view), max).rx && count == |Consume(old(view), max).packets|
      ensures forall i :: 0 <= i < count ==> bufs[from + i] == Consume(old(view), max).packets[i]
      ensures forall j :: 0 <= j < bufs.Length && (j < from || from + count <= j) ==> bufs[j] == old(bufs[j])
    {
      hide RxInv, Consume, Wrap32;
      ghost var r0 := view;
      ghost var got: seq<Packet> := [];
      cqTail := cplTailPtr;
      count := 0;
      WrapKeepsSlot(view.cqTail);
      while count < max && cpl[cqTail % 256].len != 0
        invariant |got| == count <= max && Coupled() && CqAt(cqTail)
        invariant Consume(r0, max) == Batch(Consume(view, max - count).rx, got + Consume(view, max - count).packets)
        invariant forall i :: 0 <= i < count ==> bufs[from + i] == got[i]
        invariant forall j :: 0 <= j < bufs.Length && (j < from || from + count <= j) ==> bufs[j] == old(bufs[j])
      {
        var k;
        k, cqTail := TakeOne(cqTail, max - count);
        ghost var rest := Consume(view, max - count - 1).packets;
        assert got + ([k] + rest) == got + [k] + rest;
        bufs[from + count] := k;
        got := got + [k];
        count := count + 1;
      }
      NothingReady(cqTail, max - count);
    }

    /** Walk the clean pointer over emptied slots, up to the completion count. */
    method AdvanceClean()
      requires Coupled() && tailPtr == Wrap32(view.tail)
      modifies this`view, this`cleanTailPtr
      ensures Coupled() && view == Clean(old(view))
    {
      Bounds(view);
      ghost var r0 := view;
      CleanKeeps(r0);
      hide RxInv;
      var c := cleanTailPtr;
      ghost var g := view.clean;
      WrapDistance(view.tail, g);
      WrapKeepsSlot(g);
      while c != tailPtr && slots[c % 256] == None
        invariant view == r0 && Coupled()
        invariant r0.clean <= g <= r0.tail && c == Wrap32(g) && c % 256 == g % 256
        invariant c == tailPtr <==> g == r0.tail
        invariant CleanUpTo(r0.slots, g, r0.tail) == CleanUpTo(r0.slots, r0.clean, r0.tail)
        decreases r0.tail - g
      {
        WrapStep(g);
        c := Wrap32(c + 1);
        g := g + 1;
        WrapDistance(r0.tail, g);
        WrapKeepsSlot(g);
      }
      cleanTailPtr := c;
      view := Clean(view);
    }

    /** Account for a batch: remember its completions, and tell the NIC once there are more than 32. */
    method ReportBatch(count: nat, cqTail: nat)
      requires Coupled() && cqTail == Wrap32(view.cqTail) && (count == 0 ==> cplTailPtr == cqTail)
      requires accumulatedCqUpdates == view.unreported <= 32 && cplTailReg == view.reported % 65536
      requires view.cqTail == view.reported + view.unreported + count
      modifies this`accumulatedCqUpdates, this`cplTailPtr, this`cplTailReg, this`view
      ensures Coupled() && view == Report(old(view), count) && cplTailPtr == Wrap32(view.cqTail)
      ensures accumulatedCqUpdates == view.unreported <= 32 && cplTailReg == view.reported % 65536
      ensures view.cqTail == view.reported + view.unreported
    {
      hide RxInv;
      ReportKeeps(view, count);
      if count != 0 {
        accumulatedCqUpdates := accumulatedCqUpdates + count;
        cplTailPtr := cqTail;
        if accumulatedCqUpdates > 32 {
          WrapKeepsSlot(view.cqTail);
          cplTailReg := cplTailPtr % 65536;
          accumulatedCqUpdates := 0;
        }
      }
      view := Report(view, count);
    }

    /** Everything `mqnic_rx_batch_hints` does after refilling. */
    method Drain(bufs: array<Packet>, from: nat, max: nat) returns (count: nat)
      requires Synced() && headReg == view.head % 65536 && from + max <= bufs.Length
      modifies this, slots, cpl, bufs
      ensures Valid() && count <= max
      ensures view == RxRing.Drain(old(view), max).rx && count == |RxRing.Drain(old(view), max).packets|
      ensures forall i :: 0 <= i < count ==> bufs[from + i] == RxRing.Drain(old(view), max).packets[i]
      ensures forall j :: 0 <= j < bufs.Length && (j < from || from + count <= j) ==> bufs[j] == old(bufs[j])
    {
      hide RxInv, Consume, CleanUpTo, Wrap32;
      ghost var r1 := view;
      Bounds(r1);
      var cqTail;
      count, cqTail := TakeBatch(bufs, from, max);
      Bounds(view);
      ReportBatch(count, cqTail);
      WrapAdd(r1.tail, count);
      tailPtr := Wrap32(tailPtr + count);
      AdvanceClean();
      DrainKeeps(r1, max);
    }

    /** `mqnic_rx_batch_hints`; `ok` is false where the program aborts on a dry pool. */
    method Receive(pool: PacketPool, bufs: array<Packet>, from: nat, max: nat)
      returns (ok: bool, count: nat)
      requires Valid() && pool.Valid() && from + max <= bufs.Length
      modifies this, slots, cpl, bufs, pool`freeStackTop, pool.refCount
      ensures pool.Valid()
      ensures match RxRing.Receive(old(pool.View()), old(view), max)
              case Failed => !ok
              case Received(p, r, packets) =>
                && ok && Valid() && pool.View() == p && view == r
                && Widen(Wrap32(old(view.head)), headReg) == Wrap32(view.head)
                && count == |packets| && count <= max
                && (forall i :: 0 <= i < count ==> bufs[from + i] == packets[i])
                && (forall j :: 0 <= j < bufs.Length && (j < from || from + count <= j) ==> bufs[j] == old(bufs[j]))
    {
      hide RxInv, PoolInv, RxRing.Drain;
      ok := Refill(pool);
      if !ok {
        return false, 0;
      }
      count := Drain(bufs, from, max);
      RefillStocks(old(pool.View()), old(view));
      Bounds(old(view));
      HeadIsTold(old(view.head));
    }

    /** The NIC writes the completion of posted descriptor `d` at its completion head. */
    method NicCompletes(ghost d: nat, index: nat, at: nat, len: nat)
      requires Valid() && Pending(view, d) && len != 0
      requires index == d % 65536 && at == |view.history| % 256
      modifies this`view, cpl
      ensures Valid() && view == NicComplete(old(view), d, len)
    {
      NicCompleteKeeps(view, d, len);
      hide RxInv, Settled;
      cpl[at] := Cpl(index, len);
      view := NicComplete(view, d, len);
    }
  }
}
