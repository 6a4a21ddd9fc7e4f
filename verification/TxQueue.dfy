/** The transmit queue object of the user-space driver: wrapping pointers and in-place arrays. */
module TxQueueObject {
  import opened Common
  import opened Mempool
  import opened Pointers
  import opened RxRing
  import opened TxRing

  class TxQueue {
    const slots: array<Option<nat>>
    const cpl: array<Cpl>
    var headPtr: nat
    var tailPtr: nat
    var cleanTailPtr: nat
    var cplTailPtr: nat
    /** Registers as the NIC sees them. */
    var headReg: nat
    var cplTailReg: nat
    ghost var view: Tx

    ghost predicate Coupled()
      reads this`headPtr, this`cleanTailPtr, this`tailPtr, this`view, slots, cpl
    {
      && slots.Length == 256 && cpl.Length == 256
      && slots[..] == view.slots && cpl[..] == view.cq
      && headPtr == Wrap32(view.head)
      && cleanTailPtr == Wrap32(view.clean)
      && tailPtr == Wrap32(view.tail)
      && TxInv(view)
    }

    /** All pointers agree with the view; holds while a batch is being posted. */
    ghost predicate Synced()
      reads this`headPtr, this`cleanTailPtr, this`tailPtr, this`cplTailPtr, this`view, slots, cpl
    {
      Coupled() && cplTailPtr == Wrap32(view.cqTail) && TxRest(view)
    }

    /** Between calls the NIC has been told the head and the completions taken. */
    ghost predicate Valid()
      reads this, slots, cpl
    {
      Synced() && headReg == view.head % 65536 && cplTailReg == view.cqTail % 65536
    }

    /** A NIC that widens the registers from values it knew recovers both pointers. */
    lemma PointersAreTold(lastHead: nat, lastTail: nat)
      requires Valid() && lastHead <= view.head < lastHead + 65536 && lastTail <= view.cqTail < lastTail + 65536
      ensures Widen(Wrap32(lastHead), headReg) == Wrap32(view.head)
      ensures Widen(Wrap32(lastTail), cplTailReg) == Wrap32(view.cqTail)
    {
      hide Synced, Widen;
      WidenRecovers(lastHead, view.head);
      WidenRecovers(lastTail, view.cqTail);
    }

    constructor ()
      ensures Valid() && TxBlank(view) && fresh(slots) && fresh(cpl)
    {
      slots := new Option<nat>[256](_ => None);
      cpl := new Cpl[256](_ => Cpl(0, 0));
      headPtr, tailPtr, cleanTailPtr, cplTailPtr := 0, 0, 0, 0;
      headReg, cplTailReg := 0, 0;
      new;
      view := Tx(slots[..], cpl[..], 0, 0, 0, 0, 0);
      TxBlankInv(view);
      hide TxInv;
    }

    /** One round of the completion loop: drop the ring's reference, empty the slot, clear the length. */
    method RetireOne(pool: PacketPool, cqIndex: nat, ghost n: nat) returns (ok: bool)
      requires Coupled() && pool.Valid() && Backed(pool.View(), view)
      requires TxReady(view) && cqIndex == view.cqTail % 256 && n > 0
      modifies this`view, slots, cpl, pool`freeStackTop, pool.freeStack, pool.refCount
      ensures ok && Coupled() && pool.Valid() && Backed(pool.View(), view)
      ensures view == Retire(old(view))
      ensures Reclaim(pool.View(), view, n - 1) == Reclaim(old(pool.View()), old(view), n)
    {
      RetireKeeps(view);
      ReclaimUnfold(pool.View(), view, n);
      hide TxInv, PoolInv, Backed, SameOutside, Reclaim;
      var txqIndex := cpl[cqIndex].index % 256;
      var b := slots[txqIndex].value;
      ok := pool.Free(b);
      if !ok {
        return;
      }
      slots[txqIndex] := None;
      cpl[cqIndex] := cpl[cqIndex].(len := 0);
      view := Retire(view);
    }

    /** The completion loop of `mqnic_process_tx_cq`. */
    method RetireBatch(pool: PacketPool, budget: nat) returns (ok: bool, done: nat, cqTail: nat)
      requires Synced() && pool.Valid() && Backed(pool.View(), view)
      modifies this`view, slots, cpl, pool`freeStackTop, pool.freeStack, pool.refCount
      ensures ok && Coupled() && pool.Valid() && cqTail == Wrap32(view.cqTail)
      ensures Reclaim(old(pool.View()), old(view), budget) == Reclaimed(pool.View(), view)
      ensures view.cqTail == old(view).cqTail + done
    {
      hide PoolInv, Backed, SameOutside, Reclaim;
      ghost var p0, t0 := pool.View(), view;
      cqTail := cplTailPtr;
      ok, done := true, 0;
      WrapKeepsSlot(view.cqTail);
      hide TxInv;
      while cpl[cqTail % 256].len != 0 && done < budget
        invariant ok && done <= budget && Coupled() && pool.Valid() && Backed(pool.View(), view)
        invariant cqTail == Wrap32(view.cqTail) && cqTail % 256 == view.cqTail % 256
        invariant view.cqTail == t0.cqTail + done
        invariant Reclaim(pool.View(), view, budget - done) == Reclaim(p0, t0, budget)
        decreases budget - done
      {
        WrapStep(view.cqTail);
        WrapKeepsSlot(view.cqTail + 1);
        ok := RetireOne(pool, cqTail % 256, budget - done);
        done := done + 1;
        cqTail := Wrap32(cqTail + 1);
      }
      ReclaimNothing(pool.View(), view, budget - done);
    }

    /** `mqnic_process_tx_cq`; `ok` is false where the program exits on a slot left occupied. */
    method ProcessCq(pool: PacketPool, budget: nat) returns (ok: bool)
      requires Valid() && pool.Valid() && Backed(pool.View(), view)
      modifies this, slots, cpl, pool`freeStackTop, pool.freeStack, pool.refCount
      ensures ok && Valid() && pool.Valid()
      ensures var f := Reclaim(old(pool.View()), old(view), budget);
        pool.View() == f.pool && view == TxClean(f.tx)
    {
      hide PoolInv, Backed, SameOutside, Reclaim;
      ghost var t0 := view;
      var done, cqTail;
      ok, done, cqTail := RetireBatch(pool, budget);
      cplTailPtr := cqTail;
      WrapKeepsSlot(view.cqTail);
      cplTailReg := cplTailPtr % 65536;
      WrapAdd(t0.tail, done);
      tailPtr := Wrap32(tailPtr + done);
      ok := AdvanceClean();
    }

    /** Walk the clean pointer up to the tail; every slot on the way must be empty. */
    method AdvanceClean() returns (ok: bool)
      requires slots.Length == 256 && cpl.Length == 256 && slots[..] == view.slots && cpl[..] == view.cq
      requires TxInv(view) && cleanTailPtr == Wrap32(view.clean) && headPtr == Wrap32(view.head)
      requires tailPtr == cplTailPtr == Wrap32(view.cqTail)
      modifies this`view, this`cleanTailPtr
      ensures ok && Synced() && view == TxClean(old(view))
    {
      TxCleanReachesTail(view);
      ghost var t0 := view;
      assert forall p: nat :: t0.clean <= p < t0.cqTail ==> At(t0.slots, p) == None;
      hide TxInv;
      ghost var g := view.clean;
      var c := cleanTailPtr;
      WrapDistance(t0.cqTail, g);
      WrapKeepsSlot(g);
      while c != tailPtr
        invariant view == t0
        invariant t0.clean <= g <= t0.cqTail && c == Wrap32(g) && c % 256 == g % 256
        invariant c == tailPtr <==> g == t0.cqTail
        decreases t0.cqTail - g
      {
        assert slots[c % 256] == At(t0.slots, g);
        if slots[c % 256] != None {
          return false;
        }
        WrapStep(g);
        c := Wrap32(c + 1);
        g := g + 1;
        WrapDistance(t0.cqTail, g);
        WrapKeepsSlot(g);
      }
      cleanTailPtr := c;
      view := TxClean(view);
      return true;
    }

    /** Post one buffer at the head and take a reference to it. */
    method PostOne(pool: PacketPool, b: nat)
      requires Synced() && pool.Valid() && Backed(pool.View(), view)
      requires CallerHolds(pool.View(), view, b) && view.head < view.clean + 128
      modifies this`view, this`headPtr, slots, pool.refCount
      ensures Synced() && pool.Valid() && Backed(pool.View(), view)
      ensures pool.View() == Retain(old(pool.View()), b) && view == TxPost(old(view), b)
    {
      ghost var p := pool.View();
      TxPostKeeps(p, view, b);
      hide PoolInv, Backed, SameOutside, TxInv;
      WrapKeepsSlot(view.head);
      WrapStep(view.head);
      slots[headPtr % 256] := Some(b);
      headPtr := Wrap32(headPtr + 1);
      pool.refCount[b] := pool.refCount[b] + 1;
      view := TxPost(view, b);
      assert pool.View() == Retain(p, b);
    }

    /** The first `k` of `bs` have been posted since the pool was `p0` and the ring `t0`. */
    ghost predicate Posted(pool: PacketPool, p0: Pool, t0: Tx, bs: seq<nat>, k: nat)
      requires k <= |bs| && pool.freeStackTop <= pool.freeStack.Length
      reads this, slots, cpl, pool, pool.freeStack, pool.refCount
    {
      && pool.Valid() && Synced() && Backed(pool.View(), view)
      && |t0.slots| == 256 && (forall i :: 0 <= i < |bs| ==> bs[i] < |p0.refs|)
      && SameOutside(p0, t0, pool.View(), view)
      && PostAll(p0, t0, bs[..k]) == Sent(pool.View(), view, k)
    }

    lemma PostedMeans(pool: PacketPool, p0: Pool, t0: Tx, bs: seq<nat>, k: nat)
      requires k <= |bs| && pool.freeStackTop <= pool.freeStack.Length && Posted(pool, p0, t0, bs, k)
      ensures pool.Valid() && Synced() && Backed(pool.View(), view) && |t0.slots| == 256
      ensures forall i :: 0 <= i < |bs| ==> bs[i] < |p0.refs|
      ensures PostAll(p0, t0, bs[..k]) == Sent(pool.View(), view, k)
    {
    }

    /** One round of the posting loop. */
    method PostNext(pool: PacketPool, b: nat, ghost p0: Pool, ghost t0: Tx, ghost bs: seq<nat>, ghost k: nat)
      requires k < |bs| && bs[k] == b && pool.freeStackTop <= pool.freeStack.Length && Posted(pool, p0, t0, bs, k)
      requires CallerHoldsAll(p0, t0, bs) && view.head < view.clean + 128
      modifies this`view, this`headPtr, slots, pool.refCount
      ensures pool.freeStackTop <= pool.freeStack.Length && Posted(pool, p0, t0, bs, k + 1)
      ensures view.head == old(view).head + 1 && view.clean == old(view).clean
    {
      hide PoolInv, Backed, SameOutside, TxInv;
      ghost var p, t := pool.View(), view;
      StillHolds(p0, t0, p, t, bs);
      assert CallerHolds(p, t, bs[k]);
      TxPostKeeps(p, t, b);
      PostOne(pool, b);
      SameOutsideTrans(p0, t0, p, t, pool.View(), view);
      assert bs[..k + 1][..k] == bs[..k];
    }

    /** `mqnic_is_tx_ring_full`: half the ring counts as full. */
    method IsFull() returns (full: bool)
      requires Synced()
      ensures full <==> view.head - view.clean >= 128
    {
      WrapDistance(view.head, view.clean);
      return Wrap32(headPtr - cleanTailPtr) >= 128;
    }

    /** The posting loop of `mqnic_tx_batch`. */
    method PostLoop(pool: PacketPool, bs: seq<nat>) returns (sent: nat)
      requires Synced() && pool.Valid() && Backed(pool.View(), view)
      requires CallerHoldsAll(pool.View(), view, bs)
      modifies this`view, this`headPtr, slots, pool.refCount
      ensures pool.Valid() && sent == Min(|bs|, 128 - (old(view).head - old(view).clean))
      ensures Synced() && Backed(pool.View(), view)
      ensures forall i :: 0 <= i < |bs| ==> bs[i] < |old(pool.View()).refs|
      ensures PostAll(old(pool.View()), old(view), bs[..sent]) == Sent(pool.View(), view, sent)
    {
      ghost var p0, t0 := pool.View(), view;
      sent := 0;
      PostedNone(pool, bs);
      assert t0.head <= t0.clean + 128;
      var full := IsFull();
      hide *;
      while sent < |bs| && !full
        invariant sent <= |bs| && pool.freeStackTop <= pool.freeStack.Length && Posted(pool, p0, t0, bs, sent)
        invariant view.head == t0.head + sent <= t0.clean + 128 && view.clean == t0.clean
        invariant full <==> view.head - view.clean >= 128
        decreases |bs| - sent
      {
        PostedMeans(pool, p0, t0, bs, sent);
        PostNext(pool, bs[sent], p0, t0, bs, sent);
        sent := sent + 1;
        PostedMeans(pool, p0, t0, bs, sent);
        full := IsFull();
      }
      PostedMeans(pool, p0, t0, bs, sent);
    }

    /** The posting loop, then the doorbell. */
    method PostBatch(pool: PacketPool, bs: seq<nat>) returns (sent: nat)
      requires Synced() && pool.Valid() && Backed(pool.View(), view)
      requires CallerHoldsAll(pool.View(), view, bs)
      modifies this`view, this`headPtr, this`headReg, slots, pool.refCount
      ensures pool.Valid() && sent == Min(|bs|, 128 - (old(view).head - old(view).clean))
      ensures Synced() && headReg == view.head % 65536 && Backed(pool.View(), view)
      ensures forall i :: 0 <= i < |bs| ==> bs[i] < |old(pool.View()).refs|
      ensures PostAll(old(pool.View()), old(view), bs[..sent]) == Sent(pool.View(), view, sent)
    {
      hide *;
      sent := PostLoop(pool, bs);
      HeadSlot();
      headReg := headPtr % 65536;
    }

    lemma HeadSlot()
      requires Synced()
      ensures headPtr % 65536 == view.head % 65536
    {
      hide TxInv;
      WrapKeepsSlot(view.head);
    }

    lemma PostedNone(pool: PacketPool, bs: seq<nat>)
      requires Synced() && pool.Valid() && Backed(pool.View(), view)
      requires CallerHoldsAll(pool.View(), view, bs)
      ensures Posted(pool, pool.View(), view, bs, 0)
    {
      ghost var p0, t0 := pool.View(), view;
      SameOutsideSelf(p0, t0);
      assert forall i :: 0 <= i < |bs| ==> CallerHolds(p0, t0, bs[i]);
      assert bs[..0] == [];
    }

    /** `mqnic_tx_batch`; neither the abort of a bad free nor the error exit can happen. */
    method Transmit(pool: PacketPool, bs: seq<nat>) returns (ok: bool, sent: nat)
      requires Valid() && pool.Valid() && Backed(pool.View(), view)
      requires CallerHoldsAll(pool.View(), view, bs)
      modifies this, slots, cpl, pool`freeStackTop, pool.freeStack, pool.refCount
      ensures ok && Valid() && pool.Valid() && Backed(pool.View(), view)
      ensures (forall i :: 0 <= i < |bs| ==> bs[i] < |old(pool.View()).refs|) &&
              TxRing.Transmit(old(pool.View()), old(view), bs) == Sent(pool.View(), view, sent)
      ensures Widen(Wrap32(old(view.head)), headReg) == Wrap32(view.head)
      ensures Widen(Wrap32(old(view.cqTail)), cplTailReg) == Wrap32(view.cqTail)
    {
      hide PoolInv, Backed, CallerHoldsAll, SameOutside, Reclaim, TxClean, PostAll, TxRing.Transmit, TxInv, Coupled;
      ghost var p0, t0 := pool.View(), view;
      ghost var f := ReclaimAllows(p0, t0, bs);
      TransmitMoves(p0, t0, bs);
      hide *;
      ok := ProcessCq(pool, 64);
      sent := PostBatch(pool, bs);
      PointersAreTold(t0.head, t0.cqTail);
    }

    /** The NIC writes the completion of the oldest descriptor it has not completed. */
    method NicCompletes(index: nat, at: nat, len: nat)
      requires Valid() && view.nicHead < view.head && len != 0
      requires index == view.nicHead % 65536 && at == view.nicHead % 256
      modifies this`view, cpl
      ensures Valid() && view == NicSent(old(view), len)
    {
      NicSentKeeps(view, len);
      hide TxInv;
      cpl[at] := Cpl(index, len);
      view := NicSent(view, len);
    }
  }
}
