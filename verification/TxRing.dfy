/**
 The transmit side of one driver queue.  The NIC completes descriptors in the order posted, so
 its side of the protocol is one counter: `nicHead` descriptors have been completed so far.
 */
module TxRing {
  import opened Common
  import opened Mempool
  import opened RxRing

  datatype Tx = Tx(
    slots: seq<Option<nat>>,
    cq: seq<Cpl>,
    head: nat,
    tail: nat,
    clean: nat,
    cqTail: nat,
    nicHead: nat)

  ghost predicate TxInv(t: Tx) {
    && |t.slots| == 256 && |t.cq| == 256
    && t.clean == t.tail <= t.cqTail <= t.nicHead <= t.head <= t.clean + 128
    && (forall p: nat :: t.clean <= p < t.clean + 256 ==> (At(t.slots, p).Some? <==> t.cqTail <= p < t.head))
    && (forall c: nat :: t.cqTail <= c < t.cqTail + 256 ==> (At(t.cq, c).len != 0 <==> c < t.nicHead))
    && (forall c: nat :: t.cqTail <= c < t.nicHead ==> At(t.cq, c).index == c % 65536)
  }

  /** Between calls every consumed completion has moved the clean pointer. */
  ghost predicate TxRest(t: Tx) {
    TxInv(t) && t.clean == t.cqTail
  }

  ghost predicate TxBlank(t: Tx) {
    && |t.slots| == 256 && (forall i :: 0 <= i < 256 ==> t.slots[i] == None)
    && |t.cq| == 256 && (forall i :: 0 <= i < 256 ==> t.cq[i].len == 0)
    && t.head == t.tail == t.clean == t.cqTail == t.nicHead == 0
  }

  lemma TxBlankInv(t: Tx)
    requires TxBlank(t)
    ensures TxRest(t)
  {
  }

  lemma TxSizes(t: Tx)
    requires TxInv(t)
    ensures |t.slots| == 256 && |t.cq| == 256 && t.clean <= t.cqTail && t.head <= t.clean + 128
  {
  }

  // ---- references the ring holds --------------------------------------------------------------

  function Held(slots: seq<Option<nat>>, b: nat): (n: nat) {
    multiset(slots)[Some(b)]
  }

  /** Every occurrence of a buffer in the slot table is backed by a reference of its own. */
  ghost predicate Backed(p: Pool, t: Tx) {
    && (forall b: nat :: b < |p.refs| ==> Held(t.slots, b) <= p.refs[b])
    && (forall b: nat :: |p.refs| <= b ==> Held(t.slots, b) == 0)
  }

  /** `p'` and `t'` differ from `p` and `t` only in references that the ring itself holds. */
  ghost predicate SameOutside(p: Pool, t: Tx, p': Pool, t': Tx) {
    && |p'.refs| == |p.refs|
    && forall b: nat :: b < |p.refs| ==> p'.refs[b] - Held(t'.slots, b) == p.refs[b] - Held(t.slots, b)
  }

  lemma HeldIfPresent(slots: seq<Option<nat>>, q: nat)
    requires |slots| == 256 && At(slots, q).Some?
    ensures Held(slots, At(slots, q).value) > 0
  {
    assert slots[q % 256] in multiset(slots);
  }

  lemma HeldAfterPut(slots: seq<Option<nat>>, q: nat, v: Option<nat>, b: nat)
    requires |slots| == 256
    ensures Held(Put(slots, q, v), b) ==
            Held(slots, b) - (if At(slots, q) == Some(b) then 1 else 0) + (if v == Some(b) then 1 else 0)
  {
    assert slots[q % 256] in multiset(slots);
    assert multiset(slots[q % 256 := v]) == multiset(slots) - multiset{slots[q % 256]} + multiset{v};
  }

  // ---- the NIC completes the oldest descriptor it has not completed -------------------------------

  function NicSent(t: Tx, len: nat): (t': Tx)
    requires |t.cq| == 256
  {
    t.(cq := Put(t.cq, t.nicHead, Cpl(t.nicHead % 65536, len)), nicHead := t.nicHead + 1)
  }

  lemma NicSentKeeps(t: Tx, len: nat)
    requires TxInv(t) && t.nicHead < t.head && len != 0
    ensures At(t.cq, t.nicHead).len == 0
    ensures TxInv(NicSent(t, len))
  {
  }

  // ---- reclaiming completed descriptors ------------------------------------------------------------

  predicate TxReady(t: Tx)
    requires |t.cq| == 256
  {
    At(t.cq, t.cqTail).len != 0
  }

  function Retire(t: Tx): (t': Tx)
    requires |t.slots| == 256 && |t.cq| == 256
  {
    t.(slots := Put(t.slots, At(t.cq, t.cqTail).index, None),
       cq := Put(t.cq, t.cqTail, At(t.cq, t.cqTail).(len := 0)),
       cqTail := t.cqTail + 1)
  }

  lemma RetireKeeps(t: Tx)
    requires TxInv(t)
    ensures TxReady(t) <==> t.cqTail != t.nicHead
    ensures TxReady(t) ==>
      && At(t.slots, At(t.cq, t.cqTail).index) == At(t.slots, t.cqTail)
      && At(t.slots, t.cqTail).Some?
      && Retire(t).slots == Put(t.slots, t.cqTail, None)
      && TxInv(Retire(t))
  {
    if TxReady(t) {
      IndexKeepsSlot(t.cqTail);
      var t' := Retire(t);
      assert t'.slots == Put(t.slots, t.cqTail, None);
      assert At(t'.cq, t.cqTail + 256) == At(t'.cq, t.cqTail);
    }
  }

  datatype Reclaimed = Reclaimed(pool: Pool, tx: Tx)

  /** Free the buffers of completed descriptors, at most `n`, until the length flag is clear. */
  function Reclaim(p: Pool, t: Tx, n: nat): (f: Reclaimed)
    requires PoolInv(p) && TxInv(t) && Backed(p, t)
    ensures PoolInv(f.pool) && TxInv(f.tx) && Backed(f.pool, f.tx)
    ensures SameOutside(p, t, f.pool, f.tx)
    ensures f.tx.cqTail == t.cqTail + Min(n, t.nicHead - t.cqTail)
    ensures f.tx.clean == t.clean && f.tx.head == t.head && f.tx.nicHead == t.nicHead
    ensures |f.pool.free| >= |p.free|
    decreases n
  {
    RetireKeeps(t);
    if n == 0 || !TxReady(t) then Reclaimed(p, t)
    else
      HeldIfPresent(t.slots, t.cqTail);
      var b := At(t.slots, t.cqTail).value;
      var p' := Release(p, b).value;
      RetireBacked(p, t);
      Reclaim(p', Retire(t), n - 1)
  }

  lemma ReclaimNothing(p: Pool, t: Tx, n: nat)
    requires PoolInv(p) && TxInv(t) && Backed(p, t) && (n == 0 || !TxReady(t))
    ensures Reclaim(p, t, n) == Reclaimed(p, t)
  {
  }

  lemma ReclaimUnfold(p: Pool, t: Tx, n: nat)
    requires PoolInv(p) && TxInv(t) && Backed(p, t) && n > 0 && TxReady(t)
    ensures At(t.slots, t.cqTail).Some? && TxInv(Retire(t))
    ensures var b := At(t.slots, t.cqTail).value;
      && b < |p.refs| && Release(p, b).Some? && Backed(Release(p, b).value, Retire(t))
      && Reclaim(p, t, n) == Reclaim(Release(p, b).value, Retire(t), n - 1)
  {
    RetireKeeps(t);
    RetireBacked(p, t);
  }

  lemma RetireBacked(p: Pool, t: Tx)
    requires PoolInv(p) && TxInv(t) && Backed(p, t) && TxReady(t)
    ensures At(t.slots, t.cqTail).Some?
    ensures var b := At(t.slots, t.cqTail).value;
      && b < |p.refs| && p.refs[b] > 0
      && Backed(Release(p, b).value, Retire(t))
      && SameOutside(p, t, Release(p, b).value, Retire(t))
  {
    hide TxInv, PoolInv;
    TxSizes(t);
    RetireKeeps(t);
    HeldIfPresent(t.slots, t.cqTail);
    forall c: nat ensures Held(Retire(t).slots, c) ==
      Held(t.slots, c) - if At(t.slots, t.cqTail) == Some(c) then 1 else 0
    {
      HeldAfterPut(t.slots, t.cqTail, None, c);
    }
  }

  /** Move the tail by the completions consumed and walk the clean pointer up to it. */
  function TxClean(t: Tx): (t': Tx)
    requires |t.slots| == 256 && t.clean <= t.cqTail
  {
    t.(tail := t.cqTail, clean := CleanUpTo(t.slots, t.clean, t.cqTail))
  }

  /** In-order completion: the walk never meets an occupied slot, so the error exit is dead code. */
  lemma TxCleanReachesTail(t: Tx)
    requires TxInv(t)
    ensures CleanUpTo(t.slots, t.clean, t.cqTail) == t.cqTail
    ensures TxRest(TxClean(t))
  {
    var c := CleanUpTo(t.slots, t.clean, t.cqTail);
    assert At(t.slots, c).Some? <==> t.cqTail <= c < t.head;
    var t' := TxClean(t);
    forall p: nat | t'.clean <= p < t'.clean + 256
      ensures At(t'.slots, p).Some? <==> t'.cqTail <= p < t'.head
    {
      if t.clean + 256 <= p {
        assert At(t.slots, p) == At(t.slots, p - 256);
      }
    }
  }

  // ---- posting -------------------------------------------------------------------------------------

  function Retain(p: Pool, b: nat): (p': Pool)
    requires b < |p.refs|
  {
    p.(refs := p.refs[b := p.refs[b] + 1])
  }

  function TxPost(t: Tx, b: nat): (t': Tx)
    requires |t.slots| == 256
  {
    t.(slots := Put(t.slots, t.head, Some(b)), head := t.head + 1)
  }

  /** The caller's own reference to `b`, on top of what the ring holds. */
  predicate CallerHolds(p: Pool, t: Tx, b: nat) {
    b < |p.refs| && p.refs[b] > Held(t.slots, b)
  }

  ghost predicate CallerHoldsAll(p: Pool, t: Tx, bufs: seq<nat>) {
    forall i :: 0 <= i < |bufs| ==> CallerHolds(p, t, bufs[i])
  }

  ghost predicate TxGood(p: Pool, t: Tx) {
    PoolInv(p) && TxInv(t) && Backed(p, t)
  }

  lemma TxPostKeeps(p: Pool, t: Tx, b: nat)
    requires TxGood(p, t) && CallerHolds(p, t, b) && t.head - t.clean < 128
    ensures At(t.slots, t.head).None?
    ensures TxGood(Retain(p, b), TxPost(t, b))
    ensures SameOutside(p, t, Retain(p, b), TxPost(t, b))
  {
    forall c: nat ensures Held(TxPost(t, b).slots, c) == Held(t.slots, c) + if c == b then 1 else 0 {
      HeldAfterPut(t.slots, t.head, Some(b), c);
    }
  }

  lemma StillHolds(p: Pool, t: Tx, p': Pool, t': Tx, bufs: seq<nat>)
    requires SameOutside(p, t, p', t') && CallerHoldsAll(p, t, bufs)
    ensures CallerHoldsAll(p', t', bufs)
  {
    forall i | 0 <= i < |bufs| ensures CallerHolds(p', t', bufs[i]) {
      assert CallerHolds(p, t, bufs[i]);
    }
  }

  lemma SameOutsideSelf(p: Pool, t: Tx)
    ensures SameOutside(p, t, p, t)
  {
  }

  lemma SameOutsideTrans(p: Pool, t: Tx, p1: Pool, t1: Tx, p2: Pool, t2: Tx)
    requires SameOutside(p, t, p1, t1) && SameOutside(p1, t1, p2, t2)
    ensures SameOutside(p, t, p2, t2)
  {
    forall b: nat | b < |p.refs|
      ensures p2.refs[b] - Held(t2.slots, b) == p.refs[b] - Held(t.slots, b)
    {
      assert p1.refs[b] - Held(t1.slots, b) == p.refs[b] - Held(t.slots, b);
    }
  }

  datatype Sent = Sent(pool: Pool, tx: Tx, count: nat)

  /** Post `bufs` in order, each gaining a reference. */
  function PostAll(p: Pool, t: Tx, bufs: seq<nat>): (s: Sent)
    requires |t.slots| == 256
    requires forall i :: 0 <= i < |bufs| ==> bufs[i] < |p.refs|
    ensures |s.tx.slots| == 256 && |s.pool.refs| == |p.refs| && s.count == |bufs|
    ensures s.pool.free == p.free && s.tx == t.(head := t.head + |bufs|, slots := s.tx.slots)
    decreases |bufs|
  {
    if bufs == [] then Sent(p, t, 0)
    else
      var n := |bufs| - 1;
      var s := PostAll(p, t, bufs[..n]);
      Sent(Retain(s.pool, bufs[n]), TxPost(s.tx, bufs[n]), |bufs|)
  }

  lemma {:induction false} PostAllKeeps(p: Pool, t: Tx, bufs: seq<nat>)
    requires TxGood(p, t) && CallerHoldsAll(p, t, bufs) && t.head + |bufs| <= t.clean + 128
    ensures forall i :: 0 <= i < |bufs| ==> bufs[i] < |p.refs|
    ensures TxGood(PostAll(p, t, bufs).pool, PostAll(p, t, bufs).tx)
    ensures SameOutside(p, t, PostAll(p, t, bufs).pool, PostAll(p, t, bufs).tx)
    decreases |bufs|
  {
    hide SameOutside, Backed, PoolInv;
    assert forall i :: 0 <= i < |bufs| ==> CallerHolds(p, t, bufs[i]);
    if bufs == [] {
      SameOutsideSelf(p, t);
    } else {
      var n := |bufs| - 1;
      PostAllKeeps(p, t, bufs[..n]);
      var s := PostAll(p, t, bufs[..n]);
      StillHolds(p, t, s.pool, s.tx, bufs);
      assert CallerHolds(s.pool, s.tx, bufs[n]);
      TxPostKeeps(s.pool, s.tx, bufs[n]);
      SameOutsideTrans(p, t, s.pool, s.tx, Retain(s.pool, bufs[n]), TxPost(s.tx, bufs[n]));
    }
  }

  /** The buffers follow, in the order given, what the ring already holds. */
  lemma {:induction false} PostAllOrder(p: Pool, t: Tx, bufs: seq<nat>)
    requires |t.slots| == 256 && |bufs| <= 128
    requires forall i :: 0 <= i < |bufs| ==> bufs[i] < |p.refs|
    ensures var s := PostAll(p, t, bufs).tx.slots;
      && (forall q: nat :: t.head <= q + 128 && q < t.head ==> At(s, q) == At(t.slots, q))
      && (forall i :: 0 <= i < |bufs| ==> At(s, t.head + i) == Some(bufs[i]))
    decreases |bufs|
  {
    if bufs != [] {
      var n := |bufs| - 1;
      PostAllOrder(p, t, bufs[..n]);
      var s := PostAll(p, t, bufs[..n]).tx.slots;
      var s' := PostAll(p, t, bufs).tx.slots;
      assert s' == Put(s, t.head + n, Some(bufs[n]));
      forall i | 0 <= i < |bufs| ensures At(s', t.head + i) == Some(bufs[i]) {
        if i < n { assert bufs[..n][i] == bufs[i]; }
      }
    }
  }

  /** `mqnic_tx_batch`: reclaim at most 64 completions, then post until the ring is half full. */
  function Transmit(p: Pool, t: Tx, bufs: seq<nat>): (s: Sent)
    requires TxGood(p, t) && forall i :: 0 <= i < |bufs| ==> bufs[i] < |p.refs|
  {
    var f := Reclaim(p, t, 64);
    var t1 := TxClean(f.tx);
    TxCleanReachesTail(f.tx);
    PostAll(f.pool, t1, bufs[..Min(|bufs|, 128 - (t1.head - t1.clean))])
  }

  /** After reclaiming, the ring rests and the caller still holds what it held. */
  lemma ReclaimAllows(p0: Pool, t0: Tx, bs: seq<nat>) returns (f: Reclaimed)
    requires TxGood(p0, t0) && CallerHoldsAll(p0, t0, bs)
    ensures f == Reclaim(p0, t0, 64) && TxRest(TxClean(f.tx))
    ensures Backed(f.pool, TxClean(f.tx)) && CallerHoldsAll(f.pool, TxClean(f.tx), bs)
    ensures SameOutside(p0, t0, f.pool, TxClean(f.tx)) && TxInv(f.tx) && PoolInv(f.pool)
    ensures |f.pool.refs| == |p0.refs| && forall i :: 0 <= i < |bs| ==> bs[i] < |p0.refs|
    ensures Transmit(p0, t0, bs) == var t1 := TxClean(f.tx);
            PostAll(f.pool, t1, bs[..Min(|bs|, 128 - (t1.head - t1.clean))])
  {
    hide PoolInv, TxInv, TxRest, Backed, SameOutside, CallerHoldsAll, Reclaim, TxClean, PostAll;
    HeldInRange(p0, t0, bs);
    f := Reclaim(p0, t0, 64);
    TxSizes(f.tx);
    TxCleanReachesTail(f.tx);
    CleanBacked(p0, t0, f.pool, f.tx);
    StillHolds(p0, t0, f.pool, TxClean(f.tx), bs);
    HeldInRange(f.pool, TxClean(f.tx), bs);
    SameSize(p0, t0, f.pool, f.tx);
  }

  lemma HeldInRange(p: Pool, t: Tx, bs: seq<nat>)
    requires CallerHoldsAll(p, t, bs)
    ensures forall i :: 0 <= i < |bs| ==> bs[i] < |p.refs|
  {
    forall i | 0 <= i < |bs| ensures bs[i] < |p.refs| { assert CallerHolds(p, t, bs[i]); }
  }

  lemma SameSize(p: Pool, t: Tx, p': Pool, t': Tx)
    requires SameOutside(p, t, p', t')
    ensures |p'.refs| == |p.refs|
  {
  }

  /** A transmit call touches no reference but the ring's own, and posts as many buffers as fit. */
  lemma TransmitKeeps(p: Pool, t: Tx, bufs: seq<nat>)
    requires TxGood(p, t) && TxRest(t) && CallerHoldsAll(p, t, bufs)
    ensures forall i :: 0 <= i < |bufs| ==> bufs[i] < |p.refs|
    ensures var s := Transmit(p, t, bufs);
      && TxGood(s.pool, s.tx) && TxRest(s.tx) && SameOutside(p, t, s.pool, s.tx)
      && s.tx.nicHead == t.nicHead && s.tx.head == t.head + s.count
      && s.tx.clean == t.clean + Min(64, t.nicHead - t.clean)
      && s.count == Min(|bufs|, 128 - (t.head - s.tx.clean))
  {
    var f := ReclaimAllows(p, t, bufs);
    var t1 := TxClean(f.tx);
    var n := Min(|bufs|, 128 - (t1.head - t1.clean));
    assert CallerHoldsAll(f.pool, t1, bufs[..n]) by {
      assert forall i :: 0 <= i < |bufs| ==> CallerHolds(f.pool, t1, bufs[i]);
    }
    assert t1.clean == t.clean + Min(64, t.nicHead - t.clean);
    hide SameOutside, Backed, PoolInv, TxInv, CallerHoldsAll, Reclaim, TxClean;
    PostAllKeeps(f.pool, t1, bufs[..n]);
    var s := PostAll(f.pool, t1, bufs[..n]);
    SameOutsideTrans(p, t, f.pool, t1, s.pool, s.tx);
  }

  /** Neither pointer the NIC is told moves by more than half the ring. */
  lemma TransmitMoves(p: Pool, t: Tx, bufs: seq<nat>)
    requires TxGood(p, t) && TxRest(t) && CallerHoldsAll(p, t, bufs)
    ensures forall i :: 0 <= i < |bufs| ==> bufs[i] < |p.refs|
    ensures var t' := Transmit(p, t, bufs).tx;
      t.head <= t'.head <= t.head + 128 && t.cqTail <= t'.cqTail <= t.cqTail + 64
  {
    hide PoolInv, Backed, CallerHoldsAll, SameOutside, Transmit;
    TransmitKeeps(p, t, bufs);
  }

  lemma CleanBacked(p: Pool, t: Tx, p': Pool, t': Tx)
    requires |t'.slots| == 256 && t'.clean <= t'.cqTail
    requires Backed(p', t') && SameOutside(p, t, p', t')
    ensures Backed(p', TxClean(t')) && SameOutside(p, t, p', TxClean(t'))
  {
  }

  // ---- the ring carries what was posted, in order --------------------------------------------------

  /** `log` is everything ever posted: its length is the head, and its pending part is in the slots. */
  ghost predicate Carries(t: Tx, log: seq<nat>) {
    && |t.slots| == 256 && t.head == |log|
    && forall p: nat :: t.cqTail <= p < t.head ==> At(t.slots, p) == Some(log[p])
  }

  lemma RetireCarries(t: Tx, log: seq<nat>)
    requires TxInv(t) && TxReady(t) && Carries(t, log)
    ensures Carries(Retire(t), log)
  {
    RetireKeeps(t);
    hide At, Put;
  }

  lemma {:induction false} ReclaimCarries(p: Pool, t: Tx, n: nat, log: seq<nat>)
    requires PoolInv(p) && TxInv(t) && Backed(p, t) && Carries(t, log)
    ensures Carries(Reclaim(p, t, n).tx, log)
    decreases n
  {
    hide PoolInv, TxInv, Backed, Carries, Reclaim;
    TxSizes(t);
    if n == 0 || !TxReady(t) {
      ReclaimNothing(p, t, n);
    } else {
      ReclaimUnfold(p, t, n);
      RetireCarries(t, log);
      var p' := Release(p, At(t.slots, t.cqTail).value).value;
      ReclaimCarries(p', Retire(t), n - 1, log);
    }
  }

  lemma PostAllCarries(p: Pool, t: Tx, bufs: seq<nat>, log: seq<nat>)
    requires Carries(t, log) && |bufs| <= 128 && t.head <= t.cqTail + 128
    requires forall i :: 0 <= i < |bufs| ==> bufs[i] < |p.refs|
    ensures Carries(PostAll(p, t, bufs).tx, log + bufs)
  {
    hide At, Put;
    PostAllOrder(p, t, bufs);
    var s := PostAll(p, t, bufs).tx;
    forall q: nat | s.cqTail <= q < s.head ensures At(s.slots, q) == Some((log + bufs)[q]) {
      if t.head <= q { assert At(s.slots, t.head + (q - t.head)) == Some(bufs[q - t.head]); }
    }
  }

  lemma CleanCarries(t: Tx, log: seq<nat>)
    requires TxInv(t) && Carries(t, log)
    ensures var t1 := TxClean(t);
      Carries(t1, log) && t1.clean == t1.cqTail && t1.cqTail <= t1.head <= t1.clean + 128
  {
    hide At;
    TxCleanReachesTail(t);
  }

  /** A transmit call appends the buffers it accepts, in the order given. */
  lemma TransmitCarries(p: Pool, t: Tx, bufs: seq<nat>, log: seq<nat>)
    requires TxGood(p, t) && Carries(t, log) && CallerHoldsAll(p, t, bufs)
    ensures forall i :: 0 <= i < |bufs| ==> bufs[i] < |p.refs|
    ensures Transmit(p, t, bufs).count <= |bufs|
    ensures Carries(Transmit(p, t, bufs).tx, log + bufs[..Transmit(p, t, bufs).count])
  {
    hide PoolInv, TxInv, TxRest, Backed, CallerHoldsAll, SameOutside, Reclaim, TxClean, Carries, PostAll, Transmit;
    var f := ReclaimAllows(p, t, bufs);
    ReclaimCarries(p, t, 64, log);
    CleanCarries(f.tx, log);
    TxSizes(f.tx);
    var t1 := TxClean(f.tx);
    PostAllCarries(f.pool, t1, bufs[..Min(|bufs|, 128 - (t1.head - t1.clean))], log);
  }
}
