/**
 The receive side of one driver queue, together with what the NIC knows about it.

 Pointers are kept here as the unbounded counters that the driver's wrapping 32-bit words
 stand for.  `slots` is the table of buffers handed to the NIC, `cq` the completion ring in
 shared memory.  `history` is the NIC's side of the protocol: the descriptors it has
 completed so far, in the order of completion.  The completion with position `c` in the
 completion ring is the one for descriptor `history[c]`.
 */
module RxRing {
  import opened Common
  import opened Mempool

  datatype Cpl = Cpl(index: nat, len: nat)

  datatype Packet = Packet(buf: nat, len: nat)

  function Bufs(packets: seq<Packet>): (bs: seq<nat>)
    ensures |bs| == |packets| && forall i :: 0 <= i < |bs| ==> bs[i] == packets[i].buf
  {
    seq(|packets|, i requires 0 <= i < |packets| => packets[i].buf)
  }

  /** Element of a ring of 256 entries at a free-running pointer (`ptr & size_mask`). */
  function At<T>(s: seq<T>, p: nat): (v: T)
    requires |s| == 256
  {
    s[p % 256]
  }

  function Put<T>(s: seq<T>, p: nat, v: T): (s': seq<T>)
    requires |s| == 256
    ensures |s'| == 256 && At(s', p) == v
    ensures forall q: nat :: p < q + 256 && q < p + 256 && q != p ==> At(s', q) == At(s, q)
    ensures forall q: nat :: At(s', q) == v || At(s', q) == At(s, q)
  {
    s[p % 256 := v]
  }

  datatype Rx = Rx(
    slots: seq<Option<nat>>,
    cq: seq<Cpl>,
    head: nat,
    tail: nat,
    clean: nat,
    cqTail: nat,
    unreported: nat,
    reported: nat,
    history: seq<nat>)

  /** The driver has taken back the buffer of descriptor `p`. */
  ghost predicate Consumed(r: Rx, p: nat)
    requires r.tail <= |r.history|
  {
    p in r.history[..r.tail]
  }

  /** The NIC may still write into the buffer of descriptor `p`. */
  predicate Pending(r: Rx, p: nat) {
    p < r.head && p !in r.history
  }

  ghost predicate Counters(r: Rx) {
    && |r.slots| == 256 && |r.cq| == 256
    && r.clean <= r.tail <= |r.history| <= r.head <= r.clean + 256
    && r.cqTail == r.tail
    && Distinct(r.history) && Below(r.history, r.head)
  }

  /** A slot is occupied exactly while its descriptor is posted and not consumed. */
  ghost predicate SlotInv(r: Rx)
    requires Counters(r)
  {
    && (forall p: nat :: p < r.clean ==> Consumed(r, p))
    && (forall p: nat :: r.clean <= p < r.head ==> (At(r.slots, p).None? <==> Consumed(r, p)))
    && (forall p: nat :: r.head <= p < r.clean + 256 ==> At(r.slots, p).None?)
  }

  /** A completion entry is marked exactly while it lies between the driver's tail and the NIC's head. */
  ghost predicate CqInv(r: Rx)
    requires Counters(r)
  {
    && (forall c: nat :: r.cqTail <= c < r.cqTail + 256 ==> (At(r.cq, c).len != 0 <==> c < |r.history|))
    && (forall c: nat :: r.cqTail <= c < |r.history| ==> At(r.cq, c).index == r.history[c] % 65536)
  }

  ghost predicate RxInv(r: Rx) {
    Counters(r) && SlotInv(r) && CqInv(r)
  }

  lemma Bounds(r: Rx)
    requires RxInv(r)
    ensures |r.slots| == 256 && |r.cq| == 256
    ensures r.clean <= r.tail <= |r.history| <= r.head <= r.clean + 256 && r.cqTail == r.tail
  {
  }

  /**
   Holds between batches: the clean pointer is the oldest descriptor not consumed, or the head
   when there is none, and all but at most 32 consumed completions have been reported.
   */
  ghost predicate Settled(r: Rx)
    requires Counters(r)
  {
    && (r.clean == r.head || !Consumed(r, r.clean))
    && r.cqTail == r.reported + r.unreported
    && r.unreported <= 32
  }

  /** State right after the rings are created. */
  ghost predicate Blank(r: Rx) {
    && |r.slots| == 256 && (forall i :: 0 <= i < 256 ==> r.slots[i] == None)
    && |r.cq| == 256 && (forall i :: 0 <= i < 256 ==> r.cq[i].len == 0)
    && r.head == r.tail == r.clean == r.cqTail == r.unreported == r.reported == 0
    && r.history == []
  }

  lemma BlankInv(r: Rx)
    requires Blank(r)
    ensures RxInv(r) && Settled(r)
  {
  }

  // ---- posting a buffer -------------------------------------------------------------------

  function Post(r: Rx, b: nat): (r': Rx)
    requires |r.slots| == 256
  {
    r.(slots := Put(r.slots, r.head, Some(b)), head := r.head + 1)
  }

  lemma PostKeeps(r: Rx, b: nat)
    requires RxInv(r) && r.head - r.clean < 256
    ensures At(r.slots, r.head).None?
    ensures RxInv(Post(r, b))
    ensures Settled(r) ==> Settled(Post(r, b))
  {
    var r' := Post(r, b);
    assert !Consumed(r, r.head);
    assert forall p: nat :: Consumed(r', p) <==> Consumed(r, p);
  }

  // ---- the NIC completes a posted descriptor ----------------------------------------------

  function NicComplete(r: Rx, d: nat, len: nat): (r': Rx)
    requires |r.cq| == 256
  {
    r.(cq := Put(r.cq, |r.history|, Cpl(d % 65536, len)), history := r.history + [d])
  }

  lemma NicCompleteKeeps(r: Rx, d: nat, len: nat)
    requires RxInv(r) && Pending(r, d) && len != 0
    ensures |r.history| < r.cqTail + 256 && At(r.cq, |r.history|).len == 0
    ensures RxInv(NicComplete(r, d, len))
    ensures Settled(r) ==> Settled(NicComplete(r, d, len))
  {
    Pigeonhole(r.history, r.head);
    var r' := NicComplete(r, d, len);
    assert r'.history[..r'.tail] == r.history[..r.tail];
    assert forall p: nat :: Consumed(r', p) <==> Consumed(r, p);
  }

  // ---- the driver consumes the completion at its CQ tail ------------------------------------

  predicate Ready(r: Rx)
    requires |r.cq| == 256
  {
    At(r.cq, r.cqTail).len != 0
  }

  function ConsumeOne(r: Rx): (r': Rx)
    requires |r.slots| == 256 && |r.cq| == 256
  {
    r.(slots := Put(r.slots, At(r.cq, r.cqTail).index, None),
       cq := Put(r.cq, r.cqTail, At(r.cq, r.cqTail).(len := 0)),
       tail := r.tail + 1, cqTail := r.cqTail + 1)
  }

  /** The flag agrees with the head register, and the completion names an occupied slot. */
  lemma ReadyMeans(r: Rx)
    requires RxInv(r)
    ensures Ready(r) <==> r.cqTail != |r.history|
    ensures Ready(r) ==> var d := r.history[r.tail];
      && r.clean <= d < r.head && !Consumed(r, d)
      && At(r.cq, r.cqTail).index % 256 == d % 256
      && At(r.slots, At(r.cq, r.cqTail).index) == At(r.slots, d)
      && At(r.slots, d).Some?
  {
    if Ready(r) {
      var d := r.history[r.tail];
      assert !Consumed(r, d);
      IndexKeepsSlot(d);
    }
  }

  /** The 16-bit index in a completion still names the slot. */
  lemma IndexKeepsSlot(d: nat)
    ensures (d % 65536) % 256 == d % 256
  {
    assert d % 65536 == d - 256 * (256 * (d / 65536));
  }

  lemma ConsumeOneKeeps(r: Rx)
    requires RxInv(r) && Ready(r)
    ensures RxInv(ConsumeOne(r))
    ensures forall p: nat :: Consumed(ConsumeOne(r), p) <==> Consumed(r, p) || p == r.history[r.tail]
  {
    ReadyMeans(r);
    var r' := ConsumeOne(r);
    var d := r.history[r.tail];
    assert r'.history[..r'.tail] == r.history[..r.tail] + [d];
    assert r'.slots == Put(r.slots, d, None);
    assert forall p: nat :: Consumed(r', p) <==> Consumed(r, p) || p == d;
    assert At(r'.cq, r.cqTail + 256) == At(r'.cq, r.cqTail);
  }

  // ---- a whole batch --------------------------------------------------------------------------

  datatype Batch = Batch(rx: Rx, packets: seq<Packet>)

  /** Consume completions, at most `n`, until the length flag at the CQ tail is clear. */
  function Consume(r: Rx, n: nat): (b: Batch)
    requires RxInv(r)
    ensures RxInv(b.rx)
    ensures |b.packets| == Min(n, |r.history| - r.tail)
    ensures b.rx.tail == r.tail + |b.packets|
    ensures b.rx.head == r.head && b.rx.clean == r.clean && b.rx.history == r.history
    ensures b.rx.unreported == r.unreported && b.rx.reported == r.reported
    decreases n
  {
    ReadyMeans(r);
    if n == 0 || !Ready(r) then
      Batch(r, [])
    else
      ConsumeOneKeeps(r);
      var rest := Consume(ConsumeOne(r), n - 1);
      var first := Packet(At(r.slots, At(r.cq, r.cqTail).index).value, At(r.cq, r.cqTail).len);
      Batch(rest.rx, [first] + rest.packets)
  }

  lemma ConsumeNothing(r: Rx, n: nat)
    requires RxInv(r) && (n == 0 || !Ready(r))
    ensures Consume(r, n) == Batch(r, [])
  {
  }

  lemma ConsumeUnfold(r: Rx, n: nat)
    requires RxInv(r) && n > 0 && Ready(r)
    ensures RxInv(ConsumeOne(r)) && At(r.slots, At(r.cq, r.cqTail).index).Some?
    ensures var rest := Consume(ConsumeOne(r), n - 1);
            var first := Packet(At(r.slots, At(r.cq, r.cqTail).index).value, At(r.cq, r.cqTail).len);
            Consume(r, n) == Batch(rest.rx, [first] + rest.packets)
  {
    ReadyMeans(r);
    ConsumeOneKeeps(r);
  }

  /** `k` carries the buffer and the length of the completion at position `c`. */
  ghost predicate PacketOf(r: Rx, c: nat, k: Packet)
    requires RxInv(r) && r.tail <= c < |r.history|
  {
    At(r.slots, r.history[c]) == Some(k.buf) && At(r.cq, c).len == k.len
  }

  /** A batch is the next completions in the NIC's order, each with its own buffer. */
  lemma {:induction false} ConsumePacket(r: Rx, n: nat, i: nat)
    requires RxInv(r) && i < |Consume(r, n).packets|
    ensures PacketOf(r, r.tail + i, Consume(r, n).packets[i])
    decreases n
  {
    hide SlotInv, CqInv;
    if n == 0 || !Ready(r) {
      ConsumeNothing(r, n);
    } else {
      ConsumeUnfold(r, n);
      ReadyMeans(r);
      if i > 0 {
        ConsumePacket(ConsumeOne(r), n - 1, i - 1);
        ConsumeOneElsewhere(r, r.tail + i);
      }
    }
  }

  /** Consuming one completion leaves the others and their slots alone. */
  lemma ConsumeOneElsewhere(r: Rx, c: nat)
    requires RxInv(r) && Ready(r) && r.tail < c < |r.history|
    ensures At(ConsumeOne(r).slots, r.history[c]) == At(r.slots, r.history[c])
    ensures At(ConsumeOne(r).cq, c) == At(r.cq, c)
  {
    ReadyMeans(r);
    var d := r.history[r.tail];
    assert !Consumed(r, r.history[c]);
    assert ConsumeOne(r).slots == Put(r.slots, d, None);
  }

  // ---- advancing the clean pointer ------------------------------------------------------------

  /** Walk from `start` over empty slots, but not past `limit`. */
  function CleanUpTo(slots: seq<Option<nat>>, start: nat, limit: nat): (c: nat)
    requires |slots| == 256 && start <= limit
    ensures start <= c <= limit
    ensures c == limit || At(slots, c).Some?
    ensures forall p: nat :: start <= p < c ==> At(slots, p).None?
    decreases limit - start
  {
    if start == limit || At(slots, start).Some? then start else CleanUpTo(slots, start + 1, limit)
  }

  /** `p` is the oldest descriptor whose buffer is still out, or the head when none is. */
  ghost predicate IsOldest(r: Rx, p: nat)
    requires Counters(r)
  {
    && p <= r.head
    && (forall q: nat :: q < p ==> Consumed(r, q))
    && (p < r.head ==> !Consumed(r, p))
  }

  /** Stopping at a limit finds the oldest outstanding descriptor exactly when the limit is not below it. */
  lemma CleanFindsOldest(r: Rx, limit: nat, oldest: nat)
    requires RxInv(r) && r.clean <= limit <= r.head && IsOldest(r, oldest)
    ensures CleanUpTo(r.slots, r.clean, limit) == Min(limit, oldest)
  {
    var c := CleanUpTo(r.slots, r.clean, limit);
    assert forall p: nat :: p < c ==> Consumed(r, p);
    assert c < oldest ==> Consumed(r, c);
  }

  /** Counting completions is enough: the number consumed never lies below the oldest outstanding. */
  lemma CountReachesOldest(r: Rx, oldest: nat)
    requires RxInv(r) && IsOldest(r, oldest)
    ensures oldest <= r.tail
  {
    forall d: nat | d < oldest ensures d in r.history[..r.tail] {
      assert Consumed(r, d);
    }
    Covering(r.history[..r.tail], oldest);
  }

  /**
   The user-space driver stops at its count of completions, the kernel driver at the tail it
   reads from the NIC.  Whenever that tail covers every consumed descriptor, both find the
   oldest outstanding descriptor.
   */
  lemma DriversAgree(r: Rx, nicTail: nat, oldest: nat)
    requires RxInv(r) && IsOldest(r, oldest)
    requires r.clean <= nicTail <= r.head
    requires forall p: nat :: Consumed(r, p) ==> p < nicTail
    ensures CleanUpTo(r.slots, r.clean, r.tail) == oldest == CleanUpTo(r.slots, r.clean, nicTail)
  {
    CountReachesOldest(r, oldest);
    CleanFindsOldest(r, r.tail, oldest);
    CleanFindsOldest(r, nicTail, oldest);
    assert !Consumed(r, nicTail);
  }

  function Clean(r: Rx): (r': Rx)
    requires |r.slots| == 256 && r.clean <= r.tail
  {
    r.(clean := CleanUpTo(r.slots, r.clean, r.tail))
  }

  lemma CleanKeeps(r: Rx)
    requires RxInv(r)
    ensures RxInv(Clean(r)) && IsOldest(Clean(r), Clean(r).clean)
  {
    var c := CleanUpTo(r.slots, r.clean, r.tail);
    var r' := Clean(r);
    assert forall p: nat :: Consumed(r', p) <==> Consumed(r, p);
    assert forall p: nat :: p < c ==> Consumed(r, p);
    forall p: nat | r.head <= p < c + 256 ensures At(r.slots, p).None? {
      if r.clean + 256 <= p {
        assert At(r.slots, p - 256) == At(r.slots, p);
      }
    }
    if Consumed(r, c) && c < r.head {
      assert c == r.tail;
      TailNotConsumed(r);
    }
  }

  /** If everything below the count is consumed, the descriptor at the count is not. */
  lemma TailNotConsumed(r: Rx)
    requires RxInv(r)
    requires forall p: nat :: p < r.tail ==> Consumed(r, p)
    ensures !Consumed(r, r.tail)
  {
    if Consumed(r, r.tail) {
      forall d: nat | d < r.tail + 1 ensures d in r.history[..r.tail] {
        assert Consumed(r, d);
      }
      Covering(r.history[..r.tail], r.tail + 1);
    }
  }

  // ---- the receive call -------------------------------------------------------------------------

  datatype Refilled = Aborted | Refilled(pool: Pool, rx: Rx)

  /** Post `n` fresh buffers; a dry pool aborts the program. */
  function PostMany(p: Pool, r: Rx, n: nat): (f: Refilled)
    requires PoolInv(p) && RxInv(r) && r.head + n <= r.clean + 256
    ensures f.Aborted? <==> |p.free| < n
    ensures f.Refilled? ==>
      && PoolInv(f.pool) && RxInv(f.rx)
      && |f.pool.free| == |p.free| - n && |f.pool.refs| == |p.refs|
      && f.rx == r.(slots := f.rx.slots, head := r.head + n)
      && (forall q: nat :: r.clean <= q < r.head ==> At(f.rx.slots, q) == At(r.slots, q))
    decreases n
  {
    if n == 0 then Refilled(p, r)
    else match AllocFrom(p)
      case Exhausted => Aborted
      case Allocated(p', b) =>
        PostKeeps(r, b);
        PostMany(p', Post(r, b), n - 1)
  }

  /** `mqnic_refill_rx_buffers`: nothing until at least 8 descriptors are missing, then all of them. */
  function Refill(p: Pool, r: Rx): (f: Refilled)
    requires PoolInv(p) && RxInv(r)
    ensures f.Aborted? <==> var missing := 256 - (r.head - r.clean); missing >= 8 && |p.free| < missing
    ensures f.Refilled? ==>
      && PoolInv(f.pool) && RxInv(f.rx) && |f.pool.refs| == |p.refs|
      && f.rx == r.(slots := f.rx.slots, head := f.rx.head) && r.head <= f.rx.head
      && (forall q: nat :: r.clean <= q < r.head ==> At(f.rx.slots, q) == At(r.slots, q))
  {
    var missing := 256 - (r.head - r.clean);
    if missing < 8 then Refilled(p, r) else PostMany(p, r, missing)
  }

  /**
   From `p` to `p'` a buffer was taken for every descriptor from `from` to `to`: each slot holds one that
   nobody referenced before and only the slot references now, all of them different.
   */
  ghost predicate Stocked(p: Pool, p': Pool, slots: seq<Option<nat>>, from: nat, to: nat) {
    && |slots| == 256 && from <= to && |p'.refs| == |p.refs| && |p'.free| + (to - from) == |p.free|
    && (forall q: nat :: from <= q < to ==>
          && At(slots, q).Some? && At(slots, q).value < |p.refs|
          && p.refs[At(slots, q).value] == 0 && p'.refs[At(slots, q).value] == 1)
    && (forall q: nat, q': nat :: from <= q < q' < to ==> At(slots, q) != At(slots, q'))
    && (forall b: nat :: b < |p.refs| && p.refs[b] != 0 ==> p'.refs[b] == p.refs[b])
  }

  lemma {:induction false} PostManyStocks(p: Pool, r: Rx, n: nat)
    requires PoolInv(p) && RxInv(r) && r.head + n <= r.clean + 256 && PostMany(p, r, n).Refilled?
    ensures Stocked(p, PostMany(p, r, n).pool, PostMany(p, r, n).rx.slots, r.head, r.head + n)
    decreases n
  {
    hide PoolInv, RxInv, At, Put;
    Bounds(r);
    if n > 0 {
      var a := AllocFrom(p);
      PostKeeps(r, a.buf);
      var r1 := Post(r, a.buf);
      var f := PostMany(a.pool, r1, n - 1);
      PostManyStocks(a.pool, r1, n - 1);
      assert PostMany(p, r, n) == f;
      assert At(f.rx.slots, r.head) == At(r1.slots, r.head) == Some(a.buf);
    }
  }

  /** A refill leaves at most 7 descriptors missing, or none if it posted any, and posts new buffers. */
  lemma RefillStocks(p: Pool, r: Rx)
    requires PoolInv(p) && RxInv(r) && Refill(p, r).Refilled?
    ensures var f := Refill(p, r);
      && f.rx.head == (if 256 - (r.head - r.clean) < 8 then r.head else r.clean + 256)
      && Stocked(p, f.pool, f.rx.slots, r.head, f.rx.head)
  {
    hide PoolInv, RxInv, PostMany;
    Bounds(r);
    var missing := 256 - (r.head - r.clean);
    if missing >= 8 { PostManyStocks(p, r, missing); }
  }

  /** Report the CQ tail to the NIC once more than 32 completions have accumulated. */
  function Report(r: Rx, n: nat): (r': Rx) {
    if n == 0 then r
    else if r.unreported + n > 32 then r.(unreported := 0, reported := r.cqTail)
    else r.(unreported := r.unreported + n)
  }

  lemma ReportKeeps(r: Rx, n: nat)
    requires RxInv(r)
    ensures RxInv(Report(r, n))
  {
    assert forall p: nat :: Consumed(Report(r, n), p) <==> Consumed(r, p);
  }

  /** Everything a receive call does after refilling. */
  function Drain(r: Rx, n: nat): (b: Batch)
    requires RxInv(r)
    ensures |b.packets| == Min(n, |r.history| - r.tail)
    ensures b.rx.history == r.history && b.rx.head == r.head && b.rx.tail == r.tail + |b.packets|
  {
    var c := Consume(r, n);
    ReportKeeps(c.rx, |c.packets|);
    Batch(Clean(Report(c.rx, |c.packets|)), c.packets)
  }

  /**
   After draining, the clean pointer is exactly the oldest descriptor still out, and at most 32
   consumed completions are unreported.
   */
  lemma DrainKeeps(r: Rx, n: nat)
    requires RxInv(r) && r.cqTail == r.reported + r.unreported && r.unreported <= 32
    ensures RxInv(Drain(r, n).rx) && Settled(Drain(r, n).rx)
    ensures IsOldest(Drain(r, n).rx, Drain(r, n).rx.clean)
  {
    var c := Consume(r, n);
    ReportKeeps(c.rx, |c.packets|);
    CleanKeeps(Report(c.rx, |c.packets|));
  }

  datatype Received = Failed | Received(pool: Pool, rx: Rx, packets: seq<Packet>)

  /** `mqnic_rx_batch_hints` without the hints; it fails only on a dry pool. */
  function Receive(p: Pool, r: Rx, n: nat): (o: Received)
    requires PoolInv(p) && RxInv(r)
    ensures o.Failed? <==> var missing := 256 - (r.head - r.clean); missing >= 8 && |p.free| < missing
    ensures o.Received? ==>
      && PoolInv(o.pool) && |o.pool.refs| == |p.refs|
      && |o.packets| == Min(n, |r.history| - r.tail)
  {
    match Refill(p, r)
    case Aborted => Failed
    case Refilled(p', r1) =>
      var b := Drain(r1, n);
      Received(p', b.rx, b.packets)
  }

  /** The packets of a receive call are the buffers of the next completions, in order. */
  lemma ReceivePacket(p: Pool, r: Rx, n: nat, i: nat)
    requires PoolInv(p) && RxInv(r) && Receive(p, r, n).Received? && i < |Receive(p, r, n).packets|
    ensures PacketOf(r, r.tail + i, Receive(p, r, n).packets[i])
  {
    var r1 := Refill(p, r).rx;
    ConsumePacket(r1, n, i);
    assert !Consumed(r, r.history[r.tail + i]);
  }

  /** A whole receive call leaves the ring settled, its clean pointer at the oldest descriptor out. */
  lemma ReceiveKeeps(p: Pool, r: Rx, n: nat)
    requires PoolInv(p) && RxInv(r) && Settled(r) && Receive(p, r, n).Received?
    ensures var r' := Receive(p, r, n).rx;
      && RxInv(r') && Settled(r') && IsOldest(r', r'.clean)
      && r'.history == r.history
      && r'.head == (if 256 - (r.head - r.clean) < 8 then r.head else r.clean + 256)
      && r'.tail == r.tail + |Receive(p, r, n).packets|
  {
    DrainKeeps(Refill(p, r).rx, n);
    RefillStocks(p, r);
  }

  /** A slot whose descriptor is not yet completed is left alone. */
  lemma {:induction false} ConsumeSpares(r: Rx, n: nat, q: nat)
    requires RxInv(r) && r.clean <= q < r.head && q !in r.history
    ensures |Consume(r, n).rx.slots| == 256 && At(Consume(r, n).rx.slots, q) == At(r.slots, q)
    decreases n
  {
    hide SlotInv, CqInv, Consume;
    if n == 0 || !Ready(r) {
      ConsumeNothing(r, n);
    } else {
      ConsumeUnfold(r, n);
      ReadyMeans(r);
      ConsumeSpares(ConsumeOne(r), n - 1, q);
      assert ConsumeOne(r).slots == Put(r.slots, r.history[r.tail], None);
    }
  }

  lemma DrainSpares(r: Rx, n: nat, q: nat)
    requires RxInv(r) && r.clean <= q < r.head && q !in r.history
    ensures |Drain(r, n).rx.slots| == 256 && At(Drain(r, n).rx.slots, q) == At(r.slots, q)
  {
    hide RxInv, Consume;
    ConsumeSpares(r, n, q);
  }

  /** A receive call stocks the ring: the new descriptors hold new buffers when it returns. */
  lemma ReceiveStocks(p: Pool, r: Rx, n: nat)
    requires PoolInv(p) && RxInv(r) && Receive(p, r, n).Received?
    ensures var o := Receive(p, r, n);
      && o.rx.head == (if 256 - (r.head - r.clean) < 8 then r.head else r.clean + 256)
      && Stocked(p, o.pool, o.rx.slots, r.head, o.rx.head)
  {
    hide PoolInv, SlotInv, CqInv, Refill, Drain, At;
    var f := Refill(p, r);
    RefillStocks(p, r);
    var d := Drain(f.rx, n);
    DrainSize(f.rx, n);
    forall q: nat | r.head <= q < f.rx.head ensures At(d.rx.slots, q) == At(f.rx.slots, q) {
      assert q !in f.rx.history;
      DrainSpares(f.rx, n, q);
    }
  }

  lemma DrainSize(r: Rx, n: nat)
    requires RxInv(r)
    ensures |Drain(r, n).rx.slots| == 256
  {
    hide SlotInv, CqInv, Consume;
  }
}
