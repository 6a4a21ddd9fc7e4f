/**
 One queue pair, its buffer pool, the application above and the NIC below, as a transition
 system.  `app` counts the references the application holds.
 */
module Driver {
  import opened Common
  import opened Mempool
  import opened RxRing
  import opened TxRing

  datatype Sys = Sys(pool: Pool, rx: Rx, tx: Tx, app: multiset<nat>)

  datatype Step =
    | ReceiveCall(max: nat)
    | TransmitCall(bufs: seq<nat>)
    | AllocCall
    | FreeCall(buf: nat)
    | NicReceives(desc: nat, len: nat)
    | NicTransmits(len: nat)

  /** Each reference count is the number of places that hold the buffer. */
  ghost predicate Own(p: Pool, app: multiset<nat>, rxSlots: seq<Option<nat>>, txSlots: seq<Option<nat>>) {
    && (forall b: nat :: b < |p.refs| ==> p.refs[b] == app[b] + Held(rxSlots, b) + Held(txSlots, b))
    && (forall b: nat :: |p.refs| <= b ==> app[b] + Held(rxSlots, b) + Held(txSlots, b) == 0)
    && (forall b: nat :: app[b] + Held(rxSlots, b) <= 1)
  }

  ghost predicate Inv(s: Sys) {
    && PoolInv(s.pool)
    && RxInv(s.rx) && Settled(s.rx)
    && TxRest(s.tx)
    && Own(s.pool, s.app, s.rx.slots, s.tx.slots)
  }

  lemma InvParts(s: Sys)
    requires Inv(s)
    ensures PoolInv(s.pool) && RxInv(s.rx) && Settled(s.rx) && TxRest(s.tx) && TxGood(s.pool, s.tx)
    ensures s.rx.clean <= s.rx.head <= s.rx.clean + 256
  {
  }

  ghost predicate Init(s: Sys) {
    && PoolInv(s.pool) && (forall b: nat :: b < |s.pool.refs| ==> s.pool.refs[b] == 0)
    && Blank(s.rx) && TxBlank(s.tx) && s.app == multiset{}
  }

  /** What callers and the NIC promise: references are owned, completions are of posted descriptors. */
  predicate Enabled(s: Sys, a: Step) {
    match a
    case ReceiveCall(_) => true
    case TransmitCall(bufs) => forall i :: 0 <= i < |bufs| ==> bufs[i] in s.app
    case AllocCall => true
    case FreeCall(b) => b in s.app
    case NicReceives(d, len) => Pending(s.rx, d) && len != 0
    case NicTransmits(len) => s.tx.nicHead < s.tx.head && len != 0
  }

  datatype Outcome = Abort | Disabled | Running(sys: Sys)

  ghost function Apply(s: Sys, a: Step): (o: Outcome)
    requires Inv(s) && Enabled(s, a)
  {
    match a
    case ReceiveCall(n) =>
      (match RxRing.Receive(s.pool, s.rx, n)
       case Failed => Abort
       case Received(p, r, packets) =>
         Running(s.(pool := p, rx := r, app := s.app + multiset(Bufs(packets)))))
    case TransmitCall(bufs) =>
      TransmitAllowed(s, bufs);
      var t := Transmit(s.pool, s.tx, bufs);
      Running(s.(pool := t.pool, tx := t.tx))
    case AllocCall =>
      (match AllocFrom(s.pool)
       case Exhausted => Running(s)
       case Allocated(p, b) => Running(s.(pool := p, app := s.app + multiset{b})))
    case FreeCall(b) =>
      (match Release(s.pool, b)
       case None => Abort
       case Some(p) => Running(s.(pool := p, app := s.app - multiset{b})))
    case NicReceives(d, len) => Running(s.(rx := NicComplete(s.rx, d, len)))
    case NicTransmits(len) => Running(s.(tx := NicSent(s.tx, len)))
  }

  lemma TransmitAllowed(s: Sys, bufs: seq<nat>)
    requires Inv(s) && forall i :: 0 <= i < |bufs| ==> bufs[i] in s.app
    ensures TxGood(s.pool, s.tx) && CallerHoldsAll(s.pool, s.tx, bufs)
    ensures forall i :: 0 <= i < |bufs| ==> bufs[i] < |s.pool.refs|
  {
    forall i | 0 <= i < |bufs| ensures CallerHolds(s.pool, s.tx, bufs[i]) {
      assert s.app[bufs[i]] > 0;
    }
  }

  // ---- ownership through a receive call -----------------------------------------------------------

  lemma {:induction false} PostManyOwns(p: Pool, r: Rx, n: nat, app: multiset<nat>, tx: seq<Option<nat>>)
    requires PoolInv(p) && RxInv(r) && r.head + n <= r.clean + 256
    requires Own(p, app, r.slots, tx)
    requires PostMany(p, r, n).Refilled?
    ensures Own(PostMany(p, r, n).pool, app, PostMany(p, r, n).rx.slots, tx)
    decreases n
  {
    hide Own, PoolInv;
    if n > 0 {
      var a := AllocFrom(p);
      PostKeeps(r, a.buf);
      PostOwns(p, r, app, tx);
      PostManyOwns(a.pool, Post(r, a.buf), n - 1, app, tx);
    }
  }

  lemma PostOwns(p: Pool, r: Rx, app: multiset<nat>, tx: seq<Option<nat>>)
    requires PoolInv(p) && RxInv(r) && r.head < r.clean + 256
    requires Own(p, app, r.slots, tx) && AllocFrom(p).Allocated?
    ensures Own(AllocFrom(p).pool, app, Post(r, AllocFrom(p).buf).slots, tx)
  {
    var a := AllocFrom(p);
    PostKeeps(r, a.buf);
    forall c: nat ensures Held(Post(r, a.buf).slots, c) == Held(r.slots, c) + if c == a.buf then 1 else 0 {
      HeldAfterPut(r.slots, r.head, Some(a.buf), c);
    }
  }

  lemma {:induction false} ConsumeOwns(p: Pool, r: Rx, n: nat, app: multiset<nat>, tx: seq<Option<nat>>)
    requires RxInv(r) && Own(p, app, r.slots, tx)
    ensures Own(p, app + multiset(Bufs(Consume(r, n).packets)), Consume(r, n).rx.slots, tx)
    decreases n
  {
    hide Own, SlotInv, CqInv, Consume;
    if n == 0 || !Ready(r) {
      ConsumeNothing(r, n);
      assert app + multiset(Bufs([])) == app;
    } else {
      ConsumeUnfold(r, n);
      ConsumeOneOwns(p, r, app, tx);
      var b := At(r.slots, At(r.cq, r.cqTail).index).value;
      var rest := Consume(ConsumeOne(r), n - 1);
      ConsumeOwns(p, ConsumeOne(r), n - 1, app + multiset{b}, tx);
      ConsumeOwnsJoin(p, r, n, app, tx, rest, b);
    }
  }

  lemma ConsumeOwnsJoin(p: Pool, r: Rx, n: nat, app: multiset<nat>, tx: seq<Option<nat>>, rest: Batch, b: nat)
    requires RxInv(r) && n > 0 && Ready(r) && RxInv(ConsumeOne(r))
    requires rest == Consume(ConsumeOne(r), n - 1) && At(r.slots, At(r.cq, r.cqTail).index) == Some(b)
    requires Own(p, app + multiset{b} + multiset(Bufs(rest.packets)), rest.rx.slots, tx)
    ensures Own(p, app + multiset(Bufs(Consume(r, n).packets)), Consume(r, n).rx.slots, tx)
  {
    hide Own;
    ConsumeUnfold(r, n);
    BufsPrepend(Packet(b, At(r.cq, r.cqTail).len), rest.packets, app);
  }

  lemma BufsPrepend(first: Packet, rest: seq<Packet>, app: multiset<nat>)
    ensures app + multiset(Bufs([first] + rest)) == app + multiset{first.buf} + multiset(Bufs(rest))
  {
    assert Bufs([first] + rest) == [first.buf] + Bufs(rest);
  }

  lemma ConsumeOneOwns(p: Pool, r: Rx, app: multiset<nat>, tx: seq<Option<nat>>)
    requires RxInv(r) && Ready(r) && Own(p, app, r.slots, tx)
    ensures At(r.slots, At(r.cq, r.cqTail).index).Some?
    ensures Own(p, app + multiset{At(r.slots, At(r.cq, r.cqTail).index).value}, ConsumeOne(r).slots, tx)
  {
    ReadyMeans(r);
    var q := At(r.cq, r.cqTail).index;
    var b := At(r.slots, q).value;
    forall c: nat ensures Held(ConsumeOne(r).slots, c) == Held(r.slots, c) - if c == b then 1 else 0 {
      HeldAfterPut(r.slots, q, None, c);
    }
    HeldIfPresent(r.slots, q);
  }

  lemma ReceiveOwns(p: Pool, r: Rx, n: nat, app: multiset<nat>, tx: seq<Option<nat>>)
    requires PoolInv(p) && RxInv(r) && Own(p, app, r.slots, tx)
    requires RxRing.Receive(p, r, n).Received?
    ensures var o := RxRing.Receive(p, r, n);
      Own(o.pool, app + multiset(Bufs(o.packets)), o.rx.slots, tx)
  {
    hide Own, RxInv, PoolInv;
    var missing := 256 - (r.head - r.clean);
    if missing >= 8 {
      PostManyOwns(p, r, missing, app, tx);
    }
    ConsumeOwns(Refill(p, r).pool, Refill(p, r).rx, n, app, tx);
  }

  // ---- every step keeps the invariant ---------------------------------------------------------------

  lemma ReceiveStep(s: Sys, n: nat)
    requires Inv(s)
    ensures Apply(s, ReceiveCall(n)).Running? ==> Inv(Apply(s, ReceiveCall(n)).sys)
    ensures Apply(s, ReceiveCall(n)).Abort? <==>
            var missing := 256 - (s.rx.head - s.rx.clean); missing >= 8 && |s.pool.free| < missing
  {
    if RxRing.Receive(s.pool, s.rx, n).Received? {
      ReceiveKeeps(s.pool, s.rx, n);
      ReceiveOwns(s.pool, s.rx, n, s.app, s.tx.slots);
    }
  }

  lemma TransmitStep(s: Sys, bufs: seq<nat>)
    requires Inv(s) && Enabled(s, TransmitCall(bufs))
    ensures Apply(s, TransmitCall(bufs)).Running? && Inv(Apply(s, TransmitCall(bufs)).sys)
  {
    TransmitAllowed(s, bufs);
    TransmitKeeps(s.pool, s.tx, bufs);
  }

  lemma AllocStep(s: Sys)
    requires Inv(s)
    ensures Apply(s, AllocCall).Running? && Inv(Apply(s, AllocCall).sys)
  {
  }

  lemma FreeStep(s: Sys, b: nat)
    requires Inv(s) && b in s.app
    ensures b < |s.pool.refs| && Apply(s, FreeCall(b)).Running? && Inv(Apply(s, FreeCall(b)).sys)
  {
    assert s.app[b] > 0;
  }

  lemma NicStep(s: Sys, a: Step)
    requires Inv(s) && Enabled(s, a) && (a.NicReceives? || a.NicTransmits?)
    ensures Apply(s, a).Running? && Inv(Apply(s, a).sys)
  {
    match a
    case NicReceives(d, len) => NicCompleteKeeps(s.rx, d, len);
    case NicTransmits(len) => NicSentKeeps(s.tx, len);
  }

  lemma StepKeeps(s: Sys, a: Step)
    requires Inv(s) && Enabled(s, a)
    ensures Apply(s, a).Running? ==> Inv(Apply(s, a).sys)
    ensures Apply(s, a).Abort? ==> a.ReceiveCall?
    ensures !Apply(s, a).Disabled?
  {
    match a
    case ReceiveCall(n) => ReceiveStep(s, n);
    case TransmitCall(bufs) => TransmitStep(s, bufs);
    case AllocCall => AllocStep(s);
    case FreeCall(b) => FreeStep(s, b);
    case _ => NicStep(s, a);
  }

  /** What a receive call takes from the pool it posts: the ring misses at most 7 descriptors afterwards. */
  lemma ReceiveCallStocks(s: Sys, n: nat)
    requires Inv(s) && Apply(s, ReceiveCall(n)).Running?
    ensures var t := Apply(s, ReceiveCall(n)).sys;
      && t.rx.head == (if 256 - (s.rx.head - s.rx.clean) < 8 then s.rx.head else s.rx.clean + 256)
      && Stocked(s.pool, t.pool, t.rx.slots, s.rx.head, t.rx.head)
      && (forall q: nat :: s.rx.head <= q < t.rx.head ==> Pending(t.rx, q))
  {
    hide Own, PoolInv, SlotInv, CqInv, Stocked;
    ReceiveStocks(s.pool, s.rx, n);
    ReceiveKeeps(s.pool, s.rx, n);
  }

  // ---- whole runs -------------------------------------------------------------------------------------

  lemma HeldNone(slots: seq<Option<nat>>, b: nat)
    requires forall i :: 0 <= i < |slots| ==> slots[i] == None
    ensures Held(slots, b) == 0
  {
    assert Some(b) !in slots;
  }

  lemma InitOwns(s: Sys)
    requires Init(s)
    ensures Own(s.pool, s.app, s.rx.slots, s.tx.slots)
  {
    hide PoolInv;
    forall b: nat ensures Held(s.rx.slots, b) == 0 && Held(s.tx.slots, b) == 0 {
      HeldNone(s.rx.slots, b);
      HeldNone(s.tx.slots, b);
    }
  }

  lemma InitInv(s: Sys)
    requires Init(s)
    ensures Inv(s)
  {
    hide Own, RxInv, Settled, TxRest;
    BlankInv(s.rx);
    TxBlankInv(s.tx);
    InitOwns(s);
  }

  /**
   Run the program: in every state that any sequence of enabled steps reaches from an initial
   state, reference counts are exact, the free stack is exact and both rings are consistent.
   The only step that can abort is a receive call on a pool too dry to refill.
   */
  ghost function Run(s: Sys, steps: seq<Step>): (o: Outcome)
    requires Inv(s)
    ensures o.Running? ==> Inv(o.sys)
    ensures o.Abort? ==> exists i :: 0 <= i < |steps| && steps[i].ReceiveCall?
    decreases |steps|
  {
    if steps == [] then Running(s)
    else if !Enabled(s, steps[0]) then Disabled
    else
      StepKeeps(s, steps[0]);
      var o := Apply(s, steps[0]);
      if o.Running? then Run(o.sys, steps[1..]) else o
  }

  /** A buffer handed out is in no slot and not with the application, so the NIC cannot touch it. */
  lemma AllocatedIsUnshared(s: Sys)
    requires Inv(s) && AllocFrom(s.pool).Allocated?
    ensures var b := AllocFrom(s.pool).buf;
      b !in s.app && Some(b) !in s.rx.slots && Some(b) !in s.tx.slots
  {
    var b := AllocFrom(s.pool).buf;
    assert s.pool.refs[b] == 0;
    assert Held(s.rx.slots, b) == 0 && Held(s.tx.slots, b) == 0 && s.app[b] == 0;
    assert multiset(s.rx.slots)[Some(b)] == 0 && multiset(s.tx.slots)[Some(b)] == 0;
  }

  /** While the NIC may write to descriptor `d`, its buffer is held by the slot table alone and not free. */
  lemma PendingBufferIsSafe(s: Sys, d: nat)
    requires Inv(s) && Pending(s.rx, d)
    ensures At(s.rx.slots, d).Some?
    ensures var b := At(s.rx.slots, d).value;
      b !in s.app && b !in s.pool.free && Held(s.rx.slots, b) == 1
  {
    assert !Consumed(s.rx, d);
    HeldIfPresent(s.rx.slots, d);
    var b := At(s.rx.slots, d).value;
    assert multiset(s.pool.free)[b] == 0;
  }

  /** The transmit ring holds a reference to a buffer until the NIC has completed it. */
  lemma UnsentBufferIsSafe(s: Sys, p: nat)
    requires Inv(s) && s.tx.nicHead <= p < s.tx.head
    ensures At(s.tx.slots, p).Some? && At(s.tx.slots, p).value !in s.pool.free
  {
    HeldIfPresent(s.tx.slots, p);
    var b := At(s.tx.slots, p).value;
    assert multiset(s.pool.free)[b] == 0;
  }
}
