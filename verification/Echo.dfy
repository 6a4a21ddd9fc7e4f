/**
 The echo worker on top of one queue pair: a ring of 128 packet buffers between receive and
 transmit.  `received` and `posted` are the histories of buffers taken from the receive queue
 and handed to the transmit queue.
 */
module Echo {
  import opened Common
  import opened Mempool
  import opened RxRing
  import opened TxRing
  import opened Driver

  datatype Ring = Ring(
    bufs: seq<nat>,
    ringHead: nat,
    workHead: nat,
    ringTail: nat,
    empty: nat,
    unprocessed: nat,
    unsent: nat,
    unsentFeedback: nat,
    received: seq<nat>,
    posted: seq<nat>)

  /** Position of the `p`-th packet in the ring of 128. */
  function Pos(p: nat): (i: nat)
    ensures i < 128
  {
    p % 128
  }

  function Cell(bufs: seq<nat>, p: nat): (b: nat)
    requires |bufs| == 128
  {
    bufs[Pos(p)]
  }

  /** The ring holds exactly what was received and not yet posted, in the order received. */
  ghost predicate RingInv(r: Ring) {
    && |r.bufs| == 128
    && r.empty + r.unprocessed + r.unsent == 128
    && |r.received| == |r.posted| + r.unsent + r.unprocessed
    && r.ringTail == Pos(|r.posted|)
    && r.workHead == Pos(|r.posted| + r.unsent)
    && r.ringHead == Pos(|r.received|)
    && r.posted == r.received[..|r.posted|]
    && (forall p: nat :: |r.posted| <= p < |r.received| ==> Cell(r.bufs, p) == r.received[p])
  }

  /** The buffers waiting in the ring. */
  function Waiting(r: Ring): (m: multiset<nat>) {
    if |r.posted| <= |r.received| then multiset(r.received[|r.posted|..]) else multiset{}
  }

  lemma RingBounds(r: Ring)
    requires RingInv(r)
    ensures |r.bufs| == 128 && r.ringHead < 128 && r.ringTail < 128 && r.empty <= 128
    ensures |Waiting(r)| <= 128
    ensures r.empty + r.unprocessed + r.unsent == 128 && r.posted <= r.received
    ensures |r.received| == |r.posted| + r.unsent + r.unprocessed
  {
  }

  function BlankRing(bufs: seq<nat>): (r: Ring) {
    Ring(bufs, 0, 0, 0, 128, 0, 0, 0, [], [])
  }

  // ---- what each part of the polling loop does to the ring -----------------------------------------

  /** How much `if_pull_rx` asks for: nothing while 5 or more entries wait. */
  function PullSize(r: Ring): (n: nat)
    requires r.ringHead < 128 && r.empty <= 128
    ensures r.ringHead + n <= 128 && n <= r.empty
  {
    if 128 - r.empty >= 5 || r.empty < 16 then 0 else Min(Min(16, 128 - r.ringHead), r.empty)
  }

  function RingPull(r: Ring, bs: seq<nat>): (r': Ring)
    requires r.ringHead + |bs| <= |r.bufs| && |bs| <= r.empty
  {
    r.(bufs := Splice(r.bufs, r.ringHead, bs), ringHead := Pos(r.ringHead + |bs|),
       empty := r.empty - |bs|, unprocessed := r.unprocessed + |bs|, received := r.received + bs)
  }

  /** `if_do_work`: the entry at the work head moves from unprocessed to unsent. */
  function RingWork(r: Ring): (r': Ring) {
    if r.unprocessed == 0 then r
    else r.(unprocessed := r.unprocessed - 1, unsent := r.unsent + 1,
            unsentFeedback := r.unsentFeedback + 1, workHead := Pos(r.workHead + 1))
  }

  /** `if_send_feedback` with a feedback batch of one. */
  function RingFeedback(r: Ring): (r': Ring) {
    if r.unsentFeedback >= 1 then r.(unsentFeedback := r.unsentFeedback - 1) else r
  }

  function SendSize(r: Ring): (n: nat)
    requires r.ringTail < 128
    ensures r.ringTail + n <= 128 && n <= r.unsent
  {
    if r.unsent < 1 then 0 else Min(Min(1, 128 - r.ringTail), r.unsent)
  }

  function Oldest(r: Ring, k: nat): (bs: seq<nat>)
    requires r.ringTail + k <= |r.bufs|
    ensures |bs| == k
  {
    r.bufs[r.ringTail..r.ringTail + k]
  }

  function RingSend(r: Ring, k: nat): (r': Ring)
    requires r.ringTail + k <= |r.bufs| && k <= r.unsent
  {
    r.(ringTail := Pos(r.ringTail + k), empty := r.empty + k, unsent := r.unsent - k,
       posted := r.posted + Oldest(r, k))
  }

  lemma ModAdd(a: nat, k: nat)
    ensures Pos(Pos(a) + k) == Pos(a + k)
    ensures Pos(a) + k < 128 ==> Pos(a + k) == Pos(a) + k
  {
  }

  lemma BlankRingInv(bufs: seq<nat>)
    requires |bufs| == 128
    ensures RingInv(BlankRing(bufs)) && Waiting(BlankRing(bufs)) == multiset{}
  {
  }

  /** Splicing in the next packets puts each at its own ring entry and disturbs no waiting one. */
  lemma SpliceCells(bufs: seq<nat>, from: nat, to: nat, bs: seq<nat>)
    requires |bufs| == 128 && from <= to && to + |bs| <= from + 128 && Pos(to) + |bs| <= 128
    ensures forall p: nat :: from <= p < to ==> Cell(Splice(bufs, Pos(to), bs), p) == Cell(bufs, p)
    ensures forall p: nat :: to <= p < to + |bs| ==> Cell(Splice(bufs, Pos(to), bs), p) == bs[p - to]
  {
    forall p: nat | from <= p < to ensures Cell(Splice(bufs, Pos(to), bs), p) == Cell(bufs, p) {
      assert Pos(p) < Pos(to) || Pos(to) + |bs| <= Pos(p);
    }
    forall p: nat | to <= p < to + |bs| ensures Cell(Splice(bufs, Pos(to), bs), p) == bs[p - to] {
      ModAdd(to, p - to);
    }
  }

  lemma PullRing(r: Ring, bs: seq<nat>)
    requires RingInv(r) && r.ringHead + |bs| <= 128 && |bs| <= r.empty
    ensures RingInv(RingPull(r, bs))
  {
    SpliceCells(r.bufs, |r.posted|, |r.received|, bs);
    ModAdd(|r.received|, |bs|);
    hide Cell, Pos;
    var r' := RingPull(r, bs);
    forall p: nat | |r'.posted| <= p < |r'.received| ensures Cell(r'.bufs, p) == r'.received[p] {
      assert p < |r.received| ==> Cell(r.bufs, p) == r.received[p];
    }
    assert r'.posted == r'.received[..|r'.posted|];
  }

  lemma PullWaiting(r: Ring, bs: seq<nat>)
    requires |r.posted| <= |r.received| && r.ringHead + |bs| <= |r.bufs| && |bs| <= r.empty
    ensures Waiting(RingPull(r, bs)) == Waiting(r) + multiset(bs)
  {
    assert (r.received + bs)[|r.posted|..] == r.received[|r.posted|..] + bs;
  }

  lemma WorkRing(r: Ring)
    requires RingInv(r)
    ensures RingInv(RingWork(r)) && Waiting(RingWork(r)) == Waiting(r)
  {
    ModAdd(|r.posted| + r.unsent, 1);
    hide Cell, Pos;
  }

  lemma FeedbackRing(r: Ring)
    requires RingInv(r)
    ensures RingInv(RingFeedback(r)) && Waiting(RingFeedback(r)) == Waiting(r)
  {
    hide Cell, Pos;
  }

  /** The slice at the ring tail is the oldest packets received and not posted. */
  lemma OldestIsNext(r: Ring, k: nat)
    requires RingInv(r) && r.ringTail + k <= 128 && k <= r.unsent
    ensures Oldest(r, k) == r.received[|r.posted|..|r.posted| + k]
  {
    hide Pos;
    var bs := Oldest(r, k);
    forall i: nat | i < k ensures bs[i] == r.received[|r.posted|..|r.posted| + k][i] {
      ModAdd(|r.posted|, i);
      assert Cell(r.bufs, |r.posted| + i) == r.received[|r.posted| + i];
    }
  }

  lemma SendRing(r: Ring, k: nat)
    requires RingInv(r) && r.ringTail + k <= 128 && k <= r.unsent
    ensures RingInv(RingSend(r, k))
  {
    OldestIsNext(r, k);
    ModAdd(|r.posted|, k);
    hide Cell, Pos, Oldest;
    assert r.posted + Oldest(r, k) == r.received[..|r.posted| + k];
    assert |r.posted + Oldest(r, k)| == |r.posted| + k;
  }

  lemma SendWaiting(r: Ring, k: nat)
    requires RingInv(r) && r.ringTail + k <= 128 && k <= r.unsent
    ensures multiset(Oldest(r, k)) <= Waiting(r)
    ensures Waiting(RingSend(r, k)) == Waiting(r) - multiset(Oldest(r, k))
  {
    hide RingInv;
    RingBounds(r);
    OldestIsNext(r, k);
    assert |RingSend(r, k).posted| == |r.posted| + k;
    assert Waiting(RingSend(r, k)) == multiset(r.received[|r.posted| + k..]);
    assert Waiting(r) == multiset(r.received[|r.posted|..]);
    hide Waiting, RingSend, Oldest;
    SplitWaiting(r.received, |r.posted|, k);
  }

  lemma SplitWaiting(s: seq<nat>, a: nat, k: nat)
    requires a + k <= |s|
    ensures multiset(s[a..a + k]) <= multiset(s[a..])
    ensures multiset(s[a..]) - multiset(s[a..a + k]) == multiset(s[a + k..])
  {
    assert s[a..] == s[a..a + k] + s[a + k..];
  }

  // ---- the pool never runs dry ------------------------------------------------------------------

  /** The buffers a slot table refers to, with multiplicity. */
  function Refs(slots: seq<Option<nat>>): (m: multiset<nat>)
    ensures |m| <= |slots|
  {
    if slots == [] then multiset{}
    else
      var n := |slots| - 1;
      Refs(slots[..n]) + if slots[n].Some? then multiset{slots[n].value} else multiset{}
  }

  lemma {:induction false} HeldIsRefs(slots: seq<Option<nat>>, b: nat)
    ensures Held(slots, b) == Refs(slots)[b]
    decreases |slots|
  {
    if slots != [] {
      var n := |slots| - 1;
      HeldIsRefs(slots[..n], b);
      assert slots == slots[..n] + [slots[n]];
    }
  }

  /** Buffers in use are at most as many as references to them. */
  lemma {:induction false} InUseBound(refs: seq<nat>, m: multiset<nat>)
    requires forall b: nat :: b < |refs| ==> refs[b] <= m[b]
    ensures InUse(refs) <= |m|
    decreases |refs|
  {
    if refs != [] {
      var n := |refs| - 1;
      var m' := m[n := 0];
      InUseBound(refs[..n], m');
      assert m == m' + multiset{n}[n := m[n]];
    }
  }

  /** Slot tables and worker ring bound the live buffers, so at least 3456 entries stay free. */
  lemma PoolNeverDry(s: Sys)
    requires Driver.Inv(s) && |s.pool.refs| == 4096 && |s.app| <= 128
    ensures |s.pool.free| >= 3456
  {
    var m := s.app + Refs(s.rx.slots) + Refs(s.tx.slots);
    forall b: nat | b < 4096 ensures s.pool.refs[b] <= m[b] {
      HeldIsRefs(s.rx.slots, b);
      HeldIsRefs(s.tx.slots, b);
    }
    InUseBound(s.pool.refs, m);
    PoolConservation(s.pool);
  }

  // ---- the worker and its queue pair -----------------------------------------------------------------

  datatype Worker = Worker(sys: Sys, ring: Ring)

  /** The application's references are exactly the packets waiting in the ring. */
  ghost predicate EchoInv(e: Worker) {
    && RingInv(e.ring)
    && Driver.Inv(e.sys) && |e.sys.pool.refs| == 4096
    && e.sys.app == Waiting(e.ring)
  }

  /** `if_pull_rx`; `None` where the refill aborts. */
  ghost function Pull(e: Worker): (o: Option<Worker>)
    requires EchoInv(e)
  {
    RingBounds(e.ring);
    var n := PullSize(e.ring);
    if n == 0 then Some(e)
    else match RxRing.Receive(e.sys.pool, e.sys.rx, n)
      case Failed => None
      case Received(p, r, packets) =>
        var bs := Bufs(packets);
        Some(Worker(e.sys.(pool := p, rx := r, app := e.sys.app + multiset(bs)), RingPull(e.ring, bs)))
  }

  /** Pulling never aborts, never runs past the array, and queues the new buffers behind the old. */
  lemma PullKeeps(e: Worker)
    requires EchoInv(e)
    ensures Pull(e).Some? && EchoInv(Pull(e).value)
  {
    RingBounds(e.ring);
    InvParts(e.sys);
    hide Driver.Inv, RxInv, PoolInv, Settled, TxRest, TxGood, RingInv, RingPull, Waiting;
    var n := PullSize(e.ring);
    if n != 0 {
      PoolNeverDry(e.sys);
      ReceiveStep(e.sys, n);
      PullRing(e.ring, Bufs(RxRing.Receive(e.sys.pool, e.sys.rx, n).packets));
      PullWaiting(e.ring, Bufs(RxRing.Receive(e.sys.pool, e.sys.rx, n).packets));
    }
  }

  /** What pulling does, spelled out: it never fails. */
  lemma PullMeans(e: Worker)
    requires EchoInv(e)
    ensures PoolInv(e.sys.pool) && RxInv(e.sys.rx) && e.ring.ringHead < 128 && e.ring.empty <= 128
    ensures var n := PullSize(e.ring);
      if n == 0 then Pull(e) == Some(e)
      else
        var o := RxRing.Receive(e.sys.pool, e.sys.rx, n);
        && o.Received? && |o.packets| <= n && |e.ring.bufs| == 128
        && Pull(e) == Some(Worker(e.sys.(pool := o.pool, rx := o.rx, app := e.sys.app + multiset(Bufs(o.packets))),
                                  RingPull(e.ring, Bufs(o.packets))))
  {
    PullKeeps(e);
    RingBounds(e.ring);
    InvParts(e.sys);
    hide Driver.Inv, RxInv, PoolInv, RingInv;
  }

  lemma SpliceBufs(old': seq<Packet>, new': seq<Packet>, at: nat, ks: seq<Packet>)
    requires |old'| == |new'| && at + |ks| <= |old'|
    requires forall i :: 0 <= i < |ks| ==> new'[at + i] == ks[i]
    requires forall j :: 0 <= j < |old'| && (j < at || at + |ks| <= j) ==> new'[j] == old'[j]
    ensures Bufs(new') == Splice(Bufs(old'), at, Bufs(ks))
  {
    var r := Splice(Bufs(old'), at, Bufs(ks));
    forall j | 0 <= j < |new'| ensures Bufs(new')[j] == r[j] {
      if at <= j < at + |ks| {
        assert new'[at + (j - at)] == ks[j - at];
      }
    }
  }

  lemma FreeOne(s: Sys, b: nat)
    requires Driver.Inv(s) && b in s.app
    ensures Apply(s, FreeCall(b)).Running?
    ensures var s' := Apply(s, FreeCall(b)).sys;
      && Driver.Inv(s') && s'.app == s.app - multiset{b}
      && s'.rx == s.rx && s'.tx == s.tx && |s'.pool.refs| == |s.pool.refs|
      && PoolInv(s.pool) && b < |s.pool.refs| && Release(s.pool, b) == Some(s'.pool)
  {
    FreeStep(s, b);
  }

  /** Give up the application's references one by one. */
  ghost function FreeAll(s: Sys, bs: seq<nat>): (s': Sys)
    requires Driver.Inv(s) && multiset(bs) <= s.app
    ensures Driver.Inv(s') && s'.app == s.app - multiset(bs)
    ensures s'.rx == s.rx && s'.tx == s.tx && |s'.pool.refs| == |s.pool.refs|
    decreases |bs|
  {
    if bs == [] then s
    else
      var n := |bs| - 1;
      assert bs == bs[..n] + [bs[n]];
      var s1 := FreeAll(s, bs[..n]);
      FreeOne(s1, bs[n]);
      Apply(s1, FreeCall(bs[n])).sys
  }

  lemma SendAllowed(e: Worker, n: nat)
    requires EchoInv(e) && e.ring.ringTail + n <= 128 && n <= e.ring.unsent
    ensures |e.ring.bufs| == 128 && Enabled(e.sys, TransmitCall(Oldest(e.ring, n)))
  {
    RingBounds(e.ring);
    hide Driver.Inv, RingInv, Waiting;
    SendWaiting(e.ring, n);
    var bs := Oldest(e.ring, n);
    forall i | 0 <= i < |bs| ensures bs[i] in e.sys.app {
      assert bs[i] in multiset(bs);
    }
  }

  /** `if_send_tx`: transmit from the tail of the ring, then free what was accepted. */
  ghost function Send(e: Worker): (e': Worker)
    requires EchoInv(e)
  {
    RingBounds(e.ring);
    var n := SendSize(e.ring);
    if n == 0 then e
    else
      var bs := Oldest(e.ring, n);
      SendAllowed(e, n);
      TransmitAllowed(e.sys, bs);
      var t := Transmit(e.sys.pool, e.sys.tx, bs);
      SendSplit(e, n);
      Worker(FreeAll(e.sys.(pool := t.pool, tx := t.tx), Oldest(e.ring, t.count)), RingSend(e.ring, t.count))
  }

  /** The buffers accepted are the oldest of the ring, and the application holds them. */
  lemma SendSplit(e: Worker, n: nat)
    requires EchoInv(e) && e.ring.ringTail + n <= 128 && n <= e.ring.unsent
    ensures |e.ring.bufs| == 128 && TxGood(e.sys.pool, e.sys.tx)
    ensures forall i :: 0 <= i < n ==> Oldest(e.ring, n)[i] < |e.sys.pool.refs|
    ensures var t := Transmit(e.sys.pool, e.sys.tx, Oldest(e.ring, n));
      && t.count <= n && |t.pool.refs| == |e.sys.pool.refs|
      && Driver.Inv(e.sys.(pool := t.pool, tx := t.tx))
      && multiset(Oldest(e.ring, t.count)) <= e.sys.app
      && RingInv(RingSend(e.ring, t.count))
      && Waiting(RingSend(e.ring, t.count)) == e.sys.app - multiset(Oldest(e.ring, t.count))
  {
    RingBounds(e.ring);
    InvParts(e.sys);
    hide Driver.Inv, RxInv, PoolInv, Settled, TxRest, TxGood, RingInv, RingSend, Waiting, CallerHoldsAll;
    var bs := Oldest(e.ring, n);
    SendAllowed(e, n);
    TransmitAllowed(e.sys, bs);
    TransmitStep(e.sys, bs);
    TransmitKeeps(e.sys.pool, e.sys.tx, bs);
    SendRing(e.ring, Transmit(e.sys.pool, e.sys.tx, bs).count);
    SendWaiting(e.ring, Transmit(e.sys.pool, e.sys.tx, bs).count);
  }

  /** Sending keeps every invariant; what it posts is exactly the oldest of the ring, in order. */
  lemma SendKeeps(e: Worker)
    requires EchoInv(e)
    ensures EchoInv(Send(e))
  {
    RingBounds(e.ring);
    hide Driver.Inv, RingInv, RingSend, Waiting, FreeAll;
    var n := SendSize(e.ring);
    if n != 0 {
      SendSplit(e, n);
    }
  }

  /** What sending does, spelled out. */
  lemma SendMeans(e: Worker)
    requires EchoInv(e)
    ensures |e.ring.bufs| == 128 && e.ring.ringTail < 128
    ensures TxGood(e.sys.pool, e.sys.tx) && CallerHoldsAll(e.sys.pool, e.sys.tx, Oldest(e.ring, SendSize(e.ring)))
    ensures var n := SendSize(e.ring);
      if n == 0 then Send(e) == e
      else
        var bs := Oldest(e.ring, n);
        && (forall i :: 0 <= i < |bs| ==> bs[i] < |e.sys.pool.refs|)
        && var t := Transmit(e.sys.pool, e.sys.tx, bs);
        && t.count <= n && Driver.Inv(e.sys.(pool := t.pool, tx := t.tx))
        && multiset(Oldest(e.ring, t.count)) <= e.sys.app
        && Send(e) == Worker(FreeAll(e.sys.(pool := t.pool, tx := t.tx), Oldest(e.ring, t.count)),
                             RingSend(e.ring, t.count))
  {
    RingBounds(e.ring);
    InvParts(e.sys);
    hide Driver.Inv, RingInv, TxGood, CallerHoldsAll, FreeAll;
    var n := SendSize(e.ring);
    SendAllowed(e, n);
    TransmitAllowed(e.sys, Oldest(e.ring, n));
    SendSplit(e, n);
  }

  /** One more buffer given back. */
  lemma FreeAllStep(s: Sys, bs: seq<nat>, i: nat)
    requires Driver.Inv(s) && multiset(bs) <= s.app && i < |bs|
    ensures multiset(bs[..i]) <= s.app && multiset(bs[..i + 1]) <= s.app
    ensures var s1 := FreeAll(s, bs[..i]);
      && PoolInv(s1.pool) && bs[i] < |s1.pool.refs| && |s1.pool.refs| == |s.pool.refs|
      && Release(s1.pool, bs[i]) == Some(FreeAll(s, bs[..i + 1]).pool)
  {
    hide Driver.Inv, RxInv, PoolInv, Apply, Enabled;
    PrefixWithin(bs, i, s.app);
    PrefixWithin(bs, i + 1, s.app);
    assert bs[..i + 1][..i] == bs[..i] && bs[..i + 1] == bs[..i] + [bs[i]];
    FreeOne(FreeAll(s, bs[..i]), bs[i]);
  }

  lemma PrefixWithin(bs: seq<nat>, i: nat, m: multiset<nat>)
    requires multiset(bs) <= m && i <= |bs|
    ensures multiset(bs[..i]) <= m
    ensures i < |bs| ==> bs[i] in m - multiset(bs[..i])
  {
    assert bs == bs[..i] + bs[i..];
    if i < |bs| {
      assert bs[i..] == [bs[i]] + bs[i + 1..];
    }
  }

  lemma FreeAllNone(s: Sys)
    requires Driver.Inv(s)
    ensures multiset([]) <= s.app && FreeAll(s, []) == s
  {
  }

  lemma WorkKeeps(e: Worker)
    requires EchoInv(e)
    ensures EchoInv(e.(ring := RingWork(e.ring)))
  {
    hide Driver.Inv;
    WorkRing(e.ring);
  }

  lemma FeedbackKeeps(e: Worker)
    requires EchoInv(e)
    ensures EchoInv(e.(ring := RingFeedback(e.ring)))
  {
    hide Driver.Inv;
    FeedbackRing(e.ring);
  }

  // ---- whole runs ----------------------------------------------------------------------------------------

  /** The parts of the polling loop, and whatever the NIC does in between. */
  datatype Event = PullRx | DoWork | SendFeedback | SendTx | Nic(step: Step)

  predicate Possible(e: Worker, v: Event) {
    v.Nic? ==> (v.step.NicReceives? || v.step.NicTransmits?) && Enabled(e.sys, v.step)
  }

  ghost function Next(e: Worker, v: Event): (o: Option<Worker>)
    requires EchoInv(e) && Possible(e, v)
    ensures o.Some? && EchoInv(o.value)
  {
    match v
    case PullRx => PullKeeps(e); Pull(e)
    case DoWork => WorkKeeps(e); Some(e.(ring := RingWork(e.ring)))
    case SendFeedback => FeedbackKeeps(e); Some(e.(ring := RingFeedback(e.ring)))
    case SendTx => SendKeeps(e); Some(Send(e))
    case Nic(step) => NicEvent(e, step); Some(e.(sys := Apply(e.sys, step).sys))
  }

  lemma NicEvent(e: Worker, step: Step)
    requires EchoInv(e) && Enabled(e.sys, step) && (step.NicReceives? || step.NicTransmits?)
    ensures Apply(e.sys, step).Running? && EchoInv(e.(sys := Apply(e.sys, step).sys))
  {
    NicStep(e.sys, step);
    InvParts(e.sys);
    hide Driver.Inv, RingInv, Waiting, RxInv, TxRest, TxGood, PoolInv;
  }

  ghost predicate EchoInit(e: Worker) {
    && Init(e.sys) && |e.sys.pool.refs| == 4096
    && |e.ring.bufs| == 128 && e.ring == BlankRing(e.ring.bufs)
  }

  lemma EchoInitInv(e: Worker)
    requires EchoInit(e)
    ensures EchoInv(e)
  {
    InitInv(e.sys);
    BlankRingInv(e.ring.bufs);
  }

  /**
   Every run of the polling loop, with any NIC behaviour in between: no step aborts, the
   counters always sum to 128, and what has been posted is always a prefix of what was received.
   */
  ghost function EchoRun(e: Worker, events: seq<Event>): (o: Option<Worker>)
    requires EchoInv(e)
    ensures o.Some? ==>
      var r := o.value.ring;
      && EchoInv(o.value)
      && r.empty + r.unprocessed + r.unsent == 128
      && r.posted <= r.received
    decreases |events|
  {
    RingBounds(e.ring);
    if events == [] then Some(e)
    else if !Possible(e, events[0]) then None
    else EchoRun(Next(e, events[0]).value, events[1..])
  }

  /** Sending appends to the transmit ring exactly what it appends to the history. */
  lemma SendCarries(e: Worker)
    requires EchoInv(e) && Carries(e.sys.tx, e.ring.posted)
    ensures Carries(Send(e).sys.tx, Send(e).ring.posted)
  {
    hide EchoInv, Carries, Transmit, TxGood, CallerHoldsAll, FreeAll, Driver.Inv, Waiting, SendSize, Send;
    SendMeans(e);
    var n := SendSize(e.ring);
    if n != 0 {
      var bs := Oldest(e.ring, n);
      TransmitCarries(e.sys.pool, e.sys.tx, bs, e.ring.posted);
      var t := Transmit(e.sys.pool, e.sys.tx, bs);
      OldestPrefix(e.ring, n, t.count);
    }
  }

  lemma OldestPrefix(r: Ring, n: nat, k: nat)
    requires r.ringTail + n <= |r.bufs| && k <= n
    ensures Oldest(r, n)[..k] == Oldest(r, k)
  {
  }

  lemma PullCarries(e: Worker)
    requires EchoInv(e)
    ensures Pull(e).Some? && Pull(e).value.sys.tx == e.sys.tx && Pull(e).value.ring.posted == e.ring.posted
  {
    hide EchoInv, Pull, RxRing.Receive, PoolInv, RxInv;
    PullMeans(e);
  }

  lemma NextCarries(e: Worker, v: Event)
    requires EchoInv(e) && Possible(e, v) && Carries(e.sys.tx, e.ring.posted)
    ensures var e' := Next(e, v).value; Carries(e'.sys.tx, e'.ring.posted)
  {
    hide EchoInv, Pull, Send, At, Put;
    match v
    case PullRx => PullCarries(e);
    case SendTx => SendCarries(e);
    case Nic(step) => NicEvent(e, step);
    case _ =>
  }

  /**
   In every run from a blank start the transmit ring carries the packets in the order received:
   the `p`-th descriptor ever posted holds the `p`-th packet ever received, until it is reclaimed.
   */
  lemma EchoKeepsOrder(e: Worker, events: seq<Event>)
    requires EchoInit(e)
    ensures EchoInv(e)
    ensures EchoRun(e, events).Some? ==>
      var o := EchoRun(e, events).value;
      && Carries(o.sys.tx, o.ring.posted) && o.ring.posted <= o.ring.received
      && (forall p: nat :: o.sys.tx.cqTail <= p < o.sys.tx.head ==> At(o.sys.tx.slots, p) == Some(o.ring.received[p]))
  {
    EchoInitInv(e);
    hide EchoInv, At;
    RunCarries(e, events);
  }

  lemma {:induction false} RunCarries(e: Worker, events: seq<Event>)
    requires EchoInv(e) && Carries(e.sys.tx, e.ring.posted)
    ensures EchoRun(e, events).Some? ==>
      Carries(EchoRun(e, events).value.sys.tx, EchoRun(e, events).value.ring.posted)
    decreases |events|
  {
    hide EchoInv, Carries, Next, Possible;
    if events != [] && Possible(e, events[0]) {
      NextCarries(e, events[0]);
      RunCarries(Next(e, events[0]).value, events[1..]);
    }
  }

  // ---- progress ------------------------------------------------------------------------------------------

  /** With fewer than five packets waiting a pull takes what has arrived, up to 16 and the end of the array. */
  lemma PullProgress(e: Worker)
    requires EchoInv(e) && e.ring.unprocessed + e.ring.unsent < 5
    ensures Pull(e).Some?
    ensures var n, arrived := Min(16, 128 - e.ring.ringHead), |e.sys.rx.history| - e.sys.rx.tail;
      n > 0 && |Pull(e).value.ring.received| == |e.ring.received| + Min(n, arrived)
  {
    hide EchoInv, Pull, PoolInv, RxInv, RingInv, RxRing.Drain, Refill;
    PullMeans(e);
    EchoBounds(e);
    PullKeeps(e);
  }

  lemma EchoBounds(e: Worker)
    requires EchoInv(e)
    ensures |e.ring.bufs| == 128 && e.ring.ringHead < 128 && e.ring.ringTail < 128
    ensures e.ring.empty + e.ring.unprocessed + e.ring.unsent == 128 && e.ring.posted <= e.ring.received
    ensures |e.ring.received| == |e.ring.posted| + e.ring.unsent + e.ring.unprocessed
  {
    hide Driver.Inv, Waiting;
    RingBounds(e.ring);
  }

  /** With room in the transmit ring a send posts the oldest packet that is ready. */
  lemma SendProgress(e: Worker)
    requires EchoInv(e) && e.ring.unsent > 0 && e.sys.tx.head < e.sys.tx.clean + 128
    ensures var e' := Send(e);
      && EchoInv(e') && |e'.ring.posted| == |e.ring.posted| + 1 && e'.ring.unsent == e.ring.unsent - 1
      && e'.ring.unprocessed == e.ring.unprocessed && e'.ring.received == e.ring.received
      && e'.sys.tx.head == e.sys.tx.head + 1 && e'.sys.tx.clean >= e.sys.tx.clean
  {
    EchoBounds(e);
    SendKeeps(e);
    SendMeans(e);
    TxResting(e);
    hide EchoInv, Transmit, TxGood, CallerHoldsAll, FreeAll, Driver.Inv, Waiting, Send, TxInv, TxRest, Pos;
    var bs := Oldest(e.ring, SendSize(e.ring));
    TransmitKeeps(e.sys.pool, e.sys.tx, bs);
    assert Transmit(e.sys.pool, e.sys.tx, bs).count == 1;
  }

  lemma TxResting(e: Worker)
    requires EchoInv(e)
    ensures TxRest(e.sys.tx)
  {
  }

  /** Working on every packet makes all of them ready to send. */
  lemma {:induction false} WorkAll(e: Worker, k: nat, rest: seq<Event>)
    requires EchoInv(e) && k == e.ring.unprocessed
    ensures var ready := e.(ring := Worked(e.ring, k));
      EchoInv(ready) && EchoRun(e, Times(DoWork, k) + rest) == EchoRun(ready, rest)
    decreases k
  {
    hide EchoInv, RingInv, Pos;
    if k == 0 {
      assert Times(DoWork, k) + rest == rest;
    } else {
      var e' := e.(ring := RingWork(e.ring));
      WorkKeeps(e);
      assert (Times(DoWork, k) + rest)[0] == DoWork && (Times(DoWork, k) + rest)[1..] == Times(DoWork, k - 1) + rest;
      WorkAll(e', k - 1, rest);
    }
  }

  function Times(v: Event, k: nat): (r: seq<Event>)
    ensures |r| == k && forall i :: 0 <= i < k ==> r[i] == v
  {
    seq(k, _ => v)
  }

  function Worked(r: Ring, k: nat): Ring
    decreases k
  {
    if k == 0 then r else Worked(RingWork(r), k - 1)
  }

  lemma {:induction false} WorkedIs(r: Ring, k: nat)
    requires k == r.unprocessed
    ensures var w := Worked(r, k);
      w.unprocessed == 0 && w.unsent == r.unsent + k && w.received == r.received && w.posted == r.posted
    decreases k
  {
    hide Pos;
    if k > 0 { WorkedIs(RingWork(r), k - 1); }
  }

  lemma {:induction false} SendAll(e: Worker, k: nat) returns (o: Worker)
    requires EchoInv(e) && k == e.ring.unsent && e.sys.tx.head + k <= e.sys.tx.clean + 128
    ensures EchoRun(e, Times(SendTx, k)) == Some(o) && EchoInv(o)
    ensures o.ring.unsent == 0 && o.ring.unprocessed == e.ring.unprocessed && o.ring.received == e.ring.received
    decreases k
  {
    hide EchoInv, Send;
    if k == 0 {
      o := e;
    } else {
      SendProgress(e);
      assert Times(SendTx, k)[1..] == Times(SendTx, k - 1);
      o := SendAll(Send(e), k - 1);
    }
  }

  /** Working on everything and then sending everything echoes every packet, if the transmit ring has room. */
  lemma EchoDrains(e: Worker)
    requires EchoInv(e) && e.sys.tx.head + e.ring.unprocessed + e.ring.unsent <= e.sys.tx.clean + 128
    ensures var n := e.ring.unprocessed + e.ring.unsent;
      var o := EchoRun(e, Times(DoWork, e.ring.unprocessed) + Times(SendTx, n));
      o.Some? && o.value.ring.posted == e.ring.received && o.value.ring.received == e.ring.received
  {
    hide EchoInv, EchoRun, Worked;
    var k := e.ring.unprocessed;
    WorkAll(e, k, Times(SendTx, k + e.ring.unsent));
    WorkedIs(e.ring, k);
    var o := SendAll(e.(ring := Worked(e.ring, k)), k + e.ring.unsent);
    EchoBounds(o);
  }
}
