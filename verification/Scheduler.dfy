/**
 * The prioritised scheduler: tasks live in slots of a slab, and the page a task was inserted into is
 * its priority. Every page has one bit per slot for notified, completed and dropped tasks. The model
 * covers slabs of up to 64 tasks, which is when a slot number fits a page.
 */
module Scheduler {
  import opened Common

  const PAGE_SIZE: nat := 64

  datatype Page = Page(notified: set<nat>, completed: set<nat>, dropped: set<nat>)

  /** The slab maps an occupied slot to the page of its task. */
  datatype State = State(slab: map<nat, nat>, pages: seq<Page>)

  /** What a task may do while it is polled: wake a live task, spawn one, or drop the handle of one. */
  datatype Effect = Wake(page: nat, slot: nat) | Spawn(slot: nat, page: nat) | DropHandle(page: nat, slot: nat)

  /** How a task behaves when it is polled: its effects in order, and whether it is finished. */
  datatype Behaviour = Behaviour(effects: seq<Effect>, ready: bool)

  function EmptyPage(): Page { Page({}, {}, {}) }

  predicate Live(s: State, page: nat, slot: nat) {
    slot in s.slab && s.slab[slot] == page && page < |s.pages|
  }

  // ---------------------------------------------------------------------------
  // Operations
  // ---------------------------------------------------------------------------

  /** Pages up to and including `n`. */
  function Grow(pages: seq<Page>, n: nat): (r: seq<Page>)
    ensures |r| > n && |r| >= |pages|
    ensures forall i :: 0 <= i < |pages| ==> r[i] == pages[i]
    ensures forall i :: |pages| <= i < |r| ==> r[i] == EmptyPage()
    ensures |pages| > n ==> r == pages
    decreases n + 1 - |pages|
  {
    if |pages| > n then pages else Grow(pages + [EmptyPage()], n)
  }

  predicate CanInsert(s: State, slot: nat) {
    slot < PAGE_SIZE && slot !in s.slab
  }

  /** Put a task into a free slot; it starts out notified. */
  function Insert(s: State, slot: nat, page: nat): State
    requires CanInsert(s, slot)
  {
    var pages := Grow(s.pages, page);
    var p := pages[page];
    State(s.slab[slot := page],
          pages[page := Page(p.notified + {slot}, p.completed - {slot}, p.dropped - {slot})])
  }

  function Notify(s: State, page: nat, slot: nat): State
    requires page < |s.pages|
  {
    s.(pages := s.pages[page := s.pages[page].(notified := s.pages[page].notified + {slot})])
  }

  function MarkDropped(s: State, page: nat, slot: nat): State
    requires page < |s.pages|
  {
    s.(pages := s.pages[page := s.pages[page].(dropped := s.pages[page].dropped + {slot})])
  }

  function MarkCompleted(s: State, page: nat, slot: nat): State
    requires page < |s.pages|
  {
    s.(pages := s.pages[page := s.pages[page].(completed := s.pages[page].completed + {slot})])
  }

  function ClearSlot(p: Page, slot: nat): Page {
    Page(p.notified - {slot}, p.completed - {slot}, p.dropped - {slot})
  }

  predicate CanTake(s: State, page: nat, slot: nat) {
    Live(s, page, slot) && slot !in s.pages[page].dropped
  }

  /** Remove a task whose handle is given back. */
  function Take(s: State, page: nat, slot: nat): State
    requires CanTake(s, page, slot)
  {
    State(s.slab - {slot}, s.pages[page := ClearSlot(s.pages[page], slot)])
  }

  /** An effect on a task that is not there, or into a slot that is taken, does not happen. */
  function DoEffect(s: State, e: Effect): State {
    match e
    case Wake(page, slot) => if Live(s, page, slot) then Notify(s, page, slot) else s
    case Spawn(slot, page) => if CanInsert(s, slot) then Insert(s, slot, page) else s
    case DropHandle(page, slot) => if Live(s, page, slot) then MarkDropped(s, page, slot) else s
  }

  function DoEffects(s: State, es: seq<Effect>): State
    decreases |es|
  {
    if es == [] then s else DoEffects(DoEffect(s, es[0]), es[1..])
  }

  /** The notifications that count: neither completed nor dropped. */
  function Unmasked(p: Page): set<nat> {
    p.notified - p.completed - p.dropped
  }

  /** Poll one task. */
  function PollTask(s: State, page: nat, slot: nat, b: Behaviour): State {
    var t := DoEffects(s, b.effects);
    if b.ready && page < |t.pages| then MarkCompleted(t, page, slot) else t
  }

  /** Poll the tasks of a page from slot `i` up. Slot zero is never reached. */
  function Serve(s: State, page: nat, snap: set<nat>, b: seq<Behaviour>, i: nat): State
    requires |b| == PAGE_SIZE && i <= PAGE_SIZE
    decreases PAGE_SIZE - i
  {
    if i == PAGE_SIZE then s
    else Serve(if i in snap then PollTask(s, page, i, b[i]) else s, page, snap, b, i + 1)
  }

  /** Take the notified and dropped bits of a page. */
  function Swap(s: State, page: nat): (t: State)
    requires page < |s.pages|
    ensures |t.pages| == |s.pages|
  {
    s.(pages := s.pages[page := Page({}, s.pages[page].completed, {})])
  }

  /** Remove the dropped tasks of a page, except the one in slot zero. */
  function Reap(s: State, page: nat, dropped: set<nat>): (t: State)
    requires page < |s.pages|
    ensures |t.pages| == |s.pages|
  {
    var gone := dropped - {0};
    var p := s.pages[page];
    State(s.slab - gone, s.pages[page := Page(p.notified - gone, p.completed - gone, p.dropped - gone)])
  }

  /** One pass over the pages: the first page with work is served and ends the pass. */
  function PollFrom(s: State, page: nat, b: seq<Behaviour>): State
    requires |b| == PAGE_SIZE
    decreases |s.pages| - page
  {
    if page >= |s.pages| then s
    else
      var snap, dropped := Unmasked(s.pages[page]), s.pages[page].dropped;
      if snap != {} then Serve(Swap(s, page), page, snap, b, 1)
      else PollFrom(Reap(Swap(s, page), page, dropped), page + 1, b)
  }

  // ---------------------------------------------------------------------------
  // The invariant
  // ---------------------------------------------------------------------------

  /** All bits of a page belong to tasks that live in it. */
  ghost predicate PageInv(slab: map<nat, nat>, pages: seq<Page>, p: nat)
    requires p < |pages|
  {
    forall i :: i in pages[p].notified || i in pages[p].completed || i in pages[p].dropped ==> i in slab && slab[i] == p
  }

  ghost predicate Inv(s: State) {
    && (forall i :: i in s.slab ==> i < PAGE_SIZE && s.slab[i] < |s.pages|)
    && (forall p :: 0 <= p < |s.pages| ==> PageInv(s.slab, s.pages, p))
  }

  lemma InsertKeeps(s: State, slot: nat, page: nat)
    requires Inv(s) && CanInsert(s, slot)
    ensures Inv(Insert(s, slot, page))
  {
    var t := Insert(s, slot, page);
    forall p | 0 <= p < |t.pages| ensures PageInv(t.slab, t.pages, p) {
      if p < |s.pages| { assert PageInv(s.slab, s.pages, p); }
    }
  }

  lemma BitKeeps(s: State, page: nat, slot: nat)
    requires Inv(s) && Live(s, page, slot)
    ensures Inv(Notify(s, page, slot)) && Inv(MarkDropped(s, page, slot)) && Inv(MarkCompleted(s, page, slot))
  {
    forall p | 0 <= p < |s.pages|
      ensures PageInv(s.slab, Notify(s, page, slot).pages, p)
              && PageInv(s.slab, MarkDropped(s, page, slot).pages, p)
              && PageInv(s.slab, MarkCompleted(s, page, slot).pages, p)
    {
      assert PageInv(s.slab, s.pages, p);
    }
  }

  lemma TakeKeeps(s: State, page: nat, slot: nat)
    requires Inv(s) && CanTake(s, page, slot)
    ensures Inv(Take(s, page, slot))
  {
    var t := Take(s, page, slot);
    forall p | 0 <= p < |t.pages| ensures PageInv(t.slab, t.pages, p) {
      assert PageInv(s.slab, s.pages, p);
    }
  }

  /** What the effects of a task never do: remove a task, take a notification away or complete a task. */
  ghost predicate OnlyAdds(s: State, t: State) {
    && |s.pages| <= |t.pages|
    && (forall i :: i in s.slab ==> i in t.slab && t.slab[i] == s.slab[i])
    && (forall p :: 0 <= p < |s.pages| ==> s.pages[p].notified <= t.pages[p].notified)
    && (forall p :: 0 <= p < |s.pages| ==> t.pages[p].completed <= s.pages[p].completed)
    && (forall p, i :: 0 <= p < |s.pages| && i in s.pages[p].completed && i in s.slab ==> i in t.pages[p].completed)
  }

  lemma EffectAdds(s: State, e: Effect)
    requires Inv(s)
    ensures Inv(DoEffect(s, e)) && OnlyAdds(s, DoEffect(s, e))
  {
    match e
    case Wake(page, slot) => if Live(s, page, slot) { BitKeeps(s, page, slot); }
    case Spawn(slot, page) =>
      if CanInsert(s, slot) {
        InsertKeeps(s, slot, page);
        if page < |s.pages| { assert PageInv(s.slab, s.pages, page); }
      }
    case DropHandle(page, slot) => if Live(s, page, slot) { BitKeeps(s, page, slot); }
  }

  lemma AddsTrans(a: State, b: State, c: State)
    requires OnlyAdds(a, b) && OnlyAdds(b, c)
    ensures OnlyAdds(a, c)
  {
    forall p | 0 <= p < |a.pages|
      ensures a.pages[p].notified <= c.pages[p].notified && c.pages[p].completed <= a.pages[p].completed
    {
      assert a.pages[p].notified <= b.pages[p].notified && b.pages[p].completed <= a.pages[p].completed;
    }
  }

  lemma {:induction false} EffectsAdd(s: State, es: seq<Effect>)
    requires Inv(s)
    ensures Inv(DoEffects(s, es)) && OnlyAdds(s, DoEffects(s, es))
    decreases |es|
  {
    hide Inv, OnlyAdds, DoEffect;
    if es == [] {
      AddsSelf(s);
    } else {
      var t := DoEffect(s, es[0]);
      EffectAdds(s, es[0]);
      EffectsAdd(t, es[1..]);
      AddsTrans(s, t, DoEffects(s, es));
    }
  }

  lemma AddsSelf(s: State)
    ensures OnlyAdds(s, s)
  {
  }

  // ---------------------------------------------------------------------------
  // Serving one page
  // ---------------------------------------------------------------------------

  /** One poll: the slot, and the state in which its task is looked up. */
  datatype Turn = Turn(slot: nat, before: State)

  /** The polls of a page, in order. */
  function Turns(s: State, page: nat, snap: set<nat>, b: seq<Behaviour>, i: nat): seq<Turn>
    requires |b| == PAGE_SIZE && i <= PAGE_SIZE
    decreases PAGE_SIZE - i
  {
    if i == PAGE_SIZE then []
    else if i in snap then [Turn(i, s)] + Turns(PollTask(s, page, i, b[i]), page, snap, b, i + 1)
    else Turns(s, page, snap, b, i + 1)
  }

  /** The tasks still to be polled are there and not finished. */
  ghost predicate Due(s: State, page: nat, snap: set<nat>, i: nat) {
    && page < |s.pages|
    && forall j :: j in snap && j >= i ==> Live(s, page, j) && j !in s.pages[page].completed
  }

  /** What a poll of the whole scheduler never does to a page it does not serve. */
  ghost predicate Untouched(s: State, t: State) {
    && |s.pages| <= |t.pages|
    && (forall i :: i in s.slab ==> i in t.slab && t.slab[i] == s.slab[i])
    && (forall p :: 0 <= p < |s.pages| ==> s.pages[p].notified <= t.pages[p].notified)
    && (forall p, i :: 0 <= p < |s.pages| && i in s.pages[p].completed && i in s.slab ==> i in t.pages[p].completed)
  }

  lemma PollTaskKeeps(s: State, page: nat, snap: set<nat>, i: nat, b: Behaviour)
    requires Inv(s) && Due(s, page, snap, i) && i in snap
    ensures var t := PollTask(s, page, i, b);
            Inv(t) && Due(t, page, snap, i + 1) && Untouched(s, t)
  {
    hide Inv, DoEffects;
    EffectsAdd(s, b.effects);
    var t := DoEffects(s, b.effects);
    assert Live(t, page, i);
    BitKeeps(t, page, i);
    forall j | j in snap && j >= i + 1
      ensures Live(PollTask(s, page, i, b), page, j) && j !in PollTask(s, page, i, b).pages[page].completed
    {
      assert Live(s, page, j);
    }
  }

  lemma UntouchedTrans(a: State, b: State, c: State)
    requires Untouched(a, b) && Untouched(b, c)
    ensures Untouched(a, c)
  {
    forall p | 0 <= p < |a.pages| ensures a.pages[p].notified <= c.pages[p].notified {
      assert a.pages[p].notified <= b.pages[p].notified;
    }
  }

  /** Every lookup finds a task that is not finished, slots go up, and nobody else's notification is lost. */
  lemma {:induction false} ServeKeeps(s: State, page: nat, snap: set<nat>, b: seq<Behaviour>, i: nat)
    requires |b| == PAGE_SIZE && 0 < i <= PAGE_SIZE && Inv(s) && Due(s, page, snap, i)
    ensures Inv(Serve(s, page, snap, b, i)) && Untouched(s, Serve(s, page, snap, b, i))
    ensures forall k :: 0 <= k < |Turns(s, page, snap, b, i)| ==>
              var t := Turns(s, page, snap, b, i)[k];
              && t.slot in snap && t.slot >= i
              && Live(t.before, page, t.slot) && t.slot !in t.before.pages[page].completed
    ensures forall k, m :: 0 <= k < m < |Turns(s, page, snap, b, i)| ==>
              Turns(s, page, snap, b, i)[k].slot < Turns(s, page, snap, b, i)[m].slot
    ensures forall j :: j in snap && i <= j < PAGE_SIZE ==>
              exists k :: 0 <= k < |Turns(s, page, snap, b, i)| && Turns(s, page, snap, b, i)[k].slot == j
    decreases PAGE_SIZE - i
  {
    hide Inv, PollTask;
    if i == PAGE_SIZE {
    } else if i in snap {
      var t := PollTask(s, page, i, b[i]);
      PollTaskKeeps(s, page, snap, i, b[i]);
      ServeKeeps(t, page, snap, b, i + 1);
      UntouchedTrans(s, t, Serve(s, page, snap, b, i));
      var rest, all := Turns(t, page, snap, b, i + 1), Turns(s, page, snap, b, i);
      assert all == [Turn(i, s)] + rest;
      forall j | j in snap && i <= j < PAGE_SIZE ensures exists k :: 0 <= k < |all| && all[k].slot == j {
        if j == i {
          assert all[0].slot == j;
        } else {
          var k :| 0 <= k < |rest| && rest[k].slot == j;
          assert all[k + 1] == rest[k];
        }
      }
    } else {
      ServeKeeps(s, page, snap, b, i + 1);
      assert Turns(s, page, snap, b, i) == Turns(s, page, snap, b, i + 1);
    }
  }

  // ---------------------------------------------------------------------------
  // A whole pass
  // ---------------------------------------------------------------------------

  /** The first page, from `page` on, with a notification that counts. */
  function FirstDue(pages: seq<Page>, page: nat): (r: nat)
    requires page <= |pages|
    ensures page <= r <= |pages|
    ensures r < |pages| ==> Unmasked(pages[r]) != {}
    ensures forall q :: page <= q < r ==> Unmasked(pages[q]) == {}
    decreases |pages| - page
  {
    if page == |pages| || Unmasked(pages[page]) != {} then page else FirstDue(pages, page + 1)
  }

  /** The state when the pass reaches page `stop`, having cleaned the pages from `page` on. */
  function Cleaned(s: State, page: nat, stop: nat): (t: State)
    requires page <= stop <= |s.pages|
    ensures |t.pages| == |s.pages|
    decreases stop - page
  {
    if page == stop then s else Cleaned(Reap(Swap(s, page), page, s.pages[page].dropped), page + 1, stop)
  }

  lemma ReapKeeps(s: State, page: nat)
    requires Inv(s) && page < |s.pages|
    ensures var t := Reap(Swap(s, page), page, s.pages[page].dropped);
            && Inv(t) && |t.pages| == |s.pages|
            && (forall q :: 0 <= q < |s.pages| && q != page ==> t.pages[q] == s.pages[q])
            && t.pages[page].dropped == {}
            && (forall i :: i in s.pages[page].completed && i in t.slab ==> i in t.pages[page].completed)
            && (forall i :: i in t.slab <==> i in s.slab && !(i in s.pages[page].dropped && i != 0))
            && (forall i :: i in t.slab ==> t.slab[i] == s.slab[i])
  {
    var t := Reap(Swap(s, page), page, s.pages[page].dropped);
    forall p | 0 <= p < |t.pages| ensures PageInv(t.slab, t.pages, p) {
      assert PageInv(s.slab, s.pages, p);
      assert PageInv(s.slab, s.pages, page);
    }
  }

  /** Cleaning removes exactly the dropped tasks of the cleaned pages, slot zero excepted. */
  lemma {:induction false} CleanedIs(s: State, page: nat, stop: nat)
    requires Inv(s) && page <= stop <= |s.pages|
    ensures var t := Cleaned(s, page, stop);
            && Inv(t) && |t.pages| == |s.pages|
            && (forall q :: stop <= q < |s.pages| || 0 <= q < page ==> t.pages[q] == s.pages[q])
            && (forall q :: page <= q < stop ==> t.pages[q].dropped == {})
            && (forall q, i :: 0 <= q < |s.pages| && i in s.pages[q].completed && i in t.slab ==>
                  i in t.pages[q].completed)
            && (forall i :: i in t.slab <==>
                  i in s.slab && !(exists q :: page <= q < stop && i in s.pages[q].dropped && i != 0))
            && (forall i :: i in t.slab ==> t.slab[i] == s.slab[i])
    decreases stop - page
  {
    hide Inv, Reap, Swap;
    if page < stop {
      var r := Reap(Swap(s, page), page, s.pages[page].dropped);
      ReapKeeps(s, page);
      CleanedIs(r, page + 1, stop);
      assert forall q :: page < q < stop ==> r.pages[q] == s.pages[q];
    }
  }

  /** The pass cleans the pages before the first one with work and serves that one. */
  lemma {:induction false} PollIs(s: State, page: nat, b: seq<Behaviour>)
    requires Inv(s) && page <= |s.pages| && |b| == PAGE_SIZE
    ensures var f := FirstDue(s.pages, page);
            var t := Cleaned(s, page, f);
            && |t.pages| == |s.pages|
            && (f == |s.pages| ==> PollFrom(s, page, b) == t)
            && (f < |s.pages| ==> PollFrom(s, page, b) == Serve(Swap(t, f), f, Unmasked(s.pages[f]), b, 1))
    decreases |s.pages| - page
  {
    hide Inv, Reap, Swap, Unmasked, Serve;
    var f := FirstDue(s.pages, page);
    if page < f {
      var r := Reap(Swap(s, page), page, s.pages[page].dropped);
      ReapKeeps(s, page);
      SameFirst(s.pages, r.pages, page + 1);
      PollIs(r, page + 1, b);
      assert PollFrom(s, page, b) == PollFrom(r, page + 1, b);
    }
  }

  lemma {:induction false} SameFirst(a: seq<Page>, b: seq<Page>, page: nat)
    requires |a| == |b| && page <= |a| && forall q :: page <= q < |a| ==> a[q] == b[q]
    ensures FirstDue(a, page) == FirstDue(b, page)
    decreases |a| - page
  {
    if page < |a| { SameFirst(a, b, page + 1); }
  }

  lemma SwapKeeps(s: State, page: nat)
    requires Inv(s) && page < |s.pages|
    ensures Inv(Swap(s, page)) && Due(Swap(s, page), page, Unmasked(s.pages[page]), 1)
  {
    assert PageInv(s.slab, s.pages, page);
    forall p | 0 <= p < |s.pages| ensures PageInv(s.slab, Swap(s, page).pages, p) {
      assert PageInv(s.slab, s.pages, p);
    }
  }

  /** The polls of a whole pass. */
  function PassTurns(s: State, b: seq<Behaviour>): seq<Turn>
    requires |b| == PAGE_SIZE
  {
    var f := FirstDue(s.pages, 0);
    if f == |s.pages| then [] else Turns(Swap(Cleaned(s, 0, f), f), f, Unmasked(s.pages[f]), b, 1)
  }

  /**
   * A pass of the scheduler. The polled tasks are exactly the unmasked notifications of the lowest
   * page that has any, except slot zero; each of them is found, is not finished, and is polled once.
   * The notifications of all higher pages survive, and a finished task stays finished. A task whose
   * handle was dropped is removed exactly if its page lies below the served one and its slot is not
   * zero: a drop in the served page itself is taken and forgotten.
   */
  lemma PollServes(s: State, b: seq<Behaviour>)
    requires Inv(s) && |b| == PAGE_SIZE
    ensures Inv(PollFrom(s, 0, b))
    ensures var f, turns := FirstDue(s.pages, 0), PassTurns(s, b);
            && (forall k :: 0 <= k < |turns| ==>
                  && f < |s.pages| && turns[k].slot in Unmasked(s.pages[f]) && turns[k].slot != 0
                  && Live(turns[k].before, f, turns[k].slot)
                  && turns[k].slot !in turns[k].before.pages[f].completed)
            && (forall k, m :: 0 <= k < m < |turns| ==> turns[k].slot < turns[m].slot)
            && (f < |s.pages| ==> forall j :: j in Unmasked(s.pages[f]) && j != 0 ==>
                  exists k :: 0 <= k < |turns| && turns[k].slot == j)
    ensures var f, t := FirstDue(s.pages, 0), PollFrom(s, 0, b);
            && |s.pages| <= |t.pages|
            && (forall q :: f < q < |s.pages| ==> s.pages[q].notified <= t.pages[q].notified)
            && (forall i :: i in Cleaned(s, 0, f).slab ==> i in s.slab && i in t.slab && t.slab[i] == s.slab[i])
            && (forall q, i :: 0 <= q < |s.pages| && i in s.pages[q].completed && i in Cleaned(s, 0, f).slab ==>
                  i in t.pages[q].completed)
            && (forall q, i :: 0 <= q < |s.pages| && i in s.pages[q].dropped ==>
                  (i !in Cleaned(s, 0, f).slab <==> q < f && i != 0))
  {
    hide Unmasked, Serve, Turns, Swap, Cleaned, PollFrom, Live;
    var f := FirstDue(s.pages, 0);
    var c := Cleaned(s, 0, f);
    CleanedIs(s, 0, f);
    PollIs(s, 0, b);
    DroppedLive(s);
    if f < |s.pages| {
      SwapKeeps(c, f);
      SwapPages(c, f);
      SlotsBelow(s, f);
      ServeKeeps(Swap(c, f), f, Unmasked(s.pages[f]), b, 1);
    }
    forall q, i | 0 <= q < |s.pages| && i in s.pages[q].dropped
      ensures i !in Cleaned(s, 0, f).slab <==> q < f && i != 0
    {
      assert i in s.slab;
    }
  }

  lemma SwapPages(s: State, page: nat)
    requires page < |s.pages|
    ensures var t := Swap(s, page);
            && t.slab == s.slab && |t.pages| == |s.pages| && t.pages[page].completed == s.pages[page].completed
            && forall q :: 0 <= q < |s.pages| && q != page ==> t.pages[q] == s.pages[q]
  {
  }

  lemma SlotsBelow(s: State, page: nat)
    requires Inv(s) && page < |s.pages|
    ensures forall j :: j in Unmasked(s.pages[page]) ==> j < PAGE_SIZE
  {
    assert PageInv(s.slab, s.pages, page);
  }

  /** A dropped task lives in the page that says so. */
  lemma DroppedLive(s: State)
    requires Inv(s)
    ensures forall q, i :: 0 <= q < |s.pages| && i in s.pages[q].dropped ==> i in s.slab && s.slab[i] == q
  {
    forall q, i | 0 <= q < |s.pages| && i in s.pages[q].dropped ensures i in s.slab && s.slab[i] == q {
      assert PageInv(s.slab, s.pages, q);
    }
  }

  // ---------------------------------------------------------------------------
  // Pages a pass does not serve
  // ---------------------------------------------------------------------------

  /** No effect drops the handle of this task. */
  ghost predicate KeepsHandle(es: seq<Effect>, q: nat, i: nat) {
    forall k :: 0 <= k < |es| ==> es[k] != DropHandle(q, i)
  }

  ghost predicate AllKeepHandle(b: seq<Behaviour>, q: nat, i: nat) {
    forall k :: 0 <= k < |b| ==> KeepsHandle(b[k].effects, q, i)
  }

  /** A change that touches no mark of a handle, and keeps the task. */
  predicate SameMark(s: State, t: State, q: nat, i: nat) {
    && q < |s.pages| && q < |t.pages|
    && (Live(s, q, i) ==> Live(t, q, i))
    && (i in t.pages[q].dropped <==> i in s.pages[q].dropped)
  }

  lemma EffectKeepsMark(s: State, e: Effect, q: nat, i: nat)
    requires Inv(s) && q < |s.pages| && e != DropHandle(q, i)
    ensures SameMark(s, DoEffect(s, e), q, i)
  {
    assert PageInv(s.slab, s.pages, q);
  }

  /** Only a task that drops a handle marks it as dropped, and no task takes the mark away. */
  lemma {:induction false} EffectsKeepMark(s: State, es: seq<Effect>, q: nat, i: nat)
    requires Inv(s) && q < |s.pages| && KeepsHandle(es, q, i)
    ensures SameMark(s, DoEffects(s, es), q, i)
    decreases |es|
  {
    hide Inv, Live, DoEffect;
    if es != [] {
      EffectAdds(s, es[0]);
      assert es[0] != DropHandle(q, i);
      EffectKeepsMark(s, es[0], q, i);
      forall k | 0 <= k < |es[1..]| ensures es[1..][k] != DropHandle(q, i) { assert es[1..][k] == es[k + 1]; }
      EffectsKeepMark(DoEffect(s, es[0]), es[1..], q, i);
    }
  }

  lemma PollTaskKeepsMark(s: State, page: nat, slot: nat, b: Behaviour, q: nat, i: nat)
    requires Inv(s) && q < |s.pages| && KeepsHandle(b.effects, q, i)
    ensures SameMark(s, PollTask(s, page, slot, b), q, i)
  {
    hide Inv, DoEffects;
    EffectsKeepMark(s, b.effects, q, i);
  }

  /** Serving a page changes no mark of a dropped handle, unless one of its tasks drops that handle. */
  lemma {:induction false} ServeKeepsMark(s: State, page: nat, snap: set<nat>, b: seq<Behaviour>, i: nat,
                                          q: nat, j: nat)
    requires |b| == PAGE_SIZE && 0 < i <= PAGE_SIZE && Inv(s) && Due(s, page, snap, i)
    requires q < |s.pages| && AllKeepHandle(b, q, j)
    ensures SameMark(s, Serve(s, page, snap, b, i), q, j)
    decreases PAGE_SIZE - i
  {
    hide Inv, Due, PollTask, Live;
    if i < PAGE_SIZE {
      if i in snap {
        PollTaskKeeps(s, page, snap, i, b[i]);
        PollTaskKeepsMark(s, page, i, b[i], q, j);
        ServeKeepsMark(PollTask(s, page, i, b[i]), page, snap, b, i + 1, q, j);
      } else {
        DueLater(s, page, snap, i);
        ServeKeepsMark(s, page, snap, b, i + 1, q, j);
      }
    }
  }

  /** Serving one page finishes no task of another page. */
  lemma {:induction false} ServeElsewhere(s: State, page: nat, snap: set<nat>, b: seq<Behaviour>, i: nat, q: nat)
    requires |b| == PAGE_SIZE && 0 < i <= PAGE_SIZE && Inv(s) && Due(s, page, snap, i)
    requires q < |s.pages| && q != page
    ensures q < |Serve(s, page, snap, b, i).pages|
    ensures Serve(s, page, snap, b, i).pages[q].completed <= s.pages[q].completed
    decreases PAGE_SIZE - i
  {
    hide Inv, Due, DoEffects;
    if i < PAGE_SIZE {
      if i in snap {
        PollTaskKeeps(s, page, snap, i, b[i]);
        EffectsAdd(s, b[i].effects);
        ServeElsewhere(PollTask(s, page, i, b[i]), page, snap, b, i + 1, q);
      } else {
        DueLater(s, page, snap, i);
        ServeElsewhere(s, page, snap, b, i + 1, q);
      }
    }
  }

  lemma DueLater(s: State, page: nat, snap: set<nat>, i: nat)
    requires Due(s, page, snap, i)
    ensures Due(s, page, snap, i + 1)
  {
  }

  /** A task that has been notified and has not finished. */
  predicate Waiting(s: State, q: nat, i: nat) {
    Live(s, q, i) && i in s.pages[q].notified && i !in s.pages[q].completed
  }

  /** A pass that ends below a page leaves its waiting tasks waiting. */
  lemma PassBelow(s: State, b: seq<Behaviour>, q: nat, i: nat)
    requires Inv(s) && |b| == PAGE_SIZE && Waiting(s, q, i) && FirstDue(s.pages, 0) < q
    ensures Waiting(PollFrom(s, 0, b), q, i)
  {
    hide Inv, Unmasked, Serve, Swap, Cleaned, PollFrom;
    var f := FirstDue(s.pages, 0);
    var c := Cleaned(s, 0, f);
    CleanedIs(s, 0, f);
    PollIs(s, 0, b);
    DroppedLive(s);
    SwapKeeps(c, f);
    SwapPages(c, f);
    ServeKeeps(Swap(c, f), f, Unmasked(s.pages[f]), b, 1);
    ServeElsewhere(Swap(c, f), f, Unmasked(s.pages[f]), b, 1, q);
  }

  /** The pass removes this task because its handle was dropped. */
  predicate Reaps(s: State, q: nat, i: nat) {
    q < |s.pages| && i in s.pages[q].dropped && q < FirstDue(s.pages, 0) && i != 0
  }

  /** Cleaning leaves a task that is not reaped where it is, and takes the marks of the pages it passes. */
  lemma CleanedMark(s: State, q: nat, i: nat)
    requires Inv(s) && Live(s, q, i) && !Reaps(s, q, i)
    ensures var f := FirstDue(s.pages, 0);
            && Live(Cleaned(s, 0, f), q, i)
            && (i in Cleaned(s, 0, f).pages[q].dropped <==> i in s.pages[q].dropped && f <= q)
  {
    hide Inv, Cleaned, Unmasked;
    CleanedIs(s, 0, FirstDue(s.pages, 0));
    DroppedLive(s);
  }

  /**
   * The fate of a task and of its dropped handle in a pass. Unless the pass removes the task, the task
   * stays, and a mark survives exactly in the pages above the served one. So a drop is lost for a task
   * of the served page and for the task in slot zero of a page that was passed.
   */
  lemma PassMark(s: State, b: seq<Behaviour>, q: nat, i: nat)
    requires Inv(s) && |b| == PAGE_SIZE && Live(s, q, i) && AllKeepHandle(b, q, i) && !Reaps(s, q, i)
    ensures var f, t := FirstDue(s.pages, 0), PollFrom(s, 0, b);
            Live(t, q, i) && (i in t.pages[q].dropped <==> i in s.pages[q].dropped && f < q)
  {
    hide Inv, Unmasked, Serve, Cleaned, PollFrom, Reaps;
    var f := FirstDue(s.pages, 0);
    var c := Cleaned(s, 0, f);
    CleanedIs(s, 0, f);
    CleanedMark(s, q, i);
    PollIs(s, 0, b);
    if f < |s.pages| {
      SwapKeeps(c, f);
      ServeKeepsMark(Swap(c, f), f, Unmasked(s.pages[f]), b, 1, q, i);
    }
  }

  /** A task whose handle was dropped leaves the slab in this pass, keeps its mark for a later one, or loses it. */
  lemma DropFate(s: State, b: seq<Behaviour>, q: nat, i: nat)
    requires Inv(s) && |b| == PAGE_SIZE && q < |s.pages| && i in s.pages[q].dropped && AllKeepHandle(b, q, i)
    ensures var f, t := FirstDue(s.pages, 0), PollFrom(s, 0, b);
            if q < f && i != 0 then i !in Cleaned(s, 0, f).slab
            else Live(t, q, i) && (i in t.pages[q].dropped <==> f < q)
  {
    hide Inv, Unmasked, Cleaned, PollFrom;
    DroppedLive(s);
    CleanedIs(s, 0, FirstDue(s.pages, 0));
    if !Reaps(s, q, i) { PassMark(s, b, q, i); }
  }

  /** The pass polls this task. */
  ghost predicate Polls(s: State, b: seq<Behaviour>, q: nat, i: nat)
    requires |b| == PAGE_SIZE
  {
    FirstDue(s.pages, 0) == q && exists k :: 0 <= k < |PassTurns(s, b)| && PassTurns(s, b)[k].slot == i
  }

  /** A waiting task whose handle is still held is reached by the next pass, unless a lower page has work. */
  lemma PassReaches(s: State, b: seq<Behaviour>, q: nat, i: nat)
    requires Inv(s) && |b| == PAGE_SIZE && Waiting(s, q, i) && i !in s.pages[q].dropped && i != 0
    ensures FirstDue(s.pages, 0) <= q
    ensures FirstDue(s.pages, 0) == q <==> Polls(s, b, q, i)
  {
    hide Inv, PassTurns, PollFrom, Cleaned;
    assert i in Unmasked(s.pages[q]);
    PollServes(s, b);
  }

  /** A task that has finished and is still in the slab. */
  predicate Finished(s: State, q: nat, i: nat) {
    Live(s, q, i) && i in s.pages[q].completed
  }

  /** A pass neither polls a finished task nor forgets that it finished; it may only remove it. */
  lemma PassFinished(s: State, b: seq<Behaviour>, q: nat, i: nat)
    requires Inv(s) && |b| == PAGE_SIZE && Finished(s, q, i)
    ensures !Polls(s, b, q, i)
    ensures !Reaps(s, q, i) ==> Finished(PollFrom(s, 0, b), q, i)
  {
    hide Inv, PassTurns, PollFrom, Cleaned;
    assert i !in Unmasked(s.pages[q]);
    PollServes(s, b);
    CleanedIs(s, 0, FirstDue(s.pages, 0));
    DroppedLive(s);
  }

  // ---------------------------------------------------------------------------
  // What a pass does
  // ---------------------------------------------------------------------------

  /** The polls really happen: each finds what the one before it left, and the last one's result is the end. */
  lemma {:induction false} TurnsChain(s: State, page: nat, snap: set<nat>, b: seq<Behaviour>, i: nat)
    requires |b| == PAGE_SIZE && i <= PAGE_SIZE
    ensures var ts, t := Turns(s, page, snap, b, i), Serve(s, page, snap, b, i);
            && (forall k :: 0 <= k < |ts| ==> i <= ts[k].slot < PAGE_SIZE)
            && (forall k :: 0 <= k < |ts| - 1 ==>
                  ts[k + 1].before == PollTask(ts[k].before, page, ts[k].slot, b[ts[k].slot]))
            && (ts == [] ==> t == s)
            && (ts != [] ==>
                  && ts[0].before == s
                  && t == PollTask(ts[|ts| - 1].before, page, ts[|ts| - 1].slot, b[ts[|ts| - 1].slot]))
    decreases PAGE_SIZE - i
  {
    hide PollTask;
    if i < PAGE_SIZE {
      if i in snap {
        var n := PollTask(s, page, i, b[i]);
        TurnsChain(n, page, snap, b, i + 1);
        assert Turns(s, page, snap, b, i) == [Turn(i, s)] + Turns(n, page, snap, b, i + 1);
      } else {
        TurnsChain(s, page, snap, b, i + 1);
      }
    }
  }

  /** Some task of `snap` from slot `i` on performs this effect when it is polled. */
  ghost predicate Performed(snap: set<nat>, b: seq<Behaviour>, i: nat, e: Effect)
    requires |b| == PAGE_SIZE
  {
    exists x :: x in snap && i <= x < PAGE_SIZE && e in b[x].effects
  }

  /** The bits of a task that stays, after effects that include these or not. */
  ghost predicate BitsAfter(s: State, t: State, q: nat, j: nat, woken: bool, dropped: bool, done: bool) {
    && Live(s, q, j) && Live(t, q, j)
    && (j in t.pages[q].notified <==> j in s.pages[q].notified || woken)
    && (j in t.pages[q].dropped <==> j in s.pages[q].dropped || dropped)
    && (j in t.pages[q].completed <==> j in s.pages[q].completed || done)
  }

  lemma EffectBits(s: State, e: Effect, q: nat, j: nat)
    requires Inv(s) && Live(s, q, j)
    ensures BitsAfter(s, DoEffect(s, e), q, j, e == Wake(q, j), e == DropHandle(q, j), false)
  {
    assert PageInv(s.slab, s.pages, q);
  }

  lemma {:induction false} EffectsBits(s: State, es: seq<Effect>, q: nat, j: nat)
    requires Inv(s) && Live(s, q, j)
    ensures BitsAfter(s, DoEffects(s, es), q, j, Wake(q, j) in es, DropHandle(q, j) in es, false)
    decreases |es|
  {
    hide Inv, Live, DoEffect;
    if es != [] {
      EffectAdds(s, es[0]);
      EffectBits(s, es[0], q, j);
      EffectsBits(DoEffect(s, es[0]), es[1..], q, j);
      assert es == [es[0]] + es[1..];
    }
  }

  lemma PollTaskBits(s: State, page: nat, slot: nat, b: Behaviour, q: nat, j: nat)
    requires Inv(s) && Live(s, q, j)
    ensures BitsAfter(s, PollTask(s, page, slot, b), q, j, Wake(q, j) in b.effects, DropHandle(q, j) in b.effects,
                      page == q && slot == j && b.ready)
  {
    hide Inv, DoEffects;
    EffectsBits(s, b.effects, q, j);
  }

  lemma {:induction false} ServeBits(s: State, page: nat, snap: set<nat>, b: seq<Behaviour>, i: nat, q: nat, j: nat)
    requires |b| == PAGE_SIZE && 0 < i <= PAGE_SIZE && Inv(s) && Due(s, page, snap, i) && Live(s, q, j)
    requires j < PAGE_SIZE
    ensures BitsAfter(s, Serve(s, page, snap, b, i), q, j,
                      Performed(snap, b, i, Wake(q, j)), Performed(snap, b, i, DropHandle(q, j)),
                      page == q && j in snap && i <= j && b[j].ready)
    decreases PAGE_SIZE - i
  {
    hide Inv, Due, PollTask, Live, Performed;
    if i == PAGE_SIZE {
      NoneLeft(snap, b, Wake(q, j));
      NoneLeft(snap, b, DropHandle(q, j));
    } else {
      OneLeft(snap, b, i, Wake(q, j));
      OneLeft(snap, b, i, DropHandle(q, j));
      if i in snap {
        PollTaskKeeps(s, page, snap, i, b[i]);
        PollTaskBits(s, page, i, b[i], q, j);
        ServeBits(PollTask(s, page, i, b[i]), page, snap, b, i + 1, q, j);
      } else {
        DueLater(s, page, snap, i);
        ServeBits(s, page, snap, b, i + 1, q, j);
      }
    }
  }

  lemma NoneLeft(snap: set<nat>, b: seq<Behaviour>, e: Effect)
    requires |b| == PAGE_SIZE
    ensures !Performed(snap, b, PAGE_SIZE, e)
  {
  }

  lemma OneLeft(snap: set<nat>, b: seq<Behaviour>, i: nat, e: Effect)
    requires |b| == PAGE_SIZE && i < PAGE_SIZE
    ensures Performed(snap, b, i, e) <==> (i in snap && e in b[i].effects) || Performed(snap, b, i + 1, e)
  {
  }

  /** A task the pass polls performs this effect. */
  ghost predicate Does(s: State, b: seq<Behaviour>, e: Effect)
    requires |b| == PAGE_SIZE
  {
    var f := FirstDue(s.pages, 0);
    f < |s.pages| && Performed(Unmasked(s.pages[f]), b, 1, e)
  }

  /** Cleaning touches no bit of a page it does not pass, and no completion of a task that stays. */
  lemma CleanedBits(s: State, q: nat, i: nat)
    requires Inv(s) && Live(s, q, i) && !Reaps(s, q, i)
    ensures var f := FirstDue(s.pages, 0);
            var c := Cleaned(s, 0, f);
            && Live(c, q, i)
            && (i in c.pages[q].notified <==> f <= q && i in s.pages[q].notified)
            && (i in c.pages[q].dropped <==> f <= q && i in s.pages[q].dropped)
            && (i in c.pages[q].completed <==> i in s.pages[q].completed)
  {
    hide Inv, Cleaned, Unmasked;
    var f := FirstDue(s.pages, 0);
    CleanedIs(s, 0, f);
    CleanedTakes(s, 0, f);
    DroppedLive(s);
  }

  lemma {:induction false} CleanedTakes(s: State, page: nat, stop: nat)
    requires Inv(s) && page <= stop <= |s.pages|
    ensures var t := Cleaned(s, page, stop);
            forall q :: page <= q < stop ==> t.pages[q].notified == {} && t.pages[q].completed <= s.pages[q].completed
    decreases stop - page
  {
    hide Inv;
    if page < stop {
      var r := Reap(Swap(s, page), page, s.pages[page].dropped);
      ReapKeeps(s, page);
      CleanedTakes(r, page + 1, stop);
      CleanedIs(r, page + 1, stop);
      hide Cleaned, Reap, Swap;
      var t := Cleaned(r, page + 1, stop);
      forall q | page < q < stop ensures t.pages[q].notified == {} && t.pages[q].completed <= s.pages[q].completed {
        assert r.pages[q] == s.pages[q];
      }
    }
  }

  /**
   * What a pass leaves of a task that it does not remove. Its notification is there exactly if its page
   * lies above the served one and it was there before, or a polled task woke it; the mark of its handle
   * likewise; and it is finished exactly if it was before, or the pass polled it and it returned ready.
   */
  lemma PassBits(s: State, b: seq<Behaviour>, q: nat, i: nat)
    requires Inv(s) && |b| == PAGE_SIZE && Live(s, q, i) && !Reaps(s, q, i)
    ensures var f, t := FirstDue(s.pages, 0), PollFrom(s, 0, b);
            && i < PAGE_SIZE && Live(t, q, i)
            && (i in t.pages[q].notified <==> (f < q && i in s.pages[q].notified) || Does(s, b, Wake(q, i)))
            && (i in t.pages[q].dropped <==> (f < q && i in s.pages[q].dropped) || Does(s, b, DropHandle(q, i)))
            && (i in t.pages[q].completed <==>
                  i in s.pages[q].completed || (q == f && i in Unmasked(s.pages[q]) && i != 0 && b[i].ready))
  {
    SlotFits(s, i);
    hide Inv, Unmasked, Serve, Cleaned, PollFrom, Reaps, Performed;
    var f := FirstDue(s.pages, 0);
    var c := Cleaned(s, 0, f);
    CleanedIs(s, 0, f);
    CleanedBits(s, q, i);
    PollIs(s, 0, b);
    if f < |s.pages| {
      SwapKeeps(c, f);
      ServeBits(Swap(c, f), f, Unmasked(s.pages[f]), b, 1, q, i);
    }
  }

  lemma SlotFits(s: State, i: nat)
    requires Inv(s) && i in s.slab
    ensures i < PAGE_SIZE
  {
  }

  /** A task that came to life on the way: it is notified and not finished. */
  ghost predicate Newborn(s: State, t: State, j: nat) {
    && j !in s.slab && j in t.slab && t.slab[j] < |t.pages|
    && j in t.pages[t.slab[j]].notified && j !in t.pages[t.slab[j]].completed
  }

  lemma EffectSlab(s: State, e: Effect, j: nat)
    requires Inv(s) && j < PAGE_SIZE
    ensures var t := DoEffect(s, e);
            if j in s.slab then j in t.slab && t.slab[j] == s.slab[j]
            else if e.Spawn? && e.slot == j then Newborn(s, t, j) && t.slab[j] == e.page
            else j !in t.slab
  {
  }

  lemma {:induction false} EffectsSlab(s: State, es: seq<Effect>, j: nat)
    requires Inv(s) && j < PAGE_SIZE && j !in s.slab
    ensures var t := DoEffects(s, es);
            && (j in t.slab ==> Newborn(s, t, j) && Spawn(j, t.slab[j]) in es)
            && (forall p :: Spawn(j, p) in es ==> j in t.slab)
    decreases |es|
  {
    hide Inv, DoEffect, Newborn;
    if es != [] {
      var n := DoEffect(s, es[0]);
      assert es == [es[0]] + es[1..];
      EffectAdds(s, es[0]);
      EffectSlab(s, es[0], j);
      if j in n.slab {
        Grown(s, n, j);
        EffectsBits(n, es[1..], n.slab[j], j);
        StillNew(s, n, DoEffects(n, es[1..]), j);
      } else {
        EffectsSlab(n, es[1..], j);
        SameNew(s, n, DoEffects(n, es[1..]), j);
      }
    }
  }

  lemma Grown(s: State, t: State, j: nat)
    requires Newborn(s, t, j)
    ensures j in t.slab && Live(t, t.slab[j], j)
  {
  }

  lemma StillNew(s: State, n: State, t: State, j: nat)
    requires Newborn(s, n, j) && Live(t, n.slab[j], j)
    requires j in t.pages[n.slab[j]].notified && j !in t.pages[n.slab[j]].completed
    ensures Newborn(s, t, j) && t.slab[j] == n.slab[j]
  {
  }

  lemma SameNew(s: State, n: State, t: State, j: nat)
    requires j !in s.slab && (j in t.slab ==> Newborn(n, t, j))
    ensures j in t.slab ==> Newborn(s, t, j)
  {
  }

  lemma PollTaskSlab(s: State, page: nat, slot: nat, b: Behaviour, j: nat)
    requires Inv(s) && j < PAGE_SIZE && j !in s.slab && slot in s.slab
    ensures var t := PollTask(s, page, slot, b);
            && (j in t.slab ==> Newborn(s, t, j) && Spawn(j, t.slab[j]) in b.effects)
            && (forall p :: Spawn(j, p) in b.effects ==> j in t.slab)
  {
    hide Inv, DoEffects;
    EffectsSlab(s, b.effects, j);
  }

  /** A free slot is taken exactly if some polled task spawns into it, and then by such a task. */
  lemma {:induction false} ServeSlab(s: State, page: nat, snap: set<nat>, b: seq<Behaviour>, i: nat, j: nat)
    requires |b| == PAGE_SIZE && 0 < i <= PAGE_SIZE && Inv(s) && Due(s, page, snap, i)
    requires j < PAGE_SIZE && j !in s.slab
    ensures var t := Serve(s, page, snap, b, i);
            && (j in t.slab ==> Newborn(s, t, j) && Performed(snap, b, i, Spawn(j, t.slab[j])))
            && (forall p :: Performed(snap, b, i, Spawn(j, p)) ==> j in t.slab)
    decreases PAGE_SIZE - i
  {
    hide Inv, Due, PollTask, Newborn, Performed;
    var t := Serve(s, page, snap, b, i);
    if i == PAGE_SIZE {
      forall p ensures !Performed(snap, b, i, Spawn(j, p)) { NoneLeft(snap, b, Spawn(j, p)); }
    } else {
      forall p
        ensures Performed(snap, b, i, Spawn(j, p)) <==>
                (i in snap && Spawn(j, p) in b[i].effects) || Performed(snap, b, i + 1, Spawn(j, p))
      {
        OneLeft(snap, b, i, Spawn(j, p));
      }
      if i in snap {
        var n := PollTask(s, page, i, b[i]);
        PollTaskKeeps(s, page, snap, i, b[i]);
        DueLive(s, page, snap, i, i);
        PollTaskSlab(s, page, i, b[i], j);
        if j in n.slab {
          Grown(s, n, j);
          if i < j && j in snap { DueLive(s, page, snap, i, j); }
          ServeBits(n, page, snap, b, i + 1, n.slab[j], j);
          StillNewborn(s, n, t, j);
        } else {
          ServeSlab(n, page, snap, b, i + 1, j);
          SameNew(s, n, t, j);
        }
      } else {
        DueLater(s, page, snap, i);
        ServeSlab(s, page, snap, b, i + 1, j);
      }
    }
  }

  lemma StillNewborn(s: State, n: State, t: State, j: nat)
    requires Newborn(s, n, j) && exists w, d :: BitsAfter(n, t, n.slab[j], j, w, d, false)
    ensures Newborn(s, t, j) && t.slab[j] == n.slab[j]
  {
  }

  lemma DueLive(s: State, page: nat, snap: set<nat>, i: nat, j: nat)
    requires Due(s, page, snap, i) && j in snap && j >= i
    ensures j in s.slab
  {
  }

  /**
   * Which slots are taken after a pass: those that were, unless the task was removed, and those a polled
   * task spawned into. A task that stays keeps its page; a new one has the page it was spawned for, is
   * notified and not finished.
   */
  lemma PassSlab(s: State, b: seq<Behaviour>, i: nat)
    requires Inv(s) && |b| == PAGE_SIZE && i < PAGE_SIZE
    ensures var t := PollFrom(s, 0, b);
            if i in s.slab && !Reaps(s, s.slab[i], i) then i in t.slab && t.slab[i] == s.slab[i]
            else
              && (i in t.slab ==> Does(s, b, Spawn(i, t.slab[i])) && t.slab[i] < |t.pages|
                                  && i in t.pages[t.slab[i]].notified && i !in t.pages[t.slab[i]].completed)
              && (forall p :: Does(s, b, Spawn(i, p)) ==> i in t.slab)
  {
    hide Unmasked, Serve, Cleaned, PollFrom, Performed, PageInv, Swap;
    var f := FirstDue(s.pages, 0);
    var c := Cleaned(s, 0, f);
    if i in s.slab && !Reaps(s, s.slab[i], i) {
      PassBits(s, b, s.slab[i], i);
    } else {
      DroppedLive(s);
      CleanedIs(s, 0, f);
      PollIs(s, 0, b);
      if f < |s.pages| {
        SwapKeeps(c, f);
        SwapPages(c, f);
        ServeSlab(Swap(c, f), f, Unmasked(s.pages[f]), b, 1, i);
      }
    }
  }

  // ---------------------------------------------------------------------------
  // Runs
  // ---------------------------------------------------------------------------

  datatype Step =
    | StepInsert(slot: nat, page: nat)
    | StepWake(page: nat, slot: nat)
    | StepDrop(page: nat, slot: nat)
    | StepTake(page: nat, slot: nat)
    | StepPoll(behaviours: seq<Behaviour>)

  /** Wakers and handles are only used while their task is there. */
  predicate Enabled(s: State, e: Step) {
    match e
    case StepInsert(slot, _) => CanInsert(s, slot)
    case StepWake(page, slot) => Live(s, page, slot)
    case StepDrop(page, slot) => Live(s, page, slot)
    case StepTake(page, slot) => CanTake(s, page, slot)
    case StepPoll(b) => |b| == PAGE_SIZE
  }

  function Apply(s: State, e: Step): State
    requires Enabled(s, e)
  {
    match e
    case StepInsert(slot, page) => Insert(s, slot, page)
    case StepWake(page, slot) => Notify(s, page, slot)
    case StepDrop(page, slot) => MarkDropped(s, page, slot)
    case StepTake(page, slot) => Take(s, page, slot)
    case StepPoll(b) => PollFrom(s, 0, b)
  }

  function Run(s: State, steps: seq<Step>): Option<State>
    decreases |steps|
  {
    if steps == [] then Some(s)
    else if Enabled(s, steps[0]) then Run(Apply(s, steps[0]), steps[1..])
    else None
  }

  /** Outside passes a bit changes only by the call that names it. */
  lemma StepBits(s: State, e: Step, q: nat, i: nat)
    requires Inv(s) && Enabled(s, e) && !e.StepPoll? && Live(s, q, i) && e != StepTake(q, i)
    ensures BitsAfter(s, Apply(s, e), q, i, e == StepWake(q, i), e == StepDrop(q, i), false)
  {
    assert PageInv(s.slab, s.pages, q);
  }

  /** A slot is taken by an insertion, freed by taking its task, and otherwise as it was. */
  lemma StepSlab(s: State, e: Step, i: nat)
    requires Inv(s) && Enabled(s, e) && !e.StepPoll?
    ensures var t := Apply(s, e);
            match e
            case StepInsert(slot, page) =>
              if i == slot then Newborn(s, t, i) && t.slab[i] == page && i !in t.pages[page].dropped
              else (i in t.slab <==> i in s.slab) && (i in s.slab ==> t.slab[i] == s.slab[i])
            case StepTake(page, slot) =>
              if i == slot then i in s.slab && i !in t.slab
              else (i in t.slab <==> i in s.slab) && (i in s.slab ==> t.slab[i] == s.slab[i])
            case _ => t.slab == s.slab
  {
  }

  lemma ApplyKeeps(s: State, e: Step)
    requires Inv(s) && Enabled(s, e)
    ensures Inv(Apply(s, e))
  {
    hide Inv, Insert, Notify, MarkDropped, Take, PollFrom;
    match e
    case StepInsert(slot, page) => InsertKeeps(s, slot, page);
    case StepWake(page, slot) => BitKeeps(s, page, slot);
    case StepDrop(page, slot) => BitKeeps(s, page, slot);
    case StepTake(page, slot) => TakeKeeps(s, page, slot);
    case StepPoll(b) => PollServes(s, b);
  }

  /** In every run, the next pass only looks up tasks that are there and not finished. */
  lemma {:induction false} RunIsSafe(s: State, steps: seq<Step>, b: seq<Behaviour>)
    requires Inv(s) && |b| == PAGE_SIZE
    ensures Run(s, steps).Some? ==>
              var t := Run(s, steps).value;
              && Inv(t)
              && forall k :: 0 <= k < |PassTurns(t, b)| ==>
                   var turn, f := PassTurns(t, b)[k], FirstDue(t.pages, 0);
                   && Live(turn.before, f, turn.slot) && turn.slot != 0
                   && turn.slot !in turn.before.pages[f].completed
    decreases |steps|
  {
    hide Inv, Apply, Enabled, PassTurns, Unmasked;
    if steps == [] {
      PollServes(s, b);
    } else if Enabled(s, steps[0]) {
      ApplyKeeps(s, steps[0]);
      RunIsSafe(Apply(s, steps[0]), steps[1..], b);
    }
  }

  /** No pass of the run gets as far as page `q`, and the task is not taken. */
  ghost predicate StaysBelow(s: State, steps: seq<Step>, q: nat, i: nat)
    decreases |steps|
  {
    steps != [] && Enabled(s, steps[0]) ==>
      && steps[0] != StepTake(q, i)
      && (steps[0].StepPoll? ==> FirstDue(s.pages, 0) < q)
      && StaysBelow(Apply(s, steps[0]), steps[1..], q, i)
  }

  lemma StepWaits(s: State, e: Step, q: nat, i: nat)
    requires Inv(s) && Enabled(s, e) && Waiting(s, q, i) && !e.StepPoll? && e != StepTake(q, i)
    ensures Waiting(Apply(s, e), q, i)
    ensures e != StepDrop(q, i) && i !in s.pages[q].dropped ==> i !in Apply(s, e).pages[q].dropped
  {
    hide PageInv;
  }

  /** A notification survives, dropped handle or not, every run whose passes all end in lower pages. */
  lemma {:induction false} WaitsBelow(s: State, steps: seq<Step>, q: nat, i: nat)
    requires Inv(s) && Waiting(s, q, i) && StaysBelow(s, steps, q, i)
    ensures Run(s, steps).Some? ==> Waiting(Run(s, steps).value, q, i)
    decreases |steps|
  {
    hide Inv, Waiting, Apply, Enabled;
    if steps != [] && Enabled(s, steps[0]) {
      ApplyKeeps(s, steps[0]);
      if steps[0].StepPoll? {
        PollIsPass(s, steps[0]);
        PassBelow(s, steps[0].behaviours, q, i);
      } else {
        StepWaits(s, steps[0], q, i);
      }
      WaitsBelow(Apply(s, steps[0]), steps[1..], q, i);
    }
  }

  lemma PollIsPass(s: State, e: Step)
    requires Enabled(s, e) && e.StepPoll?
    ensures |e.behaviours| == PAGE_SIZE && Apply(s, e) == PollFrom(s, 0, e.behaviours)
  {
  }

  /** Nothing in the run takes the task or drops its handle. */
  ghost predicate Spares(e: Step, q: nat, i: nat) {
    e != StepTake(q, i) && e != StepDrop(q, i) && (e.StepPoll? ==> AllKeepHandle(e.behaviours, q, i))
  }

  /** Some pass of the run polls the task. */
  ghost predicate PolledIn(s: State, steps: seq<Step>, q: nat, i: nat)
    decreases |steps|
  {
    && steps != [] && Enabled(s, steps[0])
    && (|| (steps[0].StepPoll? && Polls(s, steps[0].behaviours, q, i))
        || PolledIn(Apply(s, steps[0]), steps[1..], q, i))
  }

  /**
   * A notification survives until it is served: in every run that neither takes the task nor drops
   * its handle, some pass polls the task or it is still waiting at the end.
   */
  lemma {:induction false} NotificationSurvives(s: State, steps: seq<Step>, q: nat, i: nat)
    requires Inv(s) && Waiting(s, q, i) && i !in s.pages[q].dropped && i != 0
    requires forall k :: 0 <= k < |steps| ==> Spares(steps[k], q, i)
    ensures Run(s, steps).Some? ==>
              || PolledIn(s, steps, q, i)
              || (Waiting(Run(s, steps).value, q, i) && i !in Run(s, steps).value.pages[q].dropped)
    decreases |steps|
  {
    hide Inv, Apply, Enabled, Polls;
    if steps != [] && Enabled(s, steps[0]) {
      var e := steps[0];
      ApplyKeeps(s, e);
      assert Spares(e, q, i);
      if e.StepPoll? {
        PollIsPass(s, e);
        PassReaches(s, e.behaviours, q, i);
        if FirstDue(s.pages, 0) < q {
          PassBelow(s, e.behaviours, q, i);
          PassMark(s, e.behaviours, q, i);
        }
      } else {
        StepWaits(s, e, q, i);
      }
      if !PolledIn(s, steps, q, i) {
        forall k | 0 <= k < |steps[1..]| ensures Spares(steps[1..][k], q, i) { assert steps[1..][k] == steps[k + 1]; }
        NotificationSurvives(Apply(s, e), steps[1..], q, i);
      }
    }
  }

  lemma StepKeepsMark(s: State, e: Step, q: nat, i: nat)
    requires Inv(s) && Enabled(s, e) && Live(s, q, i) && i !in s.pages[q].dropped
    requires !e.StepPoll? && e != StepTake(q, i) && e != StepDrop(q, i)
    ensures Live(Apply(s, e), q, i) && i !in Apply(s, e).pages[q].dropped
  {
    hide PageInv;
  }

  /**
   * A task without a mark stays in the slab, unmarked, through every run that neither takes it nor
   * drops its handle. Once a drop was lost there is no handle left to do either: the slot is lost too.
   */
  lemma {:induction false} UnmarkedStays(s: State, steps: seq<Step>, q: nat, i: nat)
    requires Inv(s) && Live(s, q, i) && i !in s.pages[q].dropped
    requires forall k :: 0 <= k < |steps| ==> Spares(steps[k], q, i)
    ensures Run(s, steps).Some? ==>
              Live(Run(s, steps).value, q, i) && i !in Run(s, steps).value.pages[q].dropped
    decreases |steps|
  {
    hide Inv, Apply, Enabled, Live;
    if steps != [] && Enabled(s, steps[0]) {
      var e := steps[0];
      ApplyKeeps(s, e);
      assert Spares(e, q, i);
      if e.StepPoll? {
        PollIsPass(s, e);
        PassMark(s, e.behaviours, q, i);
      } else {
        StepKeepsMark(s, e, q, i);
      }
      forall k | 0 <= k < |steps[1..]| ensures Spares(steps[1..][k], q, i) { assert steps[1..][k] == steps[k + 1]; }
      UnmarkedStays(Apply(s, e), steps[1..], q, i);
    }
  }

  /** A drop that a pass loses keeps the slot occupied in every run that goes on without that handle. */
  lemma LostDropLeaks(s: State, b: seq<Behaviour>, steps: seq<Step>, q: nat, i: nat)
    requires Inv(s) && |b| == PAGE_SIZE && q < |s.pages| && i in s.pages[q].dropped && AllKeepHandle(b, q, i)
    requires q == FirstDue(s.pages, 0) || (q < FirstDue(s.pages, 0) && i == 0)
    requires forall k :: 0 <= k < |steps| ==> Spares(steps[k], q, i)
    ensures Run(s, [StepPoll(b)] + steps).Some? ==> Live(Run(s, [StepPoll(b)] + steps).value, q, i)
  {
    hide Inv, Live, PollFrom, Unmasked;
    DropFate(s, b, q, i);
    ApplyKeeps(s, StepPoll(b));
    assert ([StepPoll(b)] + steps)[1..] == steps;
    UnmarkedStays(PollFrom(s, 0, b), steps, q, i);
  }

  /** Two tasks of one page, the handle of the second dropped while the first is notified: the drop is lost. */
  lemma DropIsLost(b: seq<Behaviour>)
    requires |b| == PAGE_SIZE && AllKeepHandle(b, 0, 2)
    ensures var s := Run(State(map[], []), [StepInsert(1, 0), StepInsert(2, 0), StepDrop(0, 2)]);
            && s.Some? && 2 in s.value.pages[0].dropped
            && Live(PollFrom(s.value, 0, b), 0, 2) && 2 !in PollFrom(s.value, 0, b).pages[0].dropped
  {
    hide PollFrom;
    var e0 := State(map[], []);
    var e1 := Insert(e0, 1, 0);
    var e2 := Insert(e1, 2, 0);
    var e3 := MarkDropped(e2, 0, 2);
    var steps := [StepInsert(1, 0), StepInsert(2, 0), StepDrop(0, 2)];
    assert e1.pages[0].notified == {1} && e1.pages[0].dropped == {};
    assert 1 in e3.pages[0].notified && 1 !in e3.pages[0].dropped && 2 in e3.pages[0].dropped;
    assert Run(e0, steps) == Some(e3) by {
      assert Run(e2, [StepDrop(0, 2)]) == Some(e3);
      assert steps[1..][1..] == [StepDrop(0, 2)];
    }
    InsertKeeps(e0, 1, 0);
    InsertKeeps(e1, 2, 0);
    BitKeeps(e2, 0, 2);
    assert 1 in Unmasked(e3.pages[0]);
    DropFate(e3, b, 0, 2);
  }

  /** A single task in slot zero whose handle is dropped: its page is passed, and the drop is lost. */
  lemma ZeroDropIsLost(b: seq<Behaviour>)
    requires |b| == PAGE_SIZE && AllKeepHandle(b, 0, 0)
    ensures var s := Run(State(map[], []), [StepInsert(0, 0), StepDrop(0, 0)]);
            && s.Some? && 0 in s.value.pages[0].dropped
            && Live(PollFrom(s.value, 0, b), 0, 0) && 0 !in PollFrom(s.value, 0, b).pages[0].dropped
  {
    hide PollFrom;
    var e0 := State(map[], []);
    var e1 := Insert(e0, 0, 0);
    var e2 := MarkDropped(e1, 0, 0);
    var steps := [StepInsert(0, 0), StepDrop(0, 0)];
    assert Run(e0, steps) == Some(e2) by {
      assert steps[1..] == [StepDrop(0, 0)];
    }
    InsertKeeps(e0, 0, 0);
    BitKeeps(e1, 0, 0);
    assert Grow([], 0) == [EmptyPage()] && Unmasked(e2.pages[0]) == {};
    assert FirstDue(e2.pages, 0) == 1;
    DropFate(e2, b, 0, 0);
  }

  /** Some step of the run removes the task: it is taken, or a pass finds its handle dropped. */
  ghost predicate LeavesIn(s: State, steps: seq<Step>, q: nat, i: nat)
    decreases |steps|
  {
    && steps != [] && Enabled(s, steps[0])
    && (|| steps[0] == StepTake(q, i)
        || (steps[0].StepPoll? && Reaps(s, q, i))
        || LeavesIn(Apply(s, steps[0]), steps[1..], q, i))
  }

  lemma StepFinished(s: State, e: Step, q: nat, i: nat)
    requires Inv(s) && Enabled(s, e) && Finished(s, q, i) && !e.StepPoll? && e != StepTake(q, i)
    ensures Finished(Apply(s, e), q, i)
  {
    hide PageInv;
  }

  /** As long as a finished task is in the slab it stays finished, and no pass polls it again. */
  lemma {:induction false} FinishedForGood(s: State, steps: seq<Step>, q: nat, i: nat)
    requires Inv(s) && Finished(s, q, i) && !LeavesIn(s, steps, q, i)
    ensures Run(s, steps).Some? ==> Finished(Run(s, steps).value, q, i)
    ensures !PolledIn(s, steps, q, i)
    decreases |steps|
  {
    hide Inv, Apply, Enabled, Polls, Finished, Reaps;
    if steps != [] && Enabled(s, steps[0]) {
      var e := steps[0];
      ApplyKeeps(s, e);
      if e.StepPoll? {
        PollIsPass(s, e);
        PassFinished(s, e.behaviours, q, i);
      } else {
        StepFinished(s, e, q, i);
      }
      FinishedForGood(Apply(s, e), steps[1..], q, i);
    }
  }
}

/** The scheduler object: the slab and the pages, changed in place. */
module SchedulerObject {
  import opened Scheduler

  class Executor {
    var slab: map<nat, nat>
    var pages: seq<Page>

    ghost function View(): State
      reads this
    {
      State(slab, pages)
    }

    constructor ()
      ensures View() == State(map[], []) && Inv(View())
    {
      slab := map[];
      pages := [];
    }

    /** Put a task into a page; `slot` is the vacant slot the slab chose. */
    method InsertPage(slot: nat, page: nat) returns (key: nat)
      requires Inv(View()) && CanInsert(View(), slot)
      modifies this
      ensures Inv(View()) && View() == Insert(old(View()), slot, page)
      ensures key == slot + page * PAGE_SIZE
    {
      hide Inv;
      InsertKeeps(View(), slot, page);
      slab := slab[slot := page];
      key := slot + page * PAGE_SIZE;
      while key >= |pages| * PAGE_SIZE
        invariant Grow(pages, page) == Grow(old(pages), page) && slab == old(slab)[slot := page]
        decreases page + 1 - |pages|
      {
        pages := pages + [EmptyPage()];
      }
      assert |pages| > page;
      var p := pages[page];
      pages := pages[page := Page(p.notified + {slot}, p.completed - {slot}, p.dropped - {slot})];
    }

    method TakeTask(page: nat, slot: nat)
      requires Inv(View()) && CanTake(View(), page, slot)
      modifies this
      ensures Inv(View()) && View() == Take(old(View()), page, slot)
    {
      hide Inv;
      TakeKeeps(View(), page, slot);
      pages := pages[page := ClearSlot(pages[page], slot)];
      slab := slab - {slot};
    }

    /** What a task does while it is polled. */
    method Perform(effects: seq<Effect>)
      requires Inv(View())
      modifies this
      ensures Inv(View()) && View() == DoEffects(old(View()), effects)
    {
      hide Inv;
      EffectsAdd(View(), effects);
      assert effects[0..] == effects;
      for k := 0 to |effects|
        invariant DoEffects(View(), effects[k..]) == DoEffects(old(View()), effects)
      {
        assert effects[k..][1..] == effects[k + 1..];
        match effects[k] {
          case Wake(page, slot) =>
            if slot in slab && slab[slot] == page && page < |pages| {
              pages := pages[page := pages[page].(notified := pages[page].notified + {slot})];
            }
          case Spawn(slot, page) =>
            if slot < PAGE_SIZE && slot !in slab {
              slab := slab[slot := page];
              var grown := Grow(pages, page);
              var p := grown[page];
              pages := grown[page := Page(p.notified + {slot}, p.completed - {slot}, p.dropped - {slot})];
            }
          case DropHandle(page, slot) =>
            if slot in slab && slab[slot] == page && page < |pages| {
              pages := pages[page := pages[page].(dropped := pages[page].dropped + {slot})];
            }
        }
      }
      assert effects[|effects|..] == [];
    }

    /** Poll the tasks of one page; every slot that is looked up is occupied. */
    method ServePage(page: nat, snap: set<nat>, b: seq<Behaviour>)
      requires |b| == PAGE_SIZE && Inv(View()) && Due(View(), page, snap, 1)
      modifies this
      ensures Inv(View()) && View() == Serve(old(View()), page, snap, b, 1)
    {
      hide Inv, DoEffects, Due, PollTask;
      ghost var s := View();
      var i := 1;
      while i < PAGE_SIZE
        invariant 1 <= i <= PAGE_SIZE && Inv(View()) && Due(View(), page, snap, i)
        invariant Serve(View(), page, snap, b, i) == Serve(s, page, snap, b, 1)
      {
        if i in snap {
          PollTaskKeeps(View(), page, snap, i, b[i]);
          DueNow(View(), page, snap, i);
          assert i in slab;
          ghost var before := View();
          Perform(b[i].effects);
          PollTaskIs(before, page, i, b[i]);
          if b[i].ready && page < |pages| {
            pages := pages[page := pages[page].(completed := pages[page].completed + {i})];
          }
          assert View() == PollTask(before, page, i, b[i]);
        } else {
          DueLater(View(), page, snap, i);
        }
        i := i + 1;
      }
    }

    /** One pass over the pages. */
    method Poll(b: seq<Behaviour>)
      requires |b| == PAGE_SIZE && Inv(View())
      modifies this
      ensures Inv(View()) && View() == PollFrom(old(View()), 0, b)
    {
      hide Inv, Serve, Due;
      ghost var s := View();
      PollServes(s, b);
      var count := |pages|;
      var page := 0;
      while page < count
        invariant 0 <= page <= count == |pages| && Inv(View())
        invariant PollFrom(View(), page, b) == PollFrom(s, 0, b)
      {
        var was := pages[page];
        var snap, dropped := was.notified - was.completed - was.dropped, was.dropped;
        SwapKeeps(View(), page);
        ReapKeeps(View(), page);
        ghost var before := View();
        pages := pages[page := Page({}, was.completed, {})];
        assert View() == Swap(before, page);
        if snap != {} {
          ServePage(page, snap, b);
          return;
        }
        var gone := dropped - {0};
        slab := slab - gone;
        var p := pages[page];
        pages := pages[page := Page(p.notified - gone, p.completed - gone, p.dropped - gone)];
        assert View() == Reap(Swap(before, page), page, dropped);
        page := page + 1;
      }
    }
  }

  lemma DueNow(s: State, page: nat, snap: set<nat>, i: nat)
    requires Due(s, page, snap, i) && i in snap
    ensures i in s.slab && s.slab[i] == page
  {
  }

  lemma PollTaskIs(s: State, page: nat, slot: nat, b: Behaviour)
    ensures var t := DoEffects(s, b.effects);
            PollTask(s, page, slot, b) == if b.ready && page < |t.pages| then MarkCompleted(t, page, slot) else t
  {
  }
}
