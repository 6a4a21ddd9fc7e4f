/** Timers: futures that wait for a time, and the heap of those that are waiting. */
module Timer {
  import opened Common

  datatype PollState = Unregistered | Registered | Expired

  /** A waiting future; `done` is set once it has reported that it is ready. */
  datatype Future = Future(expiry: nat, task: Option<nat>, state: PollState, done: bool)

  datatype State = State(now: nat, heap: set<nat>, futures: map<nat, Future>)

  datatype Answer = Ready | Pending

  // ---------------------------------------------------------------------------
  // Operations
  // ---------------------------------------------------------------------------

  predicate CanWait(s: State, id: nat) {
    id !in s.futures
  }

  function WaitUntil(s: State, id: nat, expiry: nat): State
    requires CanWait(s, id)
  {
    s.(futures := s.futures[id := Future(expiry, None, Unregistered, false)])
  }

  /** A future must not be polled again after it was ready. */
  predicate CanPoll(s: State, id: nat) {
    id in s.futures && !s.futures[id].done
  }

  function Poll(s: State, id: nat, waker: nat): (State, Answer)
    requires CanPoll(s, id)
  {
    var f := s.futures[id];
    match f.state
    case Unregistered =>
      if s.now >= f.expiry then
        (s.(futures := s.futures[id := f.(state := Expired, done := true)]), Ready)
      else
        (s.(futures := s.futures[id := f.(task := Some(waker), state := Registered)], heap := s.heap + {id}), Pending)
    case Registered =>
      (s.(futures := s.futures[id := f.(task := Some(waker))]), Pending)
    case Expired =>
      (s.(futures := s.futures[id := f.(done := true)]), Ready)
  }

  /** A future that goes away leaves the heap if it was in it. */
  function Drop(s: State, id: nat): State
    requires id in s.futures
  {
    State(s.now,
          if !s.futures[id].done && s.futures[id].state == Registered then s.heap - {id} else s.heap,
          s.futures - {id})
  }

  /** Whether a waiting future is due at a time. */
  predicate Due(s: State, id: nat, now: nat) {
    id in s.heap && id in s.futures && s.futures[id].expiry <= now
  }

  /** The clock moves on: every waiting future that is due expires and loses its waker. */
  function Advance(s: State, now: nat): State {
    State(now,
          set id | id in s.heap && !Due(s, id, now),
          map id | id in s.futures ::
            if Due(s, id, now) then s.futures[id].(state := Expired, task := None) else s.futures[id])
  }

  // ---------------------------------------------------------------------------
  // The invariant
  // ---------------------------------------------------------------------------

  /** What a future looks like in each state. */
  predicate FutureInv(s: State, id: nat)
    requires id in s.futures
  {
    var f := s.futures[id];
    && (id in s.heap <==> f.state == Registered)
    && (f.state == Registered ==> f.task.Some? && s.now < f.expiry && !f.done)
    && (f.state == Expired ==> f.expiry <= s.now)
    && (f.state == Unregistered ==> f.task.None? && !f.done)
  }

  ghost predicate Inv(s: State) {
    && (forall id :: id in s.heap ==> id in s.futures)
    && (forall id :: id in s.futures ==> FutureInv(s, id))
  }

  lemma WaitKeeps(s: State, id: nat, expiry: nat)
    requires Inv(s) && CanWait(s, id)
    ensures var t := WaitUntil(s, id, expiry);
            && Inv(t) && CanPoll(t, id) && t.futures[id].expiry == expiry && t.now == s.now
            && (forall k :: k in s.futures ==> k in t.futures && t.futures[k] == s.futures[k])
  {
    var t := WaitUntil(s, id, expiry);
    forall k | k in t.futures ensures FutureInv(t, k) { if k != id { assert FutureInv(s, k); } }
  }

  /** Polling tells the time: a future is ready exactly when its expiry has been reached. */
  lemma PollKeeps(s: State, id: nat, waker: nat)
    requires Inv(s) && CanPoll(s, id)
    ensures var (t, answer) := Poll(s, id, waker);
            && Inv(t) && id in t.futures
            && (answer == Ready <==> s.now >= s.futures[id].expiry)
            && (answer == Ready <==> t.futures[id].done)
            && (answer == Pending ==> id in t.heap && t.futures[id].task == Some(waker))
            && t.now == s.now && t.futures[id].expiry == s.futures[id].expiry
            && (forall k :: k in s.futures && k != id ==> k in t.futures && t.futures[k] == s.futures[k])
  {
    assert FutureInv(s, id);
    var t := Poll(s, id, waker).0;
    forall k | k in t.futures ensures FutureInv(t, k) { assert FutureInv(s, k); }
  }

  lemma DropKeeps(s: State, id: nat)
    requires Inv(s) && id in s.futures
    ensures var t := Drop(s, id);
            && Inv(t) && id !in t.heap && id !in t.futures && t.now == s.now
            && (forall k :: k in s.futures && k != id ==> k in t.futures && t.futures[k] == s.futures[k])
  {
    assert FutureInv(s, id);
    var t := Drop(s, id);
    forall k | k in t.futures ensures FutureInv(t, k) { assert FutureInv(s, k); }
  }

  lemma AdvanceKeeps(s: State, now: nat)
    requires Inv(s) && s.now <= now
    ensures var t := Advance(s, now);
            && Inv(t) && t.now == now && t.futures.Keys == s.futures.Keys
            && (forall k :: k in s.futures ==>
                  t.futures[k].expiry == s.futures[k].expiry && t.futures[k].done == s.futures[k].done)
  {
    var t := Advance(s, now);
    forall k | k in t.futures ensures FutureInv(t, k) { assert FutureInv(s, k); }
  }

  // ---------------------------------------------------------------------------
  // Runs
  // ---------------------------------------------------------------------------

  datatype Step =
    | StepWait(id: nat, expiry: nat)
    | StepPoll(id: nat, waker: nat)
    | StepDrop(id: nat)
    | StepAdvance(now: nat)

  predicate Enabled(s: State, e: Step) {
    match e
    case StepWait(id, _) => CanWait(s, id)
    case StepPoll(id, _) => CanPoll(s, id)
    case StepDrop(id) => id in s.futures
    case StepAdvance(now) => s.now <= now
  }

  function Apply(s: State, e: Step): State
    requires Enabled(s, e)
  {
    match e
    case StepWait(id, expiry) => WaitUntil(s, id, expiry)
    case StepPoll(id, waker) => Poll(s, id, waker).0
    case StepDrop(id) => Drop(s, id)
    case StepAdvance(now) => Advance(s, now)
  }

  function Run(s: State, steps: seq<Step>): Option<State>
    decreases |steps|
  {
    if steps == [] then Some(s)
    else if Enabled(s, steps[0]) then Run(Apply(s, steps[0]), steps[1..])
    else None
  }

  /** In every run the heap holds exactly the futures that wait, and polling tells the time. */
  lemma {:induction false} RunTellsTime(s: State, steps: seq<Step>, id: nat, waker: nat)
    requires Inv(s)
    ensures Run(s, steps).Some? ==>
              var t := Run(s, steps).value;
              && Inv(t)
              && (CanPoll(t, id) ==> (Poll(t, id, waker).1 == Ready <==> t.now >= t.futures[id].expiry))
              && (id in t.heap <==> id in t.futures && t.futures[id].state == Registered)
    decreases |steps|
  {
    hide Poll, WaitUntil, Drop, Advance;
    if steps == [] {
      if id in s.futures { assert FutureInv(s, id); }
      if CanPoll(s, id) { PollKeeps(s, id, waker); }
    } else if Enabled(s, steps[0]) {
      match steps[0] {
        case StepWait(i, expiry) => WaitKeeps(s, i, expiry);
        case StepPoll(i, w) => PollKeeps(s, i, w);
        case StepDrop(i) => DropKeeps(s, i);
        case StepAdvance(now) => AdvanceKeeps(s, now);
      }
      RunTellsTime(Apply(s, steps[0]), steps[1..], id, waker);
    }
  }

  /** No step but its own drop changes when a future expires. */
  lemma {:induction false} ExpiryStays(s: State, steps: seq<Step>, id: nat)
    requires Inv(s) && id in s.futures && forall k :: 0 <= k < |steps| ==> steps[k] != StepDrop(id)
    ensures Run(s, steps).Some? ==>
              id in Run(s, steps).value.futures && Run(s, steps).value.futures[id].expiry == s.futures[id].expiry
    decreases |steps|
  {
    hide Poll, WaitUntil, Drop, Advance, Inv;
    if steps != [] && Enabled(s, steps[0]) {
      assert steps[0] != StepDrop(id);
      match steps[0] {
        case StepWait(i, expiry) => WaitKeeps(s, i, expiry);
        case StepPoll(i, w) => PollKeeps(s, i, w);
        case StepDrop(i) => DropKeeps(s, i);
        case StepAdvance(now) => AdvanceKeeps(s, now);
      }
      forall k | 0 <= k < |steps[1..]| ensures steps[1..][k] != StepDrop(id) { assert steps[1..][k] == steps[k + 1]; }
      ExpiryStays(Apply(s, steps[0]), steps[1..], id);
    }
  }

  /** A future asked to wait until `expiry` is ready, whatever happens in between, exactly from that time on. */
  lemma WaitsUntil(s: State, id: nat, expiry: nat, steps: seq<Step>, waker: nat)
    requires Inv(s) && CanWait(s, id) && forall k :: 0 <= k < |steps| ==> steps[k] != StepDrop(id)
    ensures var r := Run(WaitUntil(s, id, expiry), steps);
            r.Some? && CanPoll(r.value, id) ==> (Poll(r.value, id, waker).1 == Ready <==> r.value.now >= expiry)
  {
    hide Poll, Run, Inv;
    WaitKeeps(s, id, expiry);
    ExpiryStays(WaitUntil(s, id, expiry), steps, id);
    RunTellsTime(WaitUntil(s, id, expiry), steps, id, waker);
  }

  // ---------------------------------------------------------------------------
  // The timer object
  // ---------------------------------------------------------------------------

  /** A future and the waker that was called for it. */
  datatype Woken = Woken(id: nat, waker: nat)

  /** What the loop has done to the futures so far: those that left the heap have expired. */
  ghost predicate Halfway(s: State, to: nat, heap: set<nat>, futures: map<nat, Future>) {
    && heap <= s.heap && futures.Keys == s.futures.Keys
    && (forall id :: id in futures ==>
          futures[id] == if id in s.heap && id !in heap then s.futures[id].(state := Expired, task := None)
                         else s.futures[id])
    && (forall id :: id in s.heap && id !in heap ==> Due(s, id, to))
  }

  /** The woken futures are those that left the heap, with their wakers. */
  ghost predicate WokenAre(s: State, heap: set<nat>, woken: seq<Woken>) {
    && (forall i :: 0 <= i < |woken| ==>
          && woken[i].id in s.heap && woken[i].id !in heap && woken[i].id in s.futures
          && s.futures[woken[i].id].task == Some(woken[i].waker))
    && (forall id :: id in s.heap && id !in heap ==> exists i :: 0 <= i < |woken| && woken[i].id == id)
  }

  /** They were woken in the order of expiry, and nothing that still waits is earlier. */
  ghost predicate InOrder(s: State, heap: set<nat>, woken: seq<Woken>) {
    && (forall i :: 0 <= i < |woken| ==> woken[i].id in s.futures)
    && (forall i, k :: 0 <= i < |woken| && k in heap && k in s.futures ==>
          s.futures[woken[i].id].expiry <= s.futures[k].expiry)
    && (forall i, j :: 0 <= i < j < |woken| ==>
          s.futures[woken[i].id].expiry <= s.futures[woken[j].id].expiry && woken[i].id != woken[j].id)
  }

  lemma WokenStep(s: State, heap: set<nat>, woken: seq<Woken>, id: nat, waker: nat)
    requires WokenAre(s, heap, woken) && heap <= s.heap && id in heap && id in s.futures
    requires s.futures[id].task == Some(waker)
    ensures WokenAre(s, heap - {id}, woken + [Woken(id, waker)])
  {
    var w := woken + [Woken(id, waker)];
    forall k | k in s.heap && k !in heap - {id} ensures exists i :: 0 <= i < |w| && w[i].id == k {
      if k == id {
        assert w[|woken|].id == k;
      } else {
        var i :| 0 <= i < |woken| && woken[i].id == k;
        assert w[i] == woken[i];
      }
    }
  }

  lemma OrderStep(s: State, heap: set<nat>, woken: seq<Woken>, id: nat, waker: nat)
    requires InOrder(s, heap, woken) && WokenAre(s, heap, woken) && id in heap && id in s.futures
    requires forall k :: k in heap ==> k in s.futures && s.futures[id].expiry <= s.futures[k].expiry
    ensures InOrder(s, heap - {id}, woken + [Woken(id, waker)])
  {
    var w := woken + [Woken(id, waker)];
    forall i, j | 0 <= i < j < |w|
      ensures s.futures[w[i].id].expiry <= s.futures[w[j].id].expiry && w[i].id != w[j].id
    {
      assert w[i] == woken[i];
    }
  }

  lemma HalfwayStep(s: State, to: nat, heap: set<nat>, futures: map<nat, Future>, id: nat)
    requires Halfway(s, to, heap, futures) && id in heap && id in futures && s.futures[id].expiry <= to
    ensures Halfway(s, to, heap - {id}, futures[id := futures[id].(state := Expired, task := None)])
  {
  }

  lemma HalfwayEnd(s: State, to: nat, heap: set<nat>, futures: map<nat, Future>)
    requires Inv(s) && Halfway(s, to, heap, futures)
    requires forall k :: k in heap ==> k in s.futures && to < s.futures[k].expiry
    ensures State(to, heap, futures) == Advance(s, to)
    ensures forall id :: Due(s, id, to) <==> id in s.heap && id !in heap
  {
    var t := Advance(s, to);
    assert forall id :: id in t.heap <==> id in heap;
    forall id | id in futures ensures futures[id] == t.futures[id] {}
  }

  class Clock {
    var now: nat
    var heap: set<nat>
    var futures: map<nat, Future>

    ghost function View(): State
      reads this
    {
      State(now, heap, futures)
    }

    constructor (now: nat)
      ensures View() == State(now, {}, map[]) && Inv(View())
    {
      this.now := now;
      heap := {};
      futures := map[];
    }

    /** The heap gives one of its entries with the least expiry. */
    method PeekMin() returns (id: nat)
      requires heap != {} && forall k :: k in heap ==> k in futures
      ensures id in heap && forall k :: k in heap ==> futures[id].expiry <= futures[k].expiry
    {
      id :| id in heap;
      var rest := heap - {id};
      while rest != {}
        invariant id in heap && rest <= heap
        invariant forall k :: k in heap && k !in rest ==> futures[id].expiry <= futures[k].expiry
        decreases rest
      {
        var k :| k in rest;
        if futures[k].expiry < futures[id].expiry {
          id := k;
        }
        rest := rest - {k};
      }
    }

    /**
     * Move the clock. Exactly the futures that have become due are woken, each once, through the
     * waker of its last poll, in the order of their expiry.
     */
    method AdvanceClock(to: nat) returns (woken: seq<Woken>)
      requires Inv(View()) && now <= to
      modifies this
      ensures Inv(View()) && View() == Advance(old(View()), to)
      ensures forall i :: 0 <= i < |woken| ==>
                && Due(old(View()), woken[i].id, to)
                && old(futures)[woken[i].id].task == Some(woken[i].waker)
      ensures forall id :: Due(old(View()), id, to) ==> exists i :: 0 <= i < |woken| && woken[i].id == id
      ensures forall i, j :: 0 <= i < j < |woken| ==>
                && woken[i].id in old(futures) && woken[j].id in old(futures)
                && old(futures)[woken[i].id].expiry <= old(futures)[woken[j].id].expiry && woken[i].id != woken[j].id
    {
      hide Halfway, WokenAre, InOrder, Advance, Due;
      ghost var s := View();
      AdvanceKeeps(s, to);
      woken := [];
      AllStart(s, to);
      while heap != {}
        invariant now == s.now && Halfway(s, to, heap, futures) && WokenAre(s, heap, woken) && InOrder(s, heap, woken)
        decreases heap
      {
        HalfwayMeans(s, to, heap, futures);
        var id := PeekMin();
        var f := futures[id];
        assert FutureInv(s, id);
        if to < f.expiry {
          break;
        }
        HalfwayStep(s, to, heap, futures, id);
        WokenStep(s, heap, woken, id, f.task.value);
        OrderStep(s, heap, woken, id, f.task.value);
        futures := futures[id := f.(state := Expired, task := None)];
        woken := woken + [Woken(id, f.task.value)];
        heap := heap - {id};
      }
      HalfwayMeans(s, to, heap, futures);
      HalfwayEnd(s, to, heap, futures);
      AllEnd(s, to, heap, woken);
      now := to;
    }

    method PollFuture(id: nat, waker: nat) returns (answer: Answer)
      requires Inv(View()) && CanPoll(View(), id)
      modifies this
      ensures Inv(View()) && (View(), answer) == Poll(old(View()), id, waker)
      ensures answer == Ready <==> now >= old(futures)[id].expiry
    {
      hide Inv;
      PollKeeps(View(), id, waker);
      var f := futures[id];
      match f.state {
        case Unregistered =>
          if now >= f.expiry {
            futures := futures[id := f.(state := Expired, done := true)];
            answer := Ready;
          } else {
            futures := futures[id := f.(task := Some(waker), state := Registered)];
            heap := heap + {id};
            answer := Pending;
          }
        case Registered =>
          if f.task != Some(waker) {
            futures := futures[id := f.(task := Some(waker))];
          }
          assert futures == old(futures)[id := f.(task := Some(waker))];
          answer := Pending;
        case Expired =>
          futures := futures[id := f.(done := true)];
          answer := Ready;
      }
    }

    method DropFuture(id: nat)
      requires Inv(View()) && id in futures
      modifies this
      ensures Inv(View()) && View() == Drop(old(View()), id)
    {
      hide Inv;
      DropKeeps(View(), id);
      if !futures[id].done && futures[id].state == Registered {
        heap := heap - {id};
      }
      futures := futures - {id};
    }
  }

  lemma AllStart(s: State, to: nat)
    ensures Halfway(s, to, s.heap, s.futures) && WokenAre(s, s.heap, []) && InOrder(s, s.heap, [])
  {
  }

  lemma HalfwayMeans(s: State, to: nat, heap: set<nat>, futures: map<nat, Future>)
    requires Inv(s) && Halfway(s, to, heap, futures)
    ensures forall k :: k in heap ==> k in futures && k in s.futures && futures[k] == s.futures[k]
  {
  }

  lemma AllEnd(s: State, to: nat, heap: set<nat>, woken: seq<Woken>)
    requires Inv(s) && WokenAre(s, heap, woken) && InOrder(s, heap, woken)
    requires forall id :: Due(s, id, to) <==> id in s.heap && id !in heap
    ensures forall i :: 0 <= i < |woken| ==>
              Due(s, woken[i].id, to) && woken[i].id in s.futures && s.futures[woken[i].id].task == Some(woken[i].waker)
    ensures forall id :: Due(s, id, to) ==> exists i :: 0 <= i < |woken| && woken[i].id == id
    ensures forall i, j :: 0 <= i < j < |woken| ==>
              && woken[i].id in s.futures && woken[j].id in s.futures
              && s.futures[woken[i].id].expiry <= s.futures[woken[j].id].expiry && woken[i].id != woken[j].id
  {
    hide Due;
  }
}
