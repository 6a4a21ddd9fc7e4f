/**
 * The core allocator: one bit per core and application, guarded by a lock, and one bounded message
 * channel per core. A thread that sends into a full channel keeps the lock until there is room; the
 * message it holds is `pending`. What ever happened to a core is its `history`, in order.
 */
module CoreAllocator {
  import opened Common

  const CHANNELS: nat := 64
  const MAX_APPS: nat := 16
  const CAPACITY: nat := 2
  const WARNING_CHANNEL: nat := 15

  /** A 64-bit word, bit 0 first. */
  type Mask = m: seq<bool> | |m| == CHANNELS witness seq(CHANNELS, _ => false)

  datatype Msg = Msg(kind: nat, app: nat, count: nat)

  datatype Letter = Letter(core: nat, msg: Msg)

  datatype Event = Registered | Allocated | Released

  datatype State = State(total: nat, masks: map<nat, Mask>, queues: seq<seq<Msg>>, pending: Option<Letter>,
                         delivered: seq<seq<Msg>>, history: seq<seq<Event>>)

  datatype Reply = Done | Panic

  function NoBits(): Mask {
    seq(CHANNELS, _ => false)
  }

  function Start(total: nat): State {
    State(total, map[], seq(CHANNELS, _ => []), None, seq(CHANNELS, _ => []), seq(CHANNELS, _ => []))
  }

  /** The lowest clear bit below `n`, from `x` on; `n` if there is none. */
  function LowestClear(m: Mask, x: nat, n: nat): (r: nat)
    requires x <= n <= CHANNELS
    ensures x <= r <= n
    ensures r < n ==> !m[r]
    ensures forall k :: x <= k < r ==> m[k]
    decreases n - x
  {
    if x == n || !m[x] then x else LowestClear(m, x + 1, n)
  }

  /** The number of bits set below `n`. */
  function Running(m: Mask, n: nat): (r: nat)
    requires n <= CHANNELS
    ensures r <= n
  {
    if n == 0 then 0 else Running(m, n - 1) + (if m[n - 1] then 1 else 0)
  }

  /** The highest bit set below `n`, plus one; zero if there is none. */
  function HighestSet(m: Mask, n: nat): (r: nat)
    requires n <= CHANNELS
    ensures r <= n
    ensures r > 0 ==> m[r - 1]
    ensures forall k :: r <= k < n ==> !m[k]
  {
    if n == 0 then 0 else if m[n - 1] then n else HighestSet(m, n - 1)
  }

  // ---------------------------------------------------------------------------
  // Steps
  // ---------------------------------------------------------------------------

  /** An application starts on a core. */
  function Register(s: State, core: nat, app: nat): (State, Reply)
    requires |s.history| == CHANNELS
  {
    if app >= MAX_APPS || core >= CHANNELS then (s, Panic)
    else
      var m := if app in s.masks then s.masks[app] else NoBits();
      var history := if app == 1 then s.history[core := s.history[core] + [Registered]] else s.history;
      (s.(masks := s.masks[app := m[core := true]], history := history), Done)
  }

  /** Give an application one more core. Only application 1 can take cores; failure is reported to channel 15. */
  function ScaleUp(s: State, app: nat): (State, Reply)
    requires |s.history| == CHANNELS && s.total < CHANNELS
  {
    if 1 !in s.masks || 2 !in s.masks then (s, Panic)
    else
      var x := if app == 1 then LowestClear(s.masks[1], 0, s.total) else s.total;
      if x < s.total then
        (s.(masks := s.masks[1 := s.masks[1][x := true]],
            pending := Some(Letter(x, Msg(1, 1, 0))),
            history := s.history[x := s.history[x] + [Allocated]]), Done)
      else (s.(pending := Some(Letter(WARNING_CHANNEL, Msg(3, app, 0)))), Done)
  }

  /** Take a core from application 1, unless it has only one left. */
  function ScaleDown(s: State, app: nat): (State, Reply)
    requires |s.history| == CHANNELS && s.total < CHANNELS
  {
    if 1 !in s.masks || 2 !in s.masks || app != 1 then (s, Panic)
    else
      var running := Running(s.masks[1], s.total);
      if running <= 1 then (s, Done)
      else
        var x := HighestSet(s.masks[1], s.total);
        if x == 0 then (s, Done)
        else
          (s.(masks := s.masks[1 := s.masks[1][x - 1 := false]],
              pending := Some(Letter(x - 1, Msg(0, 1, running))),
              history := s.history[x - 1 := s.history[x - 1] + [Released]]), Done)
  }

  predicate CanSend(s: State) {
    && s.pending.Some? && s.pending.value.core < |s.queues|
    && |s.queues[s.pending.value.core]| < CAPACITY
  }

  /** The pending message goes into its channel and the lock is released. */
  function Send(s: State): State
    requires CanSend(s)
  {
    var l := s.pending.value;
    s.(queues := s.queues[l.core := s.queues[l.core] + [l.msg]], pending := None)
  }

  predicate CanReceive(s: State, core: nat) {
    core < |s.queues| && core < |s.delivered| && s.queues[core] != []
  }

  function Receive(s: State, core: nat): State
    requires CanReceive(s, core)
  {
    s.(queues := s.queues[core := s.queues[core][1..]],
       delivered := s.delivered[core := s.delivered[core] + [s.queues[core][0]]])
  }

  // ---------------------------------------------------------------------------
  // What the messages say
  // ---------------------------------------------------------------------------

  /** The allocations and releases for application 1 among some messages. */
  function Changes(ms: seq<Msg>): seq<Event> {
    if ms == [] then []
    else Changes(ms[..|ms| - 1]) + ChangeOf(ms[|ms| - 1])
  }

  function ChangeOf(m: Msg): seq<Event> {
    if m.app == 1 && m.kind == 1 then [Allocated] else if m.app == 1 && m.kind == 0 then [Released] else []
  }

  /** A history without the registrations. */
  function Messages(h: seq<Event>): seq<Event> {
    if h == [] then []
    else Messages(h[..|h| - 1]) + (if h[|h| - 1] == Registered then [] else [h[|h| - 1]])
  }

  /** What a history leaves in the mask. */
  predicate Replay(h: seq<Event>) {
    h != [] && h[|h| - 1] != Released
  }

  /** Cores are only given when they are free and only taken when they are held. */
  ghost predicate Proper(h: seq<Event>) {
    forall i :: 0 <= i < |h| ==>
      && (h[i] == Allocated ==> !Replay(h[..i]))
      && (h[i] == Released ==> Replay(h[..i]))
  }

  /** Everything on its way to a core, oldest first: delivered, queued, and held by the lock owner. */
  function OnTheWay(s: State, core: nat): seq<Msg>
    requires core < |s.queues| && core < |s.delivered|
  {
    s.delivered[core] + s.queues[core]
    + (if s.pending.Some? && s.pending.value.core == core then [s.pending.value.msg] else [])
  }

  function Bit(s: State, core: nat): bool
    requires core < CHANNELS
  {
    1 in s.masks && s.masks[1][core]
  }

  ghost predicate CoreInv(s: State, x: nat)
    requires x < CHANNELS && |s.queues| == |s.delivered| == |s.history| == CHANNELS
  {
    && |s.queues[x]| <= CAPACITY
    && Changes(OnTheWay(s, x)) == Messages(s.history[x])
    && Replay(s.history[x]) == Bit(s, x)
    && Proper(s.history[x])
  }

  ghost predicate Inv(s: State) {
    && |s.queues| == |s.delivered| == |s.history| == CHANNELS && s.total < CHANNELS
    && (s.pending.Some? ==> s.pending.value.core < CHANNELS)
    && (forall x :: 0 <= x < CHANNELS ==> CoreInv(s, x))
  }

  lemma StartInv(total: nat)
    requires total < CHANNELS
    ensures Inv(Start(total))
  {
  }

  // ---------------------------------------------------------------------------
  // Preservation
  // ---------------------------------------------------------------------------

  lemma ChangesSnoc(ms: seq<Msg>, m: Msg)
    ensures Changes(ms + [m]) == Changes(ms) + ChangeOf(m)
  {
    assert (ms + [m])[..|ms|] == ms;
  }

  lemma MessagesSnoc(h: seq<Event>, e: Event)
    ensures Messages(h + [e]) == Messages(h) + (if e == Registered then [] else [e])
  {
    assert (h + [e])[..|h|] == h;
  }

  lemma ProperSnoc(h: seq<Event>, e: Event)
    requires Proper(h) && (e == Allocated ==> !Replay(h)) && (e == Released ==> Replay(h))
    ensures Proper(h + [e]) && Replay(h + [e]) == (e != Released)
  {
    var g := h + [e];
    forall i | 0 <= i < |g|
      ensures (g[i] == Allocated ==> !Replay(g[..i])) && (g[i] == Released ==> Replay(g[..i]))
    {
      if i < |h| { assert g[..i] == h[..i] && g[i] == h[i]; } else { assert g[..i] == h; }
    }
  }

  /** A core nothing happened to. */
  lemma SameCore(s: State, t: State, x: nat)
    requires Inv(s) && x < CHANNELS && |t.queues| == |t.delivered| == |t.history| == CHANNELS
    requires t.queues[x] == s.queues[x] && t.delivered[x] == s.delivered[x] && t.history[x] == s.history[x]
    requires Changes(OnTheWay(t, x)) == Changes(OnTheWay(s, x)) && Bit(t, x) == Bit(s, x)
    ensures CoreInv(t, x)
  {
    assert CoreInv(s, x);
  }

  lemma RegisterKeeps(s: State, core: nat, app: nat)
    requires Inv(s)
    ensures Inv(Register(s, core, app).0)
  {
    hide Proper, Changes, Messages, Replay;
    if app < MAX_APPS && core < CHANNELS {
      var t := Register(s, core, app).0;
      forall x | 0 <= x < CHANNELS ensures CoreInv(t, x) {
        assert OnTheWay(t, x) == OnTheWay(s, x);
        if app == 1 && x == core {
          assert CoreInv(s, x);
          MessagesSnoc(s.history[x], Registered);
          ProperSnoc(s.history[x], Registered);
        } else {
          SameCore(s, t, x);
        }
      }
    }
  }

  /** A change of one bit together with the message about it. */
  lemma ChangeKeeps(s: State, t: State, core: nat, e: Event, m: Msg)
    requires Inv(s) && s.pending.None? && core < CHANNELS && 1 in s.masks
    requires e != Registered && (e == Allocated <==> !s.masks[1][core]) && ChangeOf(m) == [e]
    requires t == s.(masks := s.masks[1 := s.masks[1][core := (e == Allocated)]],
                     pending := Some(Letter(core, m)),
                     history := s.history[core := s.history[core] + [e]])
    ensures Inv(t)
  {
    hide Proper, Changes, Messages, Replay, ChangeOf;
    forall x | 0 <= x < CHANNELS ensures CoreInv(t, x) {
      if x == core {
        assert CoreInv(s, x);
        MessagesSnoc(s.history[x], e);
        ProperSnoc(s.history[x], e);
        assert OnTheWay(t, x) == OnTheWay(s, x) + [m];
        ChangesSnoc(OnTheWay(s, x), m);
      } else {
        SameCore(s, t, x);
      }
    }
  }

  /** A warning changes nothing but the lock owner's message. */
  lemma WarningKeeps(s: State, m: Msg)
    requires Inv(s) && s.pending.None? && ChangeOf(m) == []
    ensures Inv(s.(pending := Some(Letter(WARNING_CHANNEL, m))))
  {
    hide Proper, Changes, Messages, Replay, ChangeOf;
    var t := s.(pending := Some(Letter(WARNING_CHANNEL, m)));
    forall x | 0 <= x < CHANNELS ensures CoreInv(t, x) {
      if x == WARNING_CHANNEL {
        assert OnTheWay(t, x) == OnTheWay(s, x) + [m];
        ChangesSnoc(OnTheWay(s, x), m);
        assert Changes(OnTheWay(s, x)) + [] == Changes(OnTheWay(s, x));
      }
      SameCore(s, t, x);
    }
  }

  lemma ScaleUpKeeps(s: State, app: nat)
    requires Inv(s) && s.pending.None?
    ensures Inv(ScaleUp(s, app).0)
  {
    hide Inv;
    if 1 in s.masks && 2 in s.masks {
      Shape(s);
      var x := if app == 1 then LowestClear(s.masks[1], 0, s.total) else s.total;
      if x < s.total {
        ChangeKeeps(s, ScaleUp(s, app).0, x, Allocated, Msg(1, 1, 0));
      } else {
        WarningKeeps(s, Msg(3, app, 0));
      }
    }
  }

  lemma Shape(s: State)
    requires Inv(s)
    ensures |s.history| == CHANNELS && s.total < CHANNELS
  {
  }

  lemma ScaleDownKeeps(s: State, app: nat)
    requires Inv(s) && s.pending.None?
    ensures Inv(ScaleDown(s, app).0)
  {
    hide Inv;
    Shape(s);
    if 1 in s.masks && 2 in s.masks && app == 1 {
      var running := Running(s.masks[1], s.total);
      var x := HighestSet(s.masks[1], s.total);
      if running > 1 && x > 0 {
        ChangeKeeps(s, ScaleDown(s, app).0, x - 1, Released, Msg(0, 1, running));
      }
    }
  }

  lemma SendKeeps(s: State)
    requires Inv(s) && CanSend(s)
    ensures var t, l := Send(s), s.pending.value;
            && Inv(t) && t.pending.None? && t.masks == s.masks && t.total == s.total && t.delivered == s.delivered
            && (forall x :: 0 <= x < CHANNELS ==>
                  t.queues[x] == s.queues[x] + (if x == l.core then [l.msg] else []))
  {
    hide Proper, Changes, Messages, Replay;
    var t := Send(s);
    forall x | 0 <= x < CHANNELS ensures CoreInv(t, x) {
      assert OnTheWay(t, x) == OnTheWay(s, x);
      assert CoreInv(s, x);
    }
  }

  lemma ReceiveKeeps(s: State, core: nat)
    requires Inv(s) && CanReceive(s, core)
    ensures var t := Receive(s, core);
            && Inv(t) && t.pending == s.pending && t.masks == s.masks && t.total == s.total
            && (forall x :: 0 <= x < CHANNELS ==>
                  t.delivered[x] + t.queues[x] == s.delivered[x] + s.queues[x]
                  && |t.queues[x]| == |s.queues[x]| - if x == core then 1 else 0)
  {
    hide Proper, Changes, Messages, Replay;
    var t := Receive(s, core);
    forall x | 0 <= x < CHANNELS ensures CoreInv(t, x) {
      assert CoreInv(s, x);
      if x == core {
        var q := s.queues[x];
        assert s.delivered[x] + q == s.delivered[x] + [q[0]] + q[1..];
      }
      assert OnTheWay(t, x) == OnTheWay(s, x);
    }
  }

  /** A sender never waits for ever: its message fits, or it fits once the receiving core has taken one. */
  lemma SenderMovesOn(s: State)
    requires Inv(s) && s.pending.Some?
    ensures var core := s.pending.value.core;
            CanSend(s) || (CanReceive(s, core) && CanSend(Receive(s, core)))
  {
    assert CoreInv(s, s.pending.value.core);
  }

  // ---------------------------------------------------------------------------
  // Runs
  // ---------------------------------------------------------------------------

  datatype Step =
    | StepRegister(core: nat, app: nat)
    | StepUp(app: nat)
    | StepDown(app: nat)
    | StepSend
    | StepReceive(core: nat)

  /** Scaling and registering need the lock. */
  predicate Enabled(s: State, e: Step) {
    match e
    case StepRegister(core, app) => s.pending.None? && core < CHANNELS && app < MAX_APPS
    case StepUp(_) => s.pending.None? && 1 in s.masks && 2 in s.masks
    case StepDown(app) => s.pending.None? && 1 in s.masks && 2 in s.masks && app == 1
    case StepSend => CanSend(s)
    case StepReceive(core) => CanReceive(s, core)
  }

  function Apply(s: State, e: Step): State
    requires Enabled(s, e) && |s.history| == CHANNELS && s.total < CHANNELS
  {
    match e
    case StepRegister(core, app) => Register(s, core, app).0
    case StepUp(app) => ScaleUp(s, app).0
    case StepDown(app) => ScaleDown(s, app).0
    case StepSend => Send(s)
    case StepReceive(core) => Receive(s, core)
  }

  lemma ApplyKeeps(s: State, e: Step)
    requires Inv(s) && Enabled(s, e)
    ensures Inv(Apply(s, e)) && Apply(s, e).total == s.total
  {
    hide Inv;
    Shape(s);
    match e
    case StepRegister(core, app) => RegisterKeeps(s, core, app);
    case StepUp(app) => ScaleUpKeeps(s, app);
    case StepDown(app) => ScaleDownKeeps(s, app);
    case StepSend => SendKeeps(s);
    case StepReceive(core) => ReceiveKeeps(s, core);
  }

  // ---------------------------------------------------------------------------
  // What scaling keeps
  // ---------------------------------------------------------------------------

  lemma {:induction false} RunningPut(m: Mask, x: nat, b: bool, n: nat)
    requires x < CHANNELS && n <= CHANNELS
    ensures Running(m[x := b], n) ==
              Running(m, n) + (if x < n && b && !m[x] then 1 else if x < n && !b && m[x] then -1 else 0)
  {
    if n > 0 { RunningPut(m, x, b, n - 1); }
  }

  lemma {:induction false} RunningNone(m: Mask, n: nat)
    requires n <= CHANNELS && forall k :: 0 <= k < n ==> !m[k]
    ensures Running(m, n) == 0
  {
    if n > 0 { RunningNone(m, n - 1); }
  }

  /** No core outside the usable ones. */
  ghost predicate Inside(m: Mask, total: nat) {
    forall x :: total <= x < CHANNELS ==> !m[x]
  }

  /** Exactly the first `k` cores. */
  ghost predicate Prefix(m: Mask, k: nat) {
    forall x :: 0 <= x < CHANNELS ==> (m[x] <==> x < k)
  }

  /** What holds of application 1 once it runs somewhere, and what it does not touch. */
  ghost predicate Held(s: State, t: State) {
    && 1 in s.masks && 2 in s.masks && 1 in t.masks && 2 in t.masks && t.masks[2] == s.masks[2] && t.total == s.total
    && s.total < CHANNELS
    && (Running(s.masks[1], s.total) >= 1 ==> Running(t.masks[1], t.total) >= 1)
    && (Inside(s.masks[1], s.total) ==> Inside(t.masks[1], t.total))
    && (forall k: nat :: k <= s.total && Prefix(s.masks[1], k) ==>
          exists j: nat :: j <= t.total && Prefix(t.masks[1], j))
  }

  lemma SameMasks(s: State, t: State)
    requires 1 in s.masks && 2 in s.masks && t.masks == s.masks && t.total == s.total && s.total < CHANNELS
    ensures Held(s, t)
  {
    hide Prefix, Inside;
  }

  /** Scaling up takes the lowest free usable core and leaves every other bit; it fails exactly when there is none. */
  lemma ScaleUpIs(s: State)
    requires Inv(s) && s.pending.None? && 1 in s.masks && 2 in s.masks
    ensures var t := ScaleUp(s, 1).0;
            && t.pending.Some? && t.total == s.total
            && (t.pending.value.msg.kind == 3 <==> forall x :: 0 <= x < s.total ==> s.masks[1][x])
            && (t.pending.value.msg.kind == 3 ==>
                  t.masks == s.masks && t.pending == Some(Letter(WARNING_CHANNEL, Msg(3, 1, 0))))
            && (t.pending.value.msg.kind != 3 ==>
                  var x := t.pending.value.core;
                  && x < s.total && !s.masks[1][x] && (forall y :: 0 <= y < x ==> s.masks[1][y])
                  && t.masks == s.masks[1 := s.masks[1][x := true]] && t.pending.value.msg == Msg(1, 1, 0))
  {
    hide CoreInv;
  }

  /** Another application never gets a core, only a warning; and without both applications scaling panics. */
  lemma ScalingRefused(s: State, app: nat)
    requires Inv(s) && s.pending.None?
    ensures 1 in s.masks && 2 in s.masks && app != 1 ==>
              ScaleUp(s, app) == (s.(pending := Some(Letter(15, Msg(3, app, 0)))), Done)
    ensures ScaleUp(s, app).1 == Panic <==> 1 !in s.masks || 2 !in s.masks
    ensures ScaleDown(s, app).1 == Panic <==> 1 !in s.masks || 2 !in s.masks || app != 1
    ensures ScaleUp(s, app).1 == Panic ==> ScaleUp(s, app).0 == s
    ensures ScaleDown(s, app).1 == Panic ==> ScaleDown(s, app).0 == s
  {
    hide CoreInv;
  }

  /** Registering sets exactly one bit; cores and applications out of range are refused. */
  lemma RegisterIs(s: State, core: nat, app: nat, other: nat, x: nat)
    requires Inv(s) && x < CHANNELS
    ensures var (t, reply) := Register(s, core, app);
            && (reply == Done <==> app < 16 && core < 64) && (reply == Panic ==> t == s)
            && t.queues == s.queues && t.pending == s.pending && t.total == s.total
            && (reply == Done ==>
                  && app in t.masks && t.masks[app][core]
                  && (other in t.masks && t.masks[other][x] <==>
                        (other in s.masks && s.masks[other][x]) || (other == app && x == core)))
  {
    hide CoreInv;
  }

  /** The cores of an application that can be used. */
  ghost function Cores(m: Mask, n: nat): set<nat>
    requires n <= CHANNELS
  {
    set k: nat | k < n && m[k]
  }

  lemma {:induction false} RunningCounts(m: Mask, n: nat)
    requires n <= CHANNELS
    ensures Running(m, n) == |Cores(m, n)|
  {
    if n > 0 {
      RunningCounts(m, n - 1);
      assert Cores(m, n) == if m[n - 1] then Cores(m, n - 1) + {n - 1} else Cores(m, n - 1);
    }
  }

  /** Scaling down takes the highest usable core, as long as another one is left. */
  lemma ScaleDownIs(s: State)
    requires Inv(s) && s.pending.None? && 1 in s.masks && 2 in s.masks
    ensures var t := ScaleDown(s, 1).0;
            && t.total == s.total && (t == s <==> |Cores(s.masks[1], s.total)| <= 1)
            && (t != s ==>
                  && t.pending.Some? && t.pending.value.msg == Msg(0, 1, |Cores(s.masks[1], s.total)|)
                  && var x := t.pending.value.core;
                     && x < s.total && s.masks[1][x] && (forall y :: x < y < s.total ==> !s.masks[1][y])
                     && t.masks == s.masks[1 := s.masks[1][x := false]])
  {
    hide CoreInv, Cores;
    var m := s.masks[1];
    RunningCounts(m, s.total);
    if HighestSet(m, s.total) == 0 {
      RunningNone(m, s.total);
    }
  }

  lemma PrefixUp(m: Mask, k: nat, x: nat)
    requires Prefix(m, k) && k <= CHANNELS && x < CHANNELS && !m[x] && forall y :: 0 <= y < x ==> m[y]
    ensures x == k && Prefix(m[x := true], x + 1)
  {
    assert x >= k;
    assert k < CHANNELS && !m[k];
  }

  lemma PrefixDown(m: Mask, k: nat, x: nat, total: nat)
    requires Prefix(m, k) && k <= total <= CHANNELS && x < total && m[x] && forall y :: x < y < total ==> !m[y]
    ensures k == x + 1 && Prefix(m[x := false], x)
  {
    assert x < k;
    assert m[k - 1];
  }

  lemma ScaleUpHeld(s: State, app: nat)
    requires Inv(s) && s.pending.None? && 1 in s.masks && 2 in s.masks
    ensures Held(s, ScaleUp(s, app).0)
  {
    hide CoreInv;
    var t := ScaleUp(s, app).0;
    if app == 1 {
      hide ScaleUp;
      ScaleUpIs(s);
    }
    if t.masks != s.masks {
      var x := t.pending.value.core;
      RunningPut(s.masks[1], x, true, s.total);
      forall k: nat | k <= s.total && Prefix(s.masks[1], k)
        ensures exists j: nat :: j <= t.total && Prefix(t.masks[1], j)
      {
        PrefixUp(s.masks[1], k, x);
      }
    } else {
      SameMasks(s, t);
    }
  }

  lemma ScaleDownHeld(s: State)
    requires Inv(s) && s.pending.None? && 1 in s.masks && 2 in s.masks
    ensures Held(s, ScaleDown(s, 1).0)
  {
    hide CoreInv, ScaleDown;
    var t := ScaleDown(s, 1).0;
    ScaleDownIs(s);
    RunningCounts(s.masks[1], s.total);
    if t == s {
      SameMasks(s, t);
    } else {
      var x := t.pending.value.core;
      RunningPut(s.masks[1], x, false, s.total);
      forall k: nat | k <= s.total && Prefix(s.masks[1], k)
        ensures exists j: nat :: j <= t.total && Prefix(t.masks[1], j)
      {
        PrefixDown(s.masks[1], k, x, s.total);
      }
    }
  }

  lemma HeldTrans(a: State, b: State, c: State)
    requires Held(a, b) && Held(b, c)
    ensures Held(a, c)
  {
    hide Prefix, Inside, Running;
  }

  function Run(s: State, steps: seq<Step>): Option<State>
    requires |s.history| == CHANNELS && s.total < CHANNELS
    decreases |steps|
  {
    if steps == [] then Some(s)
    else if Enabled(s, steps[0]) && |Apply(s, steps[0]).history| == CHANNELS && Apply(s, steps[0]).total < CHANNELS
    then Run(Apply(s, steps[0]), steps[1..])
    else None
  }

  /** Every run keeps the agreement between masks and messages. */
  lemma {:induction false} RunKeeps(s: State, steps: seq<Step>)
    requires Inv(s)
    ensures Run(s, steps).Some? ==> Inv(Run(s, steps).value)
    decreases |steps|
  {
    hide CoreInv, Apply, Enabled;
    if steps != [] && Enabled(s, steps[0]) {
      ApplyKeeps(s, steps[0]);
      RunKeeps(Apply(s, steps[0]), steps[1..]);
    }
  }

  /**
   * After registration: application 1 never drops below one usable core, never leaves the usable
   * cores, a prefix of the cores stays a prefix, and application 2 keeps its mask.
   */
  lemma {:induction false} ScalingRunHolds(s: State, steps: seq<Step>)
    requires Inv(s) && 1 in s.masks && 2 in s.masks
    requires forall i :: 0 <= i < |steps| ==> !steps[i].StepRegister?
    ensures Run(s, steps).Some? ==> Held(s, Run(s, steps).value)
    decreases |steps|
  {
    hide CoreInv, Held, Inv;
    Shape(s);
    if steps == [] {
      SameMasks(s, s);
    } else if Enabled(s, steps[0]) {
      var t := Apply(s, steps[0]);
      ApplyKeeps(s, steps[0]);
      match steps[0] {
        case StepUp(app) => ScaleUpHeld(s, app);
        case StepDown(app) => ScaleDownHeld(s);
        case StepSend => SameMasks(s, t);
        case StepReceive(core) => SameMasks(s, t);
        case StepRegister(_, _) =>
      }
      HasBoth(s, t);
      forall i | 0 <= i < |steps[1..]| ensures !steps[1..][i].StepRegister? { assert steps[1..][i] == steps[i + 1]; }
      ScalingRunHolds(t, steps[1..]);
      if Run(s, steps).Some? { HeldTrans(s, t, Run(s, steps).value); }
    }
  }

  lemma HasBoth(s: State, t: State)
    requires Held(s, t)
    ensures 1 in t.masks && 2 in t.masks
  {
  }

  /**
   * For every core: the messages for application 1 that were delivered or are on their way are
   * exactly its allocations and releases, in order; the last event decides the bit in the mask.
   */
  lemma MaskIsReplay(s: State, x: nat)
    requires Inv(s) && x < CHANNELS
    ensures Changes(OnTheWay(s, x)) == Messages(s.history[x])
    ensures Bit(s, x) == Replay(s.history[x])
    ensures Proper(s.history[x]) && |s.queues[x]| <= CAPACITY
  {
    assert CoreInv(s, x);
  }

  // ---------------------------------------------------------------------------
  // What the cores can tell from their messages alone
  // ---------------------------------------------------------------------------

  /** Messages to a core that held its bit, or did not, before the first of them: given and taken in turn. */
  ghost predicate InTurn(es: seq<Event>, held: bool) {
    && (forall i :: 0 <= i < |es| ==> es[i] != Registered)
    && (es != [] ==> (es[0] == Released <==> held))
    && (forall i :: 0 < i < |es| ==> es[i] != es[i - 1])
  }

  /** The bit after a core has followed some messages. */
  predicate Followed(es: seq<Event>, held: bool) {
    if es == [] then held else es[|es| - 1] == Allocated
  }

  /** Next to each other in a history, a message is the opposite of what came before it. */
  lemma ChangesAlternate(h: seq<Event>, i: nat)
    requires Proper(h) && i + 1 < |h| && h[i + 1] != Registered
    ensures h[i + 1] == Allocated <==> h[i] == Released
    ensures h[i + 1] == Released <==> h[i] != Released
  {
    assert h[..i + 1][|h[..i + 1]| - 1] == h[i];
  }

  lemma {:induction false} MessagesAppend(h: seq<Event>, es: seq<Event>)
    requires forall i :: 0 <= i < |es| ==> es[i] != Registered
    ensures Messages(h + es) == Messages(h) + es
    decreases |es|
  {
    hide Messages;
    if es == [] {
      assert h + es == h;
      assert Messages(h) + es == Messages(h);
    } else {
      var n := |es| - 1;
      MessagesAppend(h, es[..n]);
      MessagesSnoc(h + es[..n], es[n]);
      assert h + es == h + es[..n] + [es[n]];
      assert es == es[..n] + [es[n]];
    }
  }

  /** The part of a proper history behind the last registration consists of messages in turn. */
  lemma SuffixInTurn(h: seq<Event>, es: seq<Event>)
    requires Proper(h + es) && forall i :: 0 <= i < |es| ==> es[i] != Registered
    ensures InTurn(es, Replay(h)) && Replay(h + es) == Followed(es, Replay(h))
  {
    var g := h + es;
    if es == [] {
      assert g == h;
    } else {
      assert g[|h|] == es[0] && g[..|h|] == h;
      forall i | 0 < i < |es| ensures es[i] != es[i - 1] {
        assert g[|h| + i] == es[i] && g[|h| + i - 1] == es[i - 1];
        ChangesAlternate(g, |h| + i - 1);
      }
    }
  }

  /** One history continues another without a registration. */
  ghost predicate Continues(h: seq<Event>, g: seq<Event>) {
    h <= g && forall i :: |h| <= i < |g| ==> g[i] != Registered
  }

  lemma StepContinues(s: State, e: Step, x: nat)
    requires Inv(s) && Enabled(s, e) && !e.StepRegister? && x < CHANNELS
    ensures |Apply(s, e).history| == CHANNELS && Continues(s.history[x], Apply(s, e).history[x])
  {
    hide CoreInv;
  }

  lemma {:induction false} RunContinues(s: State, steps: seq<Step>, x: nat)
    requires Inv(s) && x < CHANNELS
    requires forall i :: 0 <= i < |steps| ==> !steps[i].StepRegister?
    ensures Run(s, steps).Some? ==>
              |Run(s, steps).value.history| == CHANNELS && Continues(s.history[x], Run(s, steps).value.history[x])
    decreases |steps|
  {
    hide CoreInv, Apply, Enabled;
    if steps != [] && Enabled(s, steps[0]) {
      ApplyKeeps(s, steps[0]);
      StepContinues(s, steps[0], x);
      RunContinues(Apply(s, steps[0]), steps[1..], x);
    }
  }

  /**
   * After registration, for every core: the messages for application 1 sent during a run (delivered
   * first, then queued, then held by the lock owner) strictly alternate, the first one is a release
   * exactly if the core held its bit, and following them gives its bit in the mask.
   */
  lemma MessagesReplay(s: State, steps: seq<Step>, x: nat)
    requires Inv(s) && x < CHANNELS
    requires forall i :: 0 <= i < |steps| ==> !steps[i].StepRegister?
    ensures Run(s, steps).Some? ==>
              var t := Run(s, steps).value;
              && |t.queues| == |t.delivered| == CHANNELS
              && var before, after := Changes(OnTheWay(s, x)), Changes(OnTheWay(t, x));
                 && before <= after
                 && InTurn(after[|before|..], Bit(s, x))
                 && Bit(t, x) == Followed(after[|before|..], Bit(s, x))
  {
    hide CoreInv, Changes, Messages, Proper, Replay, Bit, InTurn, Followed;
    if Run(s, steps).Some? {
      var t := Run(s, steps).value;
      RunKeeps(s, steps);
      RunContinues(s, steps, x);
      MaskIsReplay(s, x);
      MaskIsReplay(t, x);
      var h, g := s.history[x], t.history[x];
      var es := g[|h|..];
      assert g == h + es;
      MessagesAppend(h, es);
      SuffixInTurn(h, es);
      assert (Messages(h) + es)[|Messages(h)|..] == es;
    }
  }

  // ---------------------------------------------------------------------------
  // The shared object
  // ---------------------------------------------------------------------------

  class Allocator {
    const total: nat
    var masks: map<nat, Mask>
    var queues: seq<seq<Msg>>
    var pending: Option<Letter>
    ghost var view: State

    ghost predicate Valid()
      reads this
    {
      && view.total == total && view.masks == masks && view.queues == queues && view.pending == pending
      && Inv(view)
    }

    constructor (total: nat)
      requires total < CHANNELS
      ensures Valid() && view == Start(total)
    {
      this.total := total;
      masks := map[];
      queues := seq(CHANNELS, _ => []);
      pending := None;
      view := Start(total);
      StartInv(total);
    }

    method RegisterApp(core: nat, app: nat) returns (reply: Reply)
      requires Valid() && pending.None?
      modifies this
      ensures Valid() && (view, reply) == Register(old(view), core, app)
    {
      hide Inv;
      Shape(view);
      RegisterKeeps(view, core, app);
      view := Register(view, core, app).0;
      if app >= MAX_APPS || core >= CHANNELS {
        return Panic;
      }
      if app !in masks {
        masks := masks[app := NoBits()];
      }
      masks := masks[app := masks[app][core := true]];
      assert view.masks == masks;
      return Done;
    }

    /** Scan the cores upwards for a free one. */
    method SelectScaleUp(app: nat) returns (reply: Reply)
      requires Valid() && pending.None?
      modifies this
      ensures Valid() && (view, reply) == ScaleUp(old(view), app)
    {
      hide Inv;
      Shape(view);
      ScaleUpKeeps(view, app);
      view := ScaleUp(view, app).0;
      if 1 !in masks || 2 !in masks {
        return Panic;
      }
      var mask := masks[1];
      var selected, found := 0, false;
      if app == 1 {
        var x := 0;
        while x < total
          invariant 0 <= x <= total && LowestClear(mask, 0, total) == LowestClear(mask, x, total)
          invariant !found
        {
          if !mask[x] {
            selected, found := x, true;
            break;
          }
          x := x + 1;
        }
      }
      if found {
        masks := masks[1 := mask[selected := true]];
        pending := Some(Letter(selected, Msg(1, app, 0)));
      } else {
        pending := Some(Letter(WARNING_CHANNEL, Msg(3, app, 0)));
      }
      return Done;
    }

    /** Count the cores, then scan downwards for the highest one. */
    method SelectScaleDown(app: nat) returns (reply: Reply)
      requires Valid() && pending.None?
      modifies this
      ensures Valid() && (view, reply) == ScaleDown(old(view), app)
    {
      hide Inv;
      Shape(view);
      ScaleDownKeeps(view, app);
      view := ScaleDown(view, app).0;
      if 1 !in masks || 2 !in masks || app != 1 {
        return Panic;
      }
      var mask := masks[1];
      var running := 0;
      for x := 0 to total
        invariant running == Running(mask, x)
      {
        if mask[x] {
          running := running + 1;
        }
      }
      if running <= 1 {
        return Done;
      }
      var x := total;
      while x > 0
        invariant 0 <= x <= total && HighestSet(mask, total) == HighestSet(mask, x)
      {
        if mask[x - 1] {
          break;
        }
        x := x - 1;
      }
      if x > 0 {
        masks := masks[1 := mask[x - 1 := false]];
        pending := Some(Letter(x - 1, Msg(0, app, running)));
      }
      return Done;
    }

    method Deliver()
      requires Valid() && CanSend(view)
      modifies this
      ensures Valid() && view == Send(old(view))
    {
      hide Inv;
      SendKeeps(view);
      view := Send(view);
      var letter := pending.value;
      queues := queues[letter.core := queues[letter.core] + [letter.msg]];
      pending := None;
    }

    method TryReceive(core: nat) returns (msg: Option<Msg>)
      requires Valid() && core < CHANNELS
      modifies this
      ensures Valid()
      ensures old(queues)[core] == [] ==> msg == None && view == old(view)
      ensures old(queues)[core] != [] ==> msg == Some(old(queues)[core][0]) && view == Receive(old(view), core)
    {
      if queues[core] == [] {
        return None;
      }
      hide CoreInv;
      ReceiveKeeps(view, core);
      msg := Some(queues[core][0]);
      view := Receive(view, core);
      queues := queues[core := queues[core][1..]];
    }
  }
}
