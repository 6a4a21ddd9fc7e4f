/**
 * The two halves of the TCP opening handshake: a listener that answers SYN segments and a socket
 * that actively opens a connection. Both are values here; each function is one call or one step of
 * a background task. `Panic` stands for a failed assertion or `expect` in the program.
 */
module Tcp {
  import opened Common

  const FALLBACK_MSS: nat := 536

  datatype Endpoint = Endpoint(addr: nat, port: nat)

  datatype Key = Key(local: Endpoint, remote: Endpoint)

  datatype TcpOption = MaxSegment(mss: nat) | WindowScale(shift: nat) | Other

  datatype Header = Header(syn: bool, ack: bool, rst: bool, seqNum: nat, ackNum: nat, window: nat,
                           options: seq<TcpOption>)

  datatype Packet = Packet(src: Endpoint, dst: Endpoint, header: Header)

  /** The configured options the handshake uses. */
  datatype Config = Config(mss: nat, window: nat, scale: nat, retries: nat)

  datatype ControlBlock = ControlBlock(key: Key, sendSeq: nat, sendWindow: nat, sendScale: nat, mss: nat,
                                       recvSeq: nat, recvWindow: nat, recvScale: nat)

  datatype Fail = Malformed | ConnectionRefused | Timeout | ResourceBusy | ResourceExhausted | ResourceNotFound

  datatype Result = Ok(cb: ControlBlock) | Err(fail: Fail)

  /** What a panic is about: the bookkeeping maps, an out-of-range window shift, or a missing link address. */
  datatype Panic = Maps | Window | Link

  datatype Reply = Done | Pending | Failed(fail: Fail) | Panicked(why: Panic)

  /** The next sequence number, modulo 2^32. */
  function Next(x: nat): (r: nat)
    ensures r < 0x1_0000_0000
  {
    Wrap32(x + 1)
  }

  /** Left shift inside a 16-bit word: bits pushed past the top are lost. */
  function Shl16(x: nat, n: nat): (r: nat)
    ensures r < 0x1_0000
  {
    (x * Pow2(n)) % 0x1_0000
  }

  /** Left shift inside a 32-bit word. */
  function Shl32(x: nat, n: nat): (r: nat)
    ensures r < 0x1_0000_0000
  {
    Wrap32(x * Pow2(n))
  }

  /** The last maximum-segment option wins; without one the fallback applies. */
  function LastMss(options: seq<TcpOption>): nat {
    if options == [] then FALLBACK_MSS
    else if options[|options| - 1].MaxSegment? then options[|options| - 1].mss
    else LastMss(options[..|options| - 1])
  }

  /** The last window-scale option wins; without one there is no scaling. */
  function LastScale(options: seq<TcpOption>): Option<nat> {
    if options == [] then None
    else if options[|options| - 1].WindowScale? then Some(options[|options| - 1].shift)
    else LastScale(options[..|options| - 1])
  }

  /** The loop over a header's options computes both at once. */
  method ScanOptions(options: seq<TcpOption>) returns (mss: nat, scale: Option<nat>)
    ensures mss == LastMss(options)
    ensures scale == LastScale(options)
  {
    scale := None;
    mss := FALLBACK_MSS;
    for i := 0 to |options|
      invariant mss == LastMss(options[..i])
      invariant scale == LastScale(options[..i])
    {
      assert options[..i + 1][..i] == options[..i];
      match options[i] {
        case WindowScale(w) => scale := Some(w);
        case MaxSegment(m) => mss := m;
        case Other =>
      }
    }
    assert options[..|options|] == options;
  }

  /** The options both sides put on a SYN, in this order; the segment size is cut to 16 bits. */
  function Advertise(c: Config): seq<TcpOption> {
    [MaxSegment(c.mss % 0x1_0000), WindowScale(c.scale)]
  }

  /** What the other side reads out of an advertisement. */
  lemma AdvertiseScan(c: Config)
    ensures LastMss(Advertise(c)) == c.mss % 0x1_0000
    ensures LastScale(Advertise(c)) == Some(c.scale)
  {
    var o := Advertise(c);
    assert o[..1] == [MaxSegment(c.mss % 0x1_0000)];
  }

  // ---------------------------------------------------------------------------
  // The listener
  // ---------------------------------------------------------------------------

  /** A half-open connection together with the state of its SYN+ACK task. */
  datatype Inflight = Inflight(localIsn: nat, remoteIsn: nat, window: nat, scale: Option<nat>, mss: nat,
                               tries: nat, expired: bool)

  datatype Listener = Listener(local: Endpoint, backlog: nat, inflight: map<Endpoint, Inflight>,
                               ready: seq<Result>, endpoints: set<Endpoint>)

  function NewListener(local: Endpoint, backlog: nat): Listener {
    Listener(local, backlog, map[], [], {})
  }

  /** Whether the shifts made when a half-open connection completes are in range. */
  predicate ShiftsFit(f: Inflight, c: Config) {
    f.scale.Some? ==> f.scale.value < 16 && c.scale < 32
  }

  /** The control block of a completed half-open connection. */
  function Completed(local: Endpoint, remote: Endpoint, f: Inflight, c: Config): ControlBlock {
    var localScale := if f.scale.Some? then c.scale else 0;
    var remoteScale := if f.scale.Some? then f.scale.value else 0;
    ControlBlock(Key(local, remote), Next(f.localIsn), Shl16(f.window, remoteScale), remoteScale, f.mss,
                 Next(f.remoteIsn), Shl32(c.window, localScale), localScale)
  }

  /** The half-open connection a SYN starts. */
  function Begun(h: Header, isn: nat, c: Config): Inflight {
    Inflight(isn, h.seqNum, h.window, LastScale(h.options), LastMss(h.options), c.retries, false)
  }

  /** Append a finished connection; its remote must not be queued already. */
  function PushOk(l: Listener, cb: ControlBlock): (Listener, Reply) {
    if cb.key.remote in l.endpoints then (l, Panicked(Maps))
    else (l.(endpoints := l.endpoints + {cb.key.remote}, ready := l.ready + [Ok(cb)]), Done)
  }

  /** One segment from `remote`; `isn` is what the sequence-number generator would return. */
  function ListenerReceive(l: Listener, c: Config, remote: Endpoint, h: Header, isn: nat): (Listener, Reply) {
    if remote in l.endpoints then
      (l, Done)
    else if remote in l.inflight then
      var f := l.inflight[remote];
      if !h.ack then (l, Failed(Malformed))
      else if h.ackNum != Next(f.localIsn) then (l, Failed(Malformed))
      else if !ShiftsFit(f, c) then (l, Panicked(Window))
      else PushOk(l.(inflight := l.inflight - {remote}), Completed(l.local, remote, f, c))
    else if !h.syn || h.ack || h.rst then
      (l, Failed(Malformed))
    else if |l.inflight| + |l.ready| >= l.backlog then
      (l, Failed(ConnectionRefused))
    else
      (l.(inflight := l.inflight[remote := Begun(h, isn, c)]), Done)
  }

  /** Take the oldest queued result. */
  function ListenerPoll(l: Listener): (Listener, Option<Result>, Reply) {
    if l.ready == [] then (l, None, Pending)
    else
      var r := l.ready[0];
      if r.Ok? && r.cb.key.remote !in l.endpoints then (l, None, Panicked(Maps))
      else
        (l.(ready := l.ready[1..],
            endpoints := if r.Ok? then l.endpoints - {r.cb.key.remote} else l.endpoints), Some(r), Done)
  }

  predicate CanAnswer(l: Listener, remote: Endpoint) {
    remote in l.inflight && l.inflight[remote].tries > 0
  }

  /** The SYN+ACK the task of a half-open connection sends. */
  function SynAck(f: Inflight, c: Config): Header {
    Header(true, true, false, f.localIsn, Next(f.remoteIsn), c.window, Advertise(c))
  }

  /** One turn of the task's loop; a failed link-address query uses up a try as well. */
  function ListenerTry(l: Listener, remote: Endpoint): Listener
    requires CanAnswer(l, remote)
  {
    var f := l.inflight[remote];
    l.(inflight := l.inflight[remote := f.(tries := f.tries - 1)])
  }

  predicate CanExpire(l: Listener, remote: Endpoint) {
    remote in l.inflight && l.inflight[remote].tries == 0 && !l.inflight[remote].expired
  }

  /** The end of the task: an error is queued, and the half-open connection stays where it is. */
  function ListenerExpire(l: Listener, remote: Endpoint): Listener
    requires CanExpire(l, remote)
  {
    l.(inflight := l.inflight[remote := l.inflight[remote].(expired := true)], ready := l.ready + [Err(Timeout)])
  }

  // ---------------------------------------------------------------------------
  // The active side
  // ---------------------------------------------------------------------------

  datatype Active = Active(key: Key, isn: nat, tries: nat, expired: bool, result: Option<Result>)

  function Syn(isn: nat, c: Config): Header {
    Header(true, false, false, isn, 0, c.window, Advertise(c))
  }

  function ActiveTry(a: Active): Active
    requires a.tries > 0
  {
    a.(tries := a.tries - 1)
  }

  /** The task gave up: whatever result was waiting is replaced. */
  function ActiveExpire(a: Active): Active {
    a.(expired := true, result := Some(Err(Timeout)))
  }

  /** The acknowledgment of a SYN+ACK. */
  function Acknowledge(a: Active, c: Config, h: Header): Header {
    Header(false, true, false, Next(a.isn), Next(h.seqNum), c.window, [])
  }

  /** The control block an accepted SYN+ACK gives. */
  function Connected(a: Active, c: Config, h: Header): ControlBlock {
    var remote := LastScale(h.options);
    var localScale := if remote.Some? then c.scale else 0;
    var remoteScale := if remote.Some? then remote.value else 0;
    ControlBlock(a.key, Next(a.isn), Shl16(h.window, remoteScale), remoteScale, LastMss(h.options),
                 Next(h.seqNum), Shl16(c.window, localScale), localScale)
  }

  /** Whether the scale assertion made on a SYN+ACK holds. */
  predicate ScalesFit(h: Header, c: Config) {
    LastScale(h.options).Some? ==> c.scale <= 14 && LastScale(h.options).value <= 14
  }

  /** Whether a segment is the answer this socket waits for. */
  predicate Accepts(a: Active, h: Header) {
    h.ack && h.ackNum == Next(a.isn) && !h.rst && h.syn
  }

  /** One segment; `resolved` says whether the peer's link address is in the cache. */
  function ActiveReceive(a: Active, c: Config, h: Header, resolved: bool): (Active, Option<Header>, Reply) {
    if !(h.ack && h.ackNum == Next(a.isn)) then (a, None, Done)
    else if h.rst then (a.(result := Some(Err(ConnectionRefused))), None, Done)
    else if !h.syn then (a, None, Done)
    else if !resolved then (a, None, Panicked(Link))
    else if !ScalesFit(h, c) then (a, Some(Acknowledge(a, c, h)), Panicked(Window))
    else (a.(result := Some(Ok(Connected(a, c, h)))), Some(Acknowledge(a, c, h)), Done)
  }

  // ---------------------------------------------------------------------------
  // What one handshake agrees on
  // ---------------------------------------------------------------------------

  /** The two ends of one connection describe the same connection, windows aside. */
  predicate Mirror(p: ControlBlock, a: ControlBlock) {
    && p.key == Key(a.key.remote, a.key.local)
    && p.sendSeq == a.recvSeq && p.recvSeq == a.sendSeq
    && p.sendScale == a.recvScale && p.recvScale == a.sendScale
  }

  lemma Pow2Bound(n: nat)
    requires n <= 14
    ensures Pow2(n) <= 0x4000
    decreases 14 - n
  {
    if n == 14 {
      assert Pow2(4) == 16;
      assert Pow2(8) == 16 * Pow2(4);
      assert Pow2(12) == 16 * Pow2(8);
      assert Pow2(14) == 0x4000;
    } else {
      Pow2Bound(n + 1);
      assert Pow2(n + 1) == 2 * Pow2(n);
    }
  }

  /**
   * A listener and an active socket that exchanged SYN, SYN+ACK and ACK hold control blocks that
   * mirror each other, each with the segment size the other advertised. The window the client may
   * fill is the same on both sides. The window the server may fill is the same exactly when the
   * scaled value still fits 16 bits: the client shifts inside 16 bits, the server inside 32.
   */
  lemma HandshakeMirrors(a: Active, ca: Config, f: Inflight, cp: Config, isn: nat)
    requires ca.scale <= 14 && cp.scale <= 14 && ca.window < 0x1_0000 && cp.window < 0x1_0000
    requires f == Begun(Syn(a.isn, ca), isn, cp)
    ensures var p, q := Completed(a.key.remote, a.key.local, f, cp), Connected(a, ca, SynAck(f, cp));
            && Mirror(p, q)
            && p.mss == ca.mss % 0x1_0000 && q.mss == cp.mss % 0x1_0000
            && p.sendWindow == q.recvWindow
            && (p.recvWindow == q.sendWindow <==> cp.window * Pow2(cp.scale) < 0x1_0000)
  {
    AdvertiseScan(ca);
    AdvertiseScan(cp);
    Pow2Bound(cp.scale);
    var x := cp.window * Pow2(cp.scale);
    assert x <= 0x1_0000 * 0x4000 by {
      MulBound(cp.window, Pow2(cp.scale), 0x1_0000, 0x4000);
    }
    assert Shl32(cp.window, cp.scale) == x;
  }

  /**
   * The handshake can complete. The SYN+ACK for a SYN is the answer its sender waits for; the header
   * sent in reply carries the numbers both blocks hold, and at any listener that still has the
   * half-open connection it ends it: the connection is queued behind what was ready.
   */
  lemma HandshakeCompletes(a: Active, ca: Config, f: Inflight, cp: Config, isn: nat, l: Listener, newIsn: nat)
    requires ca.scale <= 14 && cp.scale <= 14
    requires f == Begun(Syn(a.isn, ca), isn, cp)
    requires a.key.local in l.inflight && a.key.local !in l.endpoints
    requires var g := l.inflight[a.key.local]; g == f.(tries := g.tries, expired := g.expired)
    ensures Accepts(a, SynAck(f, cp)) && !Syn(a.isn, ca).ack && Syn(a.isn, ca).ackNum == 0
    ensures var (b, sent, reply) := ActiveReceive(a, ca, SynAck(f, cp), true);
            && b == a.(result := Some(Ok(Connected(a, ca, SynAck(f, cp))))) && reply == Done && sent.Some?
            && sent.value.ack && !sent.value.syn && !sent.value.rst && sent.value.options == []
            && sent.value.seqNum == (a.isn + 1) % 0x1_0000_0000 && sent.value.seqNum == b.result.value.cb.sendSeq
            && sent.value.ackNum == (isn + 1) % 0x1_0000_0000 && sent.value.ackNum == b.result.value.cb.recvSeq
            && sent.value.window == ca.window
            && ListenerReceive(l, cp, a.key.local, sent.value, newIsn) ==
               (l.(inflight := l.inflight - {a.key.local}, endpoints := l.endpoints + {a.key.local},
                   ready := l.ready + [Ok(Completed(l.local, a.key.local, f, cp))]), Done)
  {
    AdvertiseScan(ca);
    AdvertiseScan(cp);
    hide Shl16, Shl32, LastMss, LastScale, Advertise;
  }

  /** Without a window-scale option from the other side neither side scales. */
  lemma UnscaledHandshake(a: Active, ca: Config, f: Inflight, cp: Config, local: Endpoint, h: Header)
    requires ca.window < 0x1_0000 && cp.window < 0x1_0000 && f.window < 0x1_0000 && h.window < 0x1_0000
    ensures f.scale.None? ==>
              var p := Completed(local, a.key.local, f, cp);
              p.sendScale == p.recvScale == 0 && p.sendWindow == f.window && p.recvWindow == cp.window
    ensures LastScale(h.options).None? ==>
              var q := Connected(a, ca, h);
              q.sendScale == q.recvScale == 0 && q.sendWindow == h.window && q.recvWindow == ca.window
  {
    hide LastScale, LastMss, Next;
    assert Pow2(0) == 1;
  }

  /** A reset that acknowledges the SYN refuses the connection; one that does not is ignored. */
  lemma ResetRefuses(a: Active, c: Config, h: Header, resolved: bool)
    requires h.rst
    ensures ActiveReceive(a, c, h, resolved) ==
            (if h.ack && h.ackNum == (a.isn + 1) % 0x1_0000_0000 then a.(result := Some(Err(ConnectionRefused))) else a,
             None, Done)
  {
  }

  lemma MulBound(x: nat, y: nat, m: nat, n: nat)
    requires x <= m && y <= n
    ensures x * y <= m * n
  {
    assert x * y <= m * y;
    assert m * y <= m * n;
  }
}
