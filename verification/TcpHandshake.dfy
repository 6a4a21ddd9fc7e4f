/** A whole handshake between two fresh hosts, from the first call to two established connections. */
module TcpHandshake {
  import opened Common
  import opened Tcp
  import opened TcpPeer
  import opened TcpWorld

  // ---------------------------------------------------------------------------
  // The host that listens, with one listener on its first descriptor
  // ---------------------------------------------------------------------------

  ghost predicate ServerAt(p: Peer, e: Endpoint, l: Listener) {
    && p.sockets == map[0 := Listening(e)] && p.nextFd == 1
    && p.listeners == map[e := l] && p.connecting == map[] && p.established == map[]
  }

  lemma ServerHears(p: Peer, e: Endpoint, l: Listener, pkt: Packet, isn: nat)
    requires ServerAt(p, e, l) && pkt.dst == e && e.addr == p.addr && !BadSource(pkt.src.addr)
    ensures var c := Segment(pkt, isn, true);
            var (m, reply) := ListenerReceive(l, p.config, pkt.src, pkt.header, isn);
            && Allowed(p, c) && Sent(p, c) == {}
            && ServerAt(Perform(p, c).0, e, m) && Perform(p, c).1 == reply
            && Perform(p, c).0.addr == p.addr && Perform(p, c).0.config == p.config
  {
    hide ListenerReceive, BadSource, Completed;
    var m := ListenerReceive(l, p.config, pkt.src, pkt.header, isn).0;
    assert map[e := l][e := m] == map[e := m];
  }

  lemma ServerAnswers(p: Peer, e: Endpoint, l: Listener, remote: Endpoint)
    requires ServerAt(p, e, l) && CanAnswer(l, remote)
    ensures var c := TaskSynAck(Key(e, remote), true);
            && Allowed(p, c) && Sent(p, c) == {Packet(e, remote, SynAck(l.inflight[remote], p.config))}
            && ServerAt(Perform(p, c).0, e, ListenerTry(l, remote)) && Perform(p, c).1 == Done
            && Perform(p, c).0.addr == p.addr && Perform(p, c).0.config == p.config
  {
    hide SynAck;
    assert map[e := l][e := ListenerTry(l, remote)] == map[e := ListenerTry(l, remote)];
  }

  lemma ServerAccepts(p: Peer, e: Endpoint, l: Listener, cb: ControlBlock)
    requires ServerAt(p, e, l) && l.ready == [Ok(cb)] && cb.key.remote in l.endpoints
    ensures var q := Perform(p, CallAccept(0)).0;
            && Allowed(p, CallAccept(0)) && Sent(p, CallAccept(0)) == {} && Perform(p, CallAccept(0)).1 == Done
            && cb.key in q.established && q.established[cb.key] == cb
  {
  }

  // ---------------------------------------------------------------------------
  // The host that connects, on its first descriptor
  // ---------------------------------------------------------------------------

  ghost predicate ClientAt(p: Peer, a: Active) {
    && p.sockets == map[0 := Connecting(a.key)]
    && p.connecting == map[a.key := a] && p.established == map[]
  }

  lemma ClientSends(p: Peer, a: Active)
    requires ClientAt(p, a) && a.tries > 0
    ensures var c := TaskSyn(a.key, true);
            && Allowed(p, c) && Sent(p, c) == {Packet(a.key.local, a.key.remote, Syn(a.isn, p.config))}
            && ClientAt(Perform(p, c).0, ActiveTry(a)) && Perform(p, c).1 == Done
            && Perform(p, c).0.addr == p.addr && Perform(p, c).0.config == p.config
  {
    hide Syn;
    assert map[a.key := a][a.key := ActiveTry(a)] == map[a.key := ActiveTry(a)];
  }

  lemma ClientHears(p: Peer, a: Active, pkt: Packet, isn: nat)
    requires ClientAt(p, a) && pkt.dst == a.key.local && pkt.src == a.key.remote && pkt.dst.addr == p.addr
    requires !BadSource(pkt.src.addr)
    ensures var c := Segment(pkt, isn, true);
            var (b, sent, reply) := ActiveReceive(a, p.config, pkt.header, true);
            && Allowed(p, c) && Perform(p, c).1 == reply
            && Sent(p, c) == (if sent.Some? then {Packet(a.key.local, a.key.remote, sent.value)} else {})
            && (b.key == a.key ==> ClientAt(Perform(p, c).0, b))
            && Perform(p, c).0.addr == p.addr && Perform(p, c).0.config == p.config
  {
    hide ActiveReceive, BadSource, Connected;
    var b := ActiveReceive(a, p.config, pkt.header, true).0;
    assert Key(pkt.dst, pkt.src) == a.key;
    assert map[a.key := a][a.key := b] == map[a.key := b];
  }

  lemma ClientFinishes(p: Peer, a: Active)
    requires ClientAt(p, a) && a.result.Some? && a.result.value.Ok?
    ensures var q := Perform(p, CallPoll(0)).0;
            && Allowed(p, CallPoll(0)) && Sent(p, CallPoll(0)) == {} && Perform(p, CallPoll(0)).1 == Done
            && a.key in q.established && q.established[a.key] == a.result.value.cb
  {
  }

  // ---------------------------------------------------------------------------
  // Both together
  // ---------------------------------------------------------------------------

  /** A world in which host `a` has become `p` and `net` holds more segments. */
  function With(w: World, a: nat, p: Peer, more: set<Packet>): World {
    World(w.hosts[a := p], w.net + more)
  }

  /** The step number `i` of a run is made by a host. */
  lemma HostStep(w: World, steps: seq<Step>, i: nat, a: nat, c: Call)
    requires i < |steps| && steps[i] == Host(a, c)
    requires a in w.hosts && Allowed(w.hosts[a], c) && (c.Segment? ==> c.pkt in w.net)
    requires !Perform(w.hosts[a], c).1.Panicked?
    ensures Run(w, steps[i..])
         == Run(With(w, a, Perform(w.hosts[a], c).0, Sent(w.hosts[a], c)), steps[i + 1..])
  {
    hide Allowed, Perform, Sent;
    assert steps[i..][1..] == steps[i + 1..];
    assert steps[i..][0] == Host(a, c);
  }

  /** The segments of the three-way handshake. */
  function SynPkt(k: Key, isn: nat, c: Config): Packet {
    Packet(k.local, k.remote, Syn(isn, c))
  }

  function SynAckPkt(k: Key, f: Inflight, c: Config): Packet {
    Packet(k.remote, k.local, SynAck(f, c))
  }

  function AckPkt(a: Active, ca: Config, f: Inflight, cp: Config): Packet {
    Packet(a.key.local, a.key.remote, Acknowledge(a, ca, SynAck(f, cp)))
  }

  /** Socket, bind and listen on one host; socket, connect and the SYN on the other; then the exchange. */
  function Handshake(server: nat, port: nat, backlog: nat, a: Active, ca: Config, f: Inflight, cp: Config): seq<Step> {
    var k, c := a.key, a.key.local.addr;
    [Host(server, CallSocket), Host(server, CallBind(0, k.remote)), Host(server, CallListen(0, backlog)),
     Host(c, CallSocket), Host(c, CallConnect(0, k.remote, a.isn)), Host(c, TaskSyn(k, true)),
     Host(server, Segment(SynPkt(k, a.isn, ca), f.localIsn, true)), Host(server, TaskSynAck(Reverse(k), true)),
     Host(c, Segment(SynAckPkt(k, f, cp), 0, true)), Host(server, Segment(AckPkt(a, ca, f, cp), 0, true)),
     Host(c, CallPoll(0)), Host(server, CallAccept(0))]
  }

  /** Only host `a` changed, it is still the same host, and no segment was lost. */
  ghost predicate OnlyHost(w: World, w': World, a: nat) {
    && a in w.hosts && w'.hosts.Keys == w.hosts.Keys && w.net <= w'.net
    && (forall x :: x in w.hosts && x != a ==> w'.hosts[x] == w.hosts[x])
    && w'.hosts[a].addr == w.hosts[a].addr && w'.hosts[a].config == w.hosts[a].config
  }

  lemma OneStep(w: World, steps: seq<Step>, i: nat, a: nat, c: Call) returns (w': World)
    requires i < |steps| && steps[i] == Host(a, c)
    requires a in w.hosts && Allowed(w.hosts[a], c) && (c.Segment? ==> c.pkt in w.net)
    requires !Perform(w.hosts[a], c).1.Panicked?
    requires Perform(w.hosts[a], c).0.addr == w.hosts[a].addr && Perform(w.hosts[a], c).0.config == w.hosts[a].config
    ensures Run(w, steps[i..]) == Run(w', steps[i + 1..]) && OnlyHost(w, w', a)
    ensures w'.hosts[a] == Perform(w.hosts[a], c).0 && Sent(w.hosts[a], c) <= w'.net
  {
    hide Allowed, Perform, Sent, Run;
    HostStep(w, steps, i, a, c);
    w' := With(w, a, Perform(w.hosts[a], c).0, Sent(w.hosts[a], c));
  }

  lemma ServerSetsUp(w: World, steps: seq<Step>, s: nat, e: Endpoint, backlog: nat) returns (w': World)
    requires s in w.hosts && w.hosts[s] == Init(s, w.hosts[s].config, w.hosts[s].ports) && e.port < FIRST_PRIVATE_PORT
    requires |steps| >= 3 && steps[0] == Host(s, CallSocket) && steps[1] == Host(s, CallBind(0, e))
    requires steps[2] == Host(s, CallListen(0, backlog))
    ensures Run(w, steps[0..]) == Run(w', steps[3..]) && OnlyHost(w, w', s)
    ensures ServerAt(w'.hosts[s], e, NewListener(e, backlog))
  {
    hide Run;
    var w1 := OneStep(w, steps, 0, s, CallSocket);
    assert w1.hosts[s].sockets == map[0 := Inactive(None)];
    var w2 := OneStep(w1, steps, 1, s, CallBind(0, e));
    assert w2.hosts[s].sockets == map[0 := Inactive(Some(e))];
    w' := OneStep(w2, steps, 2, s, CallListen(0, backlog));
    assert w'.hosts[s].sockets == map[0 := Listening(e)];
  }

  lemma ClientSetsUp(w: World, steps: seq<Step>, c: nat, a: Active) returns (w': World)
    requires c in w.hosts && w.hosts[c] == Init(c, w.hosts[c].config, w.hosts[c].ports) && w.hosts[c].ports != []
    requires a == Active(a.key, a.isn, w.hosts[c].config.retries, false, None) && a.tries > 0
    requires a.key.local == Endpoint(c, w.hosts[c].ports[|w.hosts[c].ports| - 1])
    requires |steps| >= 6 && steps[3] == Host(c, CallSocket) && steps[4] == Host(c, CallConnect(0, a.key.remote, a.isn))
    requires steps[5] == Host(c, TaskSyn(a.key, true))
    ensures Run(w, steps[3..]) == Run(w', steps[6..]) && OnlyHost(w, w', c)
    ensures ClientAt(w'.hosts[c], ActiveTry(a)) && SynPkt(a.key, a.isn, w.hosts[c].config) in w'.net
  {
    hide Run, Syn;
    var w1 := OneStep(w, steps, 3, c, CallSocket);
    assert w1.hosts[c].sockets == map[0 := Inactive(None)];
    var w2 := OneStep(w1, steps, 4, c, CallConnect(0, a.key.remote, a.isn));
    assert ClientAt(w2.hosts[c], a);
    ClientSends(w2.hosts[c], a);
    w' := OneStep(w2, steps, 5, c, TaskSyn(a.key, true));
  }

  /** The listener takes the SYN and answers it. */
  lemma ServerReplies(w: World, steps: seq<Step>, s: nat, k: Key, h: Header, isn: nat, backlog: nat)
    returns (w': World)
    requires s in w.hosts && w.hosts[s].addr == s && w.hosts[s].config.retries > 0 && backlog > 0
    requires ServerAt(w.hosts[s], k.remote, NewListener(k.remote, backlog)) && k.remote.addr == s
    requires !BadSource(k.local.addr) && h.syn && !h.ack && !h.rst && Packet(k.local, k.remote, h) in w.net
    requires |steps| >= 8 && steps[6] == Host(s, Segment(Packet(k.local, k.remote, h), isn, true))
    requires steps[7] == Host(s, TaskSynAck(Reverse(k), true))
    ensures var cp := w.hosts[s].config;
            var f := Begun(h, isn, cp);
            && Run(w, steps[6..]) == Run(w', steps[8..]) && OnlyHost(w, w', s)
            && SynAckPkt(k, f, cp) in w'.net
            && ServerAt(w'.hosts[s], k.remote,
                        Listener(k.remote, backlog, map[k.local := f.(tries := f.tries - 1)], [], {}))
  {
    hide Run, SynAck, BadSource, LastMss, LastScale, Perform, Sent, Allowed;
    var e, l, cp := k.remote, NewListener(k.remote, backlog), w.hosts[s].config;
    var f := Begun(h, isn, cp);
    var pkt := Packet(k.local, e, h);
    ServerHears(w.hosts[s], e, l, pkt, isn);
    var m := l.(inflight := map[k.local := f]);
    assert ListenerReceive(l, cp, k.local, h, isn) == (m, Done);
    var w1 := OneStep(w, steps, 6, s, Segment(pkt, isn, true));
    ServerAnswers(w1.hosts[s], e, m, k.local);
    w' := OneStep(w1, steps, 7, s, TaskSynAck(Reverse(k), true));
    assert ListenerTry(m, k.local).inflight == map[k.local := f.(tries := f.tries - 1)];
  }

  /** The opener takes the SYN+ACK, acknowledges it, and the listener completes the connection. */
  lemma BothComplete(w: World, steps: seq<Step>, s: nat, a: Active, f: Inflight, backlog: nat) returns (w': World)
    requires var c := a.key.local.addr;
             && s in w.hosts && c in w.hosts && s != c && w.hosts[s].addr == s && w.hosts[c].addr == c
             && a.key.remote.addr == s && !BadSource(s) && !BadSource(c)
             && a.tries > 0 && f.tries > 0 && ClientAt(w.hosts[c], ActiveTry(a))
             && f == Begun(Syn(a.isn, w.hosts[c].config), f.localIsn, w.hosts[s].config)
             && w.hosts[s].config.scale <= 14 && w.hosts[c].config.scale <= 14
             && SynAckPkt(a.key, f, w.hosts[s].config) in w.net
             && ServerAt(w.hosts[s], a.key.remote,
                         Listener(a.key.remote, backlog, map[a.key.local := f.(tries := f.tries - 1)], [], {}))
             && |steps| >= 10 && steps[8] == Host(c, Segment(SynAckPkt(a.key, f, w.hosts[s].config), 0, true))
             && steps[9] == Host(s, Segment(AckPkt(a, w.hosts[c].config, f, w.hosts[s].config), 0, true))
    ensures var c := a.key.local.addr;
            var ca, cp := w.hosts[c].config, w.hosts[s].config;
            var cb := Completed(a.key.remote, a.key.local, f, cp);
            && Run(w, steps[8..]) == Run(w', steps[10..]) && w'.hosts.Keys == w.hosts.Keys
            && ClientAt(w'.hosts[c], ActiveTry(a).(result := Some(Ok(Connected(a, ca, SynAck(f, cp))))))
            && ServerAt(w'.hosts[s], a.key.remote,
                        Listener(a.key.remote, backlog, map[], [Ok(cb)], {a.key.local}))
            && w'.hosts[s].addr == s && w'.hosts[c].addr == c
            && w'.hosts[s].config == cp && w'.hosts[c].config == ca
  {
    hide Run, SynAck, BadSource, LastMss, LastScale, Perform, Sent, Allowed, Completed, Connected, Syn, Begun,
         ActiveReceive, ListenerReceive, Acknowledge;
    var c, ca, cp := a.key.local.addr, w.hosts[a.key.local.addr].config, w.hosts[s].config;
    var t := ActiveTry(a);
    var l := Listener(a.key.remote, backlog, map[a.key.local := f.(tries := f.tries - 1)], [], {});
    HandshakeCompletes(t, ca, f, cp, f.localIsn, l, 0);
    Tried(a, ca, f, cp);
    ClientHears(w.hosts[c], t, SynAckPkt(a.key, f, cp), 0);
    var w1 := OneStep(w, steps, 8, c, Segment(SynAckPkt(a.key, f, cp), 0, true));
    var ack := AckPkt(a, ca, f, cp);
    ServerHears(w1.hosts[s], a.key.remote, l, ack, 0);
    w' := OneStep(w1, steps, 9, s, Segment(ack, 0, true));
    assert l.inflight - {a.key.local} == map[];
    assert l.endpoints + {a.key.local} == {a.key.local} && l.ready + [Ok(Completed(a.key.remote, a.key.local, f, cp))]
        == [Ok(Completed(a.key.remote, a.key.local, f, cp))];
  }

  /** Using up a try changes neither the acknowledgment nor the block. */
  lemma Tried(a: Active, ca: Config, f: Inflight, cp: Config)
    requires a.tries > 0
    ensures Connected(ActiveTry(a), ca, SynAck(f, cp)) == Connected(a, ca, SynAck(f, cp))
    ensures ActiveReceive(ActiveTry(a), ca, SynAck(f, cp), true).1.Some? ==>
              ActiveReceive(ActiveTry(a), ca, SynAck(f, cp), true).1.value == Acknowledge(a, ca, SynAck(f, cp))
  {
    hide SynAck, LastMss, LastScale, Shl16;
  }

  /** Two hosts that can be connected: the opener's next port, the segments' numbers, and a try on each side. */
  ghost predicate Pair(w: World, s: nat, a: Active, f: Inflight, port: nat) {
    var c := a.key.local.addr;
    && s in w.hosts && c in w.hosts && s != c && !BadSource(s) && !BadSource(c)
    && w.hosts[s] == Init(s, w.hosts[s].config, w.hosts[s].ports)
    && w.hosts[c] == Init(c, w.hosts[c].config, w.hosts[c].ports) && w.hosts[c].ports != []
    && a.key == Key(Endpoint(c, w.hosts[c].ports[|w.hosts[c].ports| - 1]), Endpoint(s, port))
    && a == Active(a.key, a.isn, w.hosts[c].config.retries, false, None) && a.tries > 0
    && f == Begun(Syn(a.isn, w.hosts[c].config), f.localIsn, w.hosts[s].config) && f.tries > 0
  }

  /** Socket, bind, listen, socket, connect, SYN, and the answer to it. */
  lemma FirstHalf(w: World, steps: seq<Step>, s: nat, a: Active, f: Inflight, port: nat, backlog: nat)
    returns (w': World)
    requires Pair(w, s, a, f, port) && port < FIRST_PRIVATE_PORT && backlog > 0
    requires steps == Handshake(s, port, backlog, a, w.hosts[a.key.local.addr].config, f, w.hosts[s].config)
    ensures var c := a.key.local.addr;
            && Run(w, steps) == Run(w', steps[8..]) && w'.hosts.Keys == w.hosts.Keys
            && ClientAt(w'.hosts[c], ActiveTry(a)) && SynAckPkt(a.key, f, w.hosts[s].config) in w'.net
            && ServerAt(w'.hosts[s], a.key.remote,
                        Listener(a.key.remote, backlog, map[a.key.local := f.(tries := f.tries - 1)], [], {}))
            && w'.hosts[s].addr == s && w'.hosts[c].addr == c
            && w'.hosts[s].config == w.hosts[s].config && w'.hosts[c].config == w.hosts[c].config
  {
    hide Run, BadSource, Syn, SynAck, Acknowledge, LastMss, LastScale, Perform;
    var k, c := a.key, a.key.local.addr;
    assert steps[0..] == steps;
    var w1 := ServerSetsUp(w, steps, s, k.remote, backlog);
    var w2 := ClientSetsUp(w1, steps, c, a);
    SynFlags(a.isn, w.hosts[c].config);
    w' := ServerReplies(w2, steps, s, k, Syn(a.isn, w.hosts[c].config), f.localIsn, backlog);
  }

  /**
   * Two fresh hosts can connect: the run from the first socket call to `accept` is possible step by step
   * and ends with the connection established on both sides, and both sides agree on it.
   */
  lemma HandshakeHappens(w: World, s: nat, a: Active, f: Inflight, port: nat, backlog: nat)
    requires Fresh(w) && Pair(w, s, a, f, port) && port < FIRST_PRIVATE_PORT && backlog > 0
    ensures var c := a.key.local.addr;
            var run := Run(w, Handshake(s, port, backlog, a, w.hosts[c].config, f, w.hosts[s].config));
            && run.Some? && s in run.value.hosts && c in run.value.hosts
            && var p, q := run.value.hosts[s], run.value.hosts[c];
            && Reverse(a.key) in p.established && a.key in q.established
            && Agreed(p.established[Reverse(a.key)], w.hosts[s].config, q.established[a.key], w.hosts[c].config)
  {
    hide Run, Agreed, BadSource, Completed, Connected, Syn, SynAck, Acknowledge, Begun, PortsInv, ClientAt, ServerAt;
    var k, c := a.key, a.key.local.addr;
    var ca, cp := w.hosts[c].config, w.hosts[s].config;
    var steps := Handshake(s, port, backlog, a, ca, f, cp);
    var w3 := FirstHalf(w, steps, s, a, f, port, backlog);
    var w4 := BothComplete(w3, steps, s, a, f, backlog);
    CompletedKey(k.remote, k.local, f, cp);
    Closing(w4, steps, s, a, Completed(k.remote, k.local, f, cp), Connected(a, ca, SynAck(f, cp)), backlog);
    Agree(a, ca, f, cp);
  }

  lemma SynFlags(isn: nat, c: Config)
    ensures Syn(isn, c).syn && !Syn(isn, c).ack && !Syn(isn, c).rst
  {
  }

  lemma Agree(a: Active, ca: Config, f: Inflight, cp: Config)
    requires ca.scale <= 14 && cp.scale <= 14 && ca.window < 0x1_0000 && cp.window < 0x1_0000
    requires f == Begun(Syn(a.isn, ca), f.localIsn, cp)
    ensures Agreed(Completed(a.key.remote, a.key.local, f, cp), cp, Connected(a, ca, SynAck(f, cp)), ca)
  {
    hide Completed, Connected, SynAck, Syn, Begun;
    HandshakeMirrors(a, ca, f, cp, f.localIsn);
  }

  /** The two calls that fetch the finished connections. */
  lemma Closing(w: World, steps: seq<Step>, s: nat, a: Active, cb: ControlBlock, cq: ControlBlock, backlog: nat)
    requires var c := a.key.local.addr;
             && s in w.hosts && c in w.hosts && s != c && cb.key == Reverse(a.key) && a.tries > 0
             && ClientAt(w.hosts[c], ActiveTry(a).(result := Some(Ok(cq))))
             && ServerAt(w.hosts[s], a.key.remote, Listener(a.key.remote, backlog, map[], [Ok(cb)], {a.key.local}))
             && |steps| == 12 && steps[10] == Host(c, CallPoll(0)) && steps[11] == Host(s, CallAccept(0))
    ensures var c := a.key.local.addr;
            var run := Run(w, steps[10..]);
            && run.Some? && s in run.value.hosts && c in run.value.hosts
            && Reverse(a.key) in run.value.hosts[s].established && a.key in run.value.hosts[c].established
            && run.value.hosts[s].established[Reverse(a.key)] == cb && run.value.hosts[c].established[a.key] == cq
  {
    hide Run, Perform, Sent, Allowed;
    var c := a.key.local.addr;
    ClientFinishes(w.hosts[c], ActiveTry(a).(result := Some(Ok(cq))));
    HostStep(w, steps, 10, c, CallPoll(0));
    var w1 := With(w, c, Perform(w.hosts[c], CallPoll(0)).0, Sent(w.hosts[c], CallPoll(0)));
    ServerAccepts(w1.hosts[s], a.key.remote, Listener(a.key.remote, backlog, map[], [Ok(cb)], {a.key.local}), cb);
    HostStep(w1, steps, 11, s, CallAccept(0));
    RunDone(With(w1, s, Perform(w1.hosts[s], CallAccept(0)).0, Sent(w1.hosts[s], CallAccept(0))), steps[12..]);
  }

  lemma RunDone(w: World, steps: seq<Step>)
    requires steps == []
    ensures Run(w, steps) == Some(w)
  {
  }
}
