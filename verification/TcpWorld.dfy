/**
 * Any number of hosts that all run the TCP peer, joined by a network that may lose, duplicate,
 * delay and reorder segments: every segment ever sent stays available for delivery, any number of
 * times or never. Hosts outside the model may send whatever they like under their own addresses.
 */
module TcpWorld {
  import opened Common
  import opened Tcp
  import opened TcpPeer

  datatype World = World(hosts: map<nat, Peer>, net: set<Packet>)

  /** A call of the application, a turn of a background task, or the arrival of a segment. */
  datatype Call =
    | CallSocket
    | CallOther
    | CallBind(fd: nat, local: Endpoint)
    | CallListen(fd: nat, backlog: nat)
    | CallAccept(fd: nat)
    | CallConnect(fd: nat, remote: Endpoint, isn: nat)
    | CallPoll(fd: nat)
    | TaskSyn(key: Key, resolved: bool)
    | TaskGiveUp(key: Key)
    | TaskSynAck(key: Key, resolved: bool)
    | TaskDrop(key: Key)
    | Segment(pkt: Packet, isn: nat, resolved: bool)

  predicate Allowed(p: Peer, c: Call) {
    match c
    case TaskSyn(key, _) => CanSyn(p, key)
    case TaskGiveUp(key) => CanGiveUp(p, key)
    case TaskSynAck(key, _) => CanSynAck(p, key)
    case TaskDrop(key) => CanDrop(p, key)
    case Segment(pkt, _, _) => OwnAddress(p, pkt.dst.addr)
    case _ => true
  }

  function Perform(p: Peer, c: Call): (Peer, Reply)
    requires Allowed(p, c)
  {
    match c
    case CallSocket => NewSocket(p)
    case CallOther => (OtherDescriptor(p), Done)
    case CallBind(fd, local) => Bind(p, fd, local)
    case CallListen(fd, backlog) => Listen(p, fd, backlog)
    case CallAccept(fd) => Accept(p, fd)
    case CallConnect(fd, remote, isn) => Connect(p, fd, remote, isn)
    case CallPoll(fd) => PollConnect(p, fd)
    case TaskSyn(key, _) => (SynTry(p, key), Done)
    case TaskGiveUp(key) => (GiveUp(p, key), Done)
    case TaskSynAck(key, _) => (SynAckTry(p, key), Done)
    case TaskDrop(key) => (DropTry(p, key), Done)
    case Segment(pkt, isn, resolved) => (Receive(p, pkt, isn, resolved).0, Receive(p, pkt, isn, resolved).2)
  }

  /** The segments a step sends. */
  function Sent(p: Peer, c: Call): set<Packet>
    requires Allowed(p, c)
  {
    match c
    case TaskSyn(key, resolved) =>
      if resolved then {Packet(key.local, key.remote, Syn(p.connecting[key].isn, p.config))} else {}
    case TaskSynAck(key, resolved) =>
      if resolved
      then {Packet(key.local, key.remote, SynAck(p.listeners[key.local].inflight[key.remote], p.config))} else {}
    case Segment(pkt, isn, resolved) =>
      var sent := Receive(p, pkt, isn, resolved).1;
      if sent.Some? then {Packet(pkt.dst, pkt.src, sent.value)} else {}
    case _ => {}
  }

  // ---------------------------------------------------------------------------
  // One peer, any run
  // ---------------------------------------------------------------------------

  /** Every step of a peer keeps its invariants, only adds to its log and trips no assertion on the maps. */
  lemma PerformKeeps(p: Peer, c: Call)
    requires PeerInv(p) && Allowed(p, c)
    ensures Kept(p, Perform(p, c).0) && Perform(p, c).1 != Panicked(Maps)
    ensures Perform(p, c).1.Panicked? ==> c.Segment?
  {
    hide PeerInv, Kept, Receive, Accept, Listen, Bind, Connect, PollConnect, NewSocket, SynTry, GiveUp, SynAckTry,
         DropTry, OtherDescriptor;
    match c
    case CallSocket => NewSocketKeeps(p);
    case CallOther => NewSocketKeeps(p);
    case CallBind(fd, local) => BindKeeps(p, fd, local);
    case CallListen(fd, backlog) => ListenKeeps(p, fd, backlog);
    case CallAccept(fd) => AcceptKeeps(p, fd);
    case CallConnect(fd, remote, isn) => ConnectKeeps(p, fd, remote, isn);
    case CallPoll(fd) => PollConnectKeeps(p, fd);
    case TaskSyn(key, _) => ActiveTasksKeep(p, key);
    case TaskGiveUp(key) => ActiveTasksKeep(p, key);
    case TaskSynAck(key, _) => ListenerTasksHold(p, key);
    case TaskDrop(key) => ListenerTasksHold(p, key);
    case Segment(pkt, isn, resolved) => ReceiveKeeps(p, pkt, isn, resolved);
  }

  // ---------------------------------------------------------------------------
  // Steps of the world
  // ---------------------------------------------------------------------------

  datatype Step =
    | Host(addr: nat, call: Call)
    | Stream(addr: nat, key: Key, header: Header)   // an established connection sends a segment without SYN
    | Foreign(pkt: Packet)                          // a host outside the model sends anything

  predicate Enabled(w: World, s: Step) {
    match s
    case Host(a, c) =>
      a in w.hosts && Allowed(w.hosts[a], c) && (c.Segment? ==> c.pkt in w.net)
      && !Perform(w.hosts[a], c).1.Panicked?
    case Stream(a, key, h) => a in w.hosts && key in w.hosts[a].established && !h.syn
    case Foreign(pkt) => pkt.src.addr !in w.hosts
  }

  function Apply(w: World, s: Step): World
    requires Enabled(w, s)
  {
    match s
    case Host(a, c) => World(w.hosts[a := Perform(w.hosts[a], c).0], w.net + Sent(w.hosts[a], c))
    case Stream(a, key, h) => w.(net := w.net + {Packet(key.local, key.remote, h)})
    case Foreign(pkt) => w.(net := w.net + {pkt})
  }

  /** Nothing is ever lost for good: what was in the network stays, and what a step sends joins it. */
  lemma NetworkKeeps(w: World, s: Step)
    requires Enabled(w, s)
    ensures var n := Apply(w, s).net;
            && w.net <= n && (forall x :: x in w.hosts ==> x in Apply(w, s).hosts)
            && match s
               case Host(a, c) => Sent(w.hosts[a], c) <= n && n <= w.net + Sent(w.hosts[a], c)
               case Stream(_, key, h) => Packet(key.local, key.remote, h) in n
               case Foreign(pkt) => pkt in n
  {
    hide Perform, Sent, Allowed;
  }

  // ---------------------------------------------------------------------------
  // The invariant
  // ---------------------------------------------------------------------------

  function Reverse(k: Key): (r: Key)
    ensures r.local == k.remote && r.remote == k.local
  {
    Key(k.remote, k.local)
  }

  ghost predicate HostGood(a: nat, p: Peer) {
    && PeerInv(p) && p.addr == a && a != BROADCAST
    && p.config.scale <= 14 && p.config.window < 0x1_0000
  }

  ghost predicate HostsInv(hosts: map<nat, Peer>) {
    forall a :: a in hosts ==> HostGood(a, hosts[a])
  }

  /** A segment in the network is one its sender had reason to send. */
  ghost predicate Justified(p: Peer, pkt: Packet) {
    var key, h := Key(pkt.src, pkt.dst), pkt.header;
    && (h.syn && !h.ack ==> key in p.log.started && h == Syn(p.log.started[key], p.config))
    && (h.syn && h.ack ==> key in p.log.offered && h == SynAck(p.log.offered[key], p.config))
    && (!h.syn && h.ack && pkt.src.port >= FIRST_PRIVATE_PORT ==> key in p.log.built)
  }

  ghost predicate NetInv(hosts: map<nat, Peer>, net: set<Packet>) {
    forall pkt :: pkt in net && pkt.src.addr in hosts ==> Justified(hosts[pkt.src.addr], pkt)
  }

  /** An answered SYN was sent by the host it names. */
  ghost predicate OfferGood(hosts: map<nat, Peer>, c: Config, k: Key, f: Inflight) {
    k.remote.addr in hosts ==>
      var r := hosts[k.remote.addr];
      && Reverse(k) in r.log.started
      && f == Begun(Syn(r.log.started[Reverse(k)], r.config), f.localIsn, c)
  }

  /** A control block built on the active side answers the offer of the host it names. */
  ghost predicate BuiltGood(hosts: map<nat, Peer>, c: Config, k: Key, isn: nat, cb: ControlBlock) {
    && !BadSource(k.remote.addr)
    && (k.remote.addr in hosts ==>
          var r := hosts[k.remote.addr];
          && Reverse(k) in r.log.offered
          && cb == Connected(Active(k, isn, 0, false, None), c, SynAck(r.log.offered[Reverse(k)], r.config)))
  }

  /** A connection completed by a listener was built on the other side before. */
  ghost predicate CompletedGood(hosts: map<nat, Peer>, k: Key) {
    k.remote.addr in hosts ==> Reverse(k) in hosts[k.remote.addr].log.built
  }

  ghost predicate OffersInv(hosts: map<nat, Peer>, p: Peer) {
    forall k :: k in p.log.offered ==> OfferGood(hosts, p.config, k, p.log.offered[k])
  }

  ghost predicate BuiltsInv(hosts: map<nat, Peer>, p: Peer) {
    forall k :: k in p.log.built && k in p.log.started ==>
      BuiltGood(hosts, p.config, k, p.log.started[k], p.log.built[k])
  }

  ghost predicate CompletesInv(hosts: map<nat, Peer>, p: Peer) {
    forall k :: k in p.log.completed ==> CompletedGood(hosts, k)
  }

  ghost predicate LogsInv(hosts: map<nat, Peer>) {
    forall a :: a in hosts ==>
      OffersInv(hosts, hosts[a]) && BuiltsInv(hosts, hosts[a]) && CompletesInv(hosts, hosts[a])
  }

  ghost predicate WorldInv(w: World) {
    HostsInv(w.hosts) && NetInv(w.hosts, w.net) && LogsInv(w.hosts)
  }

  // ---------------------------------------------------------------------------
  // Growth of the logs keeps what was known
  // ---------------------------------------------------------------------------

  ghost predicate HostsGrow(hosts: map<nat, Peer>, later: map<nat, Peer>) {
    && later.Keys == hosts.Keys
    && forall a :: a in hosts ==> Grows(hosts[a].log, later[a].log) && later[a].config == hosts[a].config
  }

  lemma GoodLater(hosts: map<nat, Peer>, later: map<nat, Peer>, c: Config, k: Key)
    requires HostsGrow(hosts, later)
    ensures forall f :: OfferGood(hosts, c, k, f) ==> OfferGood(later, c, k, f)
    ensures forall isn, cb :: BuiltGood(hosts, c, k, isn, cb) ==> BuiltGood(later, c, k, isn, cb)
    ensures CompletedGood(hosts, k) ==> CompletedGood(later, k)
  {
    hide Begun, Connected, Syn, SynAck, BadSource;
  }

  lemma JustifiedLater(p: Peer, q: Peer, pkt: Packet)
    requires Justified(p, pkt) && Grows(p.log, q.log) && q.config == p.config
    ensures Justified(q, pkt)
  {
    hide Syn, SynAck;
  }

  /** What a step of host `a` must add for the invariant to carry over: facts about its new log entries only. */
  ghost predicate NewGood(hosts: map<nat, Peer>, p: Peer, q: Peer) {
    && (forall k :: k in q.log.offered && k !in p.log.offered ==> OfferGood(hosts, p.config, k, q.log.offered[k]))
    && (forall k :: k in q.log.built && k in q.log.started ==>
          || (k in p.log.built && k in p.log.started && q.log.built[k] == p.log.built[k])
          || BuiltGood(hosts, p.config, k, q.log.started[k], q.log.built[k]))
    && (forall k :: k in q.log.completed && k !in p.log.completed ==> CompletedGood(hosts, k))
  }

  lemma LogsLater(hosts: map<nat, Peer>, later: map<nat, Peer>, p: Peer, q: Peer)
    requires HostsGrow(hosts, later) && Grows(p.log, q.log) && q.config == p.config
    requires OffersInv(hosts, p) && BuiltsInv(hosts, p) && CompletesInv(hosts, p)
    requires NewGood(hosts, p, q)
    ensures OffersInv(later, q) && BuiltsInv(later, q) && CompletesInv(later, q)
  {
    hide OfferGood, BuiltGood, CompletedGood, HostsGrow;
    forall k | k in q.log.offered ensures OfferGood(later, q.config, k, q.log.offered[k]) {
      GoodLater(hosts, later, q.config, k);
    }
    forall k | k in q.log.built && k in q.log.started
      ensures BuiltGood(later, q.config, k, q.log.started[k], q.log.built[k])
    {
      GoodLater(hosts, later, q.config, k);
    }
    forall k | k in q.log.completed ensures CompletedGood(later, k) {
      GoodLater(hosts, later, q.config, k);
    }
  }

  lemma NothingNew(hosts: map<nat, Peer>, p: Peer, q: Peer)
    requires q.log.offered == p.log.offered && q.log.built == p.log.built && q.log.completed == p.log.completed
    requires p.log.built.Keys <= p.log.started.Keys
    ensures NewGood(hosts, p, q)
  {
    hide OfferGood, BuiltGood, CompletedGood;
  }

  /** A step of one host carries the world's invariant over. */
  lemma Advance(w: World, a: nat, q: Peer, sent: set<Packet>)
    requires WorldInv(w) && a in w.hosts && Kept(w.hosts[a], q) && NewGood(w.hosts, w.hosts[a], q)
    requires forall pkt :: pkt in sent && pkt.src.addr in w.hosts ==> pkt.src.addr == a && Justified(q, pkt)
    ensures WorldInv(World(w.hosts[a := q], w.net + sent))
  {
    hide PeerInv, Justified, OffersInv, BuiltsInv, CompletesInv, NewGood, Grows;
    var hosts, later := w.hosts, w.hosts[a := q];
    assert HostsGrow(hosts, later) by {
      forall x | x in hosts ensures Grows(hosts[x].log, later[x].log) && later[x].config == hosts[x].config {
        SameLog(hosts[x].log);
      }
    }
    forall x | x in later
      ensures OffersInv(later, later[x]) && BuiltsInv(later, later[x]) && CompletesInv(later, later[x])
    {
      SameLog(hosts[x].log);
      if x != a { Built(hosts, x); NothingNew(hosts, hosts[x], hosts[x]); }
      LogsLater(hosts, later, hosts[x], later[x]);
    }
    forall pkt | pkt in w.net + sent && pkt.src.addr in later ensures Justified(later[pkt.src.addr], pkt) {
      if pkt in w.net {
        var x := pkt.src.addr;
        JustifiedLater(hosts[x], later[x], pkt);
      }
    }
  }

  lemma Built(hosts: map<nat, Peer>, x: nat)
    requires HostsInv(hosts) && x in hosts
    ensures hosts[x].log.built.Keys <= hosts[x].log.started.Keys
  {
  }

  // ---------------------------------------------------------------------------
  // Each step
  // ---------------------------------------------------------------------------

  /** Only an arriving segment adds to what was offered, built or completed. */
  lemma QuietLog(p: Peer, c: Call)
    requires Allowed(p, c) && !c.Segment?
    ensures var q := Perform(p, c).0;
            q.log.offered == p.log.offered && q.log.built == p.log.built && q.log.completed == p.log.completed
  {
  }

  lemma SynAckOf(f: Inflight, g: Inflight, c: Config)
    requires SameOffer(f, g)
    ensures SynAck(f, c) == SynAck(g, c)
  {
  }

  /** What the tasks send is justified by the log. */
  lemma TasksJustified(p: Peer, c: Call, pkt: Packet)
    requires PeerInv(p) && Allowed(p, c) && !c.Segment? && pkt in Sent(p, c)
    ensures Justified(Perform(p, c).0, pkt)
  {
    hide PeerInv, Syn, SynAck, Kept;
    if c.TaskSyn? {
      ActiveTasksKeep(p, c.key);
      SynShape(p.log.started[c.key], p.config);
    } else {
      ListenerTasksHold(p, c.key);
      var f := p.listeners[c.key.local].inflight[c.key.remote];
      SynAckOf(f, p.log.offered[c.key], p.config);
      SynAckShape(f, p.config);
    }
  }

  lemma SynShape(isn: nat, c: Config)
    ensures Syn(isn, c).syn && !Syn(isn, c).ack
  {
  }

  lemma SynAckShape(f: Inflight, c: Config)
    ensures SynAck(f, c).syn && SynAck(f, c).ack
  {
  }

  /** What the tasks send carries an address of the sender. */
  lemma TasksOwn(p: Peer, c: Call, pkt: Packet)
    requires PeerInv(p) && Allowed(p, c) && !c.Segment? && pkt in Sent(p, c)
    ensures OwnAddress(p, pkt.src.addr)
  {
    hide PeerInv, Syn, SynAck, Kept;
    if c.TaskSyn? {
      ActiveTasksKeep(p, c.key);
      LogAddresses(p, c.key);
    } else {
      ListenerTasksHold(p, c.key);
      LogAddresses(p, c.key);
    }
  }

  /** Logged connections start at an address of the host; the port tells which side the host is on. */
  lemma LogAddresses(p: Peer, k: Key)
    requires PeerInv(p)
    ensures k in p.log.started ==> k.local.addr == p.addr && k.local.port >= FIRST_PRIVATE_PORT
    ensures k in p.log.offered ==> OwnAddress(p, k.local.addr) && k.local.port < FIRST_PRIVATE_PORT
  {
  }

  lemma HostPart(w: World, a: nat)
    requires WorldInv(w) && a in w.hosts
    ensures HostGood(a, w.hosts[a]) && PeerInv(w.hosts[a]) && w.hosts[a].addr == a
    ensures BROADCAST !in w.hosts
    ensures OffersInv(w.hosts, w.hosts[a])
  {
    hide PeerInv;
  }

  lemma QuietStep(w: World, a: nat, c: Call)
    requires WorldInv(w) && Enabled(w, Host(a, c)) && !c.Segment?
    ensures WorldInv(Apply(w, Host(a, c)))
  {
    hide WorldInv, PeerInv, Kept, Perform, Sent, Justified, NewGood, OffersInv;
    HostPart(w, a);
    var p := w.hosts[a];
    var q := Perform(p, c).0;
    PerformKeeps(p, c);
    QuietLog(p, c);
    Built(w.hosts, a) by { Hosts(w); }
    NothingNew(w.hosts, p, q);
    forall pkt | pkt in Sent(p, c) && pkt.src.addr in w.hosts ensures pkt.src.addr == a && Justified(q, pkt) {
      TasksJustified(p, c, pkt);
      TasksOwn(p, c, pkt);
    }
    Advance(w, a, q, Sent(p, c));
  }

  lemma Hosts(w: World)
    requires WorldInv(w)
    ensures HostsInv(w.hosts)
  {
  }

  lemma Delivered(w: World, pkt: Packet)
    requires WorldInv(w) && pkt in w.net && pkt.src.addr in w.hosts
    ensures Justified(w.hosts[pkt.src.addr], pkt)
  {
  }

  /** An accepted SYN+ACK of a modelled host is the one that host offered. */
  lemma BuildsGood(w: World, a: nat, pkt: Packet)
    requires WorldInv(w) && a in w.hosts && pkt in w.net && !BadSource(pkt.src.addr)
    requires var key := Key(pkt.dst, pkt.src);
             key in w.hosts[a].connecting && Accepts(w.hosts[a].connecting[key], pkt.header)
    ensures var p, key := w.hosts[a], Key(pkt.dst, pkt.src);
            && key in p.log.started && p.connecting[key].isn == p.log.started[key] && p.connecting[key].key == key
            && BuiltGood(w.hosts, p.config, key, p.log.started[key], Connected(p.connecting[key], p.config, pkt.header))
  {
    hide WorldInv, PeerInv, SynAck, OffersInv, BadSource;
    HostPart(w, a);
    var p, key := w.hosts[a], Key(pkt.dst, pkt.src);
    ActiveAt(p, key);
    if pkt.src.addr in w.hosts { Delivered(w, pkt); }
    assert Reverse(key) == Key(pkt.src, pkt.dst);
  }

  lemma ActiveAt(p: Peer, key: Key)
    requires PeerInv(p) && key in p.connecting
    ensures ActiveGood(p.connecting[key], key, p.log.started, p.log.built)
    ensures key.local.port >= FIRST_PRIVATE_PORT
  {
  }

  lemma OneBuilt(hosts: map<nat, Peer>, p: Peer, q: Peer, key: Key, cb: ControlBlock)
    requires q.log == p.log.(built := p.log.built[key := cb]) && key in p.log.started
    requires p.log.built.Keys <= p.log.started.Keys
    requires BuiltGood(hosts, p.config, key, p.log.started[key], cb)
    ensures NewGood(hosts, p, q)
  {
    hide OfferGood, BuiltGood, CompletedGood;
  }

  lemma ConnectingStep(w: World, a: nat, pkt: Packet, isn: nat, resolved: bool)
    requires WorldInv(w) && Enabled(w, Host(a, Segment(pkt, isn, resolved)))
    requires var key := Key(pkt.dst, pkt.src);
             !BadSource(pkt.src.addr) && key !in w.hosts[a].established && key in w.hosts[a].connecting
    ensures WorldInv(Apply(w, Host(a, Segment(pkt, isn, resolved))))
  {
    hide WorldInv, PeerInv, Kept, NewGood, OffersInv, BadSource, BuiltGood, Connected;
    HostPart(w, a);
    var p, key, c := w.hosts[a], Key(pkt.dst, pkt.src), Segment(pkt, isn, resolved);
    var q := Perform(p, c).0;
    PerformKeeps(p, c);
    Built(w.hosts, a) by { Hosts(w); }
    if Accepts(p.connecting[key], pkt.header) {
      BuildsGood(w, a, pkt);
      OneBuilt(w.hosts, p, q, key, Connected(p.connecting[key], p.config, pkt.header));
      assert Sent(p, c) == {Packet(pkt.dst, pkt.src, Acknowledge(p.connecting[key], p.config, pkt.header))};
    } else {
      NothingNew(w.hosts, p, q);
      assert Sent(p, c) == {};
    }
    Advance(w, a, q, Sent(p, c));
  }

  lemma OneOffered(hosts: map<nat, Peer>, p: Peer, q: Peer, key: Key, f: Inflight)
    requires q.log == p.log.(offered := p.log.offered[key := f])
    requires p.log.built.Keys <= p.log.started.Keys
    requires OfferGood(hosts, p.config, key, f)
    ensures NewGood(hosts, p, q)
  {
    hide OfferGood, BuiltGood, CompletedGood;
  }

  lemma OneCompleted(hosts: map<nat, Peer>, p: Peer, q: Peer, key: Key, cb: ControlBlock)
    requires q.log == p.log.(completed := p.log.completed[key := cb])
    requires p.log.built.Keys <= p.log.started.Keys
    requires CompletedGood(hosts, key)
    ensures NewGood(hosts, p, q)
  {
    hide OfferGood, BuiltGood, CompletedGood;
  }

  /** A SYN of a modelled host is the one that host sent. */
  lemma OffersGood(w: World, a: nat, pkt: Packet, isn: nat)
    requires WorldInv(w) && a in w.hosts && pkt in w.net && pkt.header.syn && !pkt.header.ack
    ensures OfferGood(w.hosts, w.hosts[a].config, Key(pkt.dst, pkt.src), Begun(pkt.header, isn, w.hosts[a].config))
  {
    hide WorldInv, Syn, LastMss, LastScale;
    if pkt.src.addr in w.hosts { Delivered(w, pkt); }
    assert Reverse(Key(pkt.dst, pkt.src)) == Key(pkt.src, pkt.dst);
  }

  /** An acknowledgment that completes a half-open connection comes from a host that accepted the offer. */
  lemma CompletesGood(w: World, a: nat, pkt: Packet)
    requires WorldInv(w) && a in w.hosts && pkt in w.net && pkt.header.ack
    requires Key(pkt.dst, pkt.src) in w.hosts[a].log.offered
    ensures CompletedGood(w.hosts, Key(pkt.dst, pkt.src))
  {
    hide WorldInv, Syn, SynAck, Begun, PeerInv, HostGood;
    HostPart(w, a);
    var key := Key(pkt.dst, pkt.src);
    if pkt.src.addr in w.hosts {
      var r := w.hosts[pkt.src.addr];
      HostPart(w, pkt.src.addr);
      Delivered(w, pkt);
      assert Reverse(key) == Key(pkt.src, pkt.dst);
      assert OfferGood(w.hosts, w.hosts[a].config, key, w.hosts[a].log.offered[key]);
      LogAddresses(r, Reverse(key));
    }
  }

  /** How a segment changes the listener's part of the log. */
  lemma ListenerLog(p: Peer, key: Key, h: Header, isn: nat)
    requires PeerInv(p) && key.local in p.listeners
    ensures var q, l := ToListener(p, key, h, isn).0, p.listeners[key.local];
            || q.log == p.log
            || (h.syn && !h.ack && q.log == p.log.(offered := p.log.offered[key := Begun(h, isn, p.config)]))
            || (h.ack && key in p.log.offered
                && q.log == p.log.(completed := q.log.completed) && key in q.log.completed
                && q.log.completed == p.log.completed[key := q.log.completed[key]])
  {
    hide PeerInv, HoldsOffers, ListenerInv, Completed, Begun, Next, ShiftsFit;
    var l := p.listeners[key.local];
    Listeners(p);
    ListenerAt(p.listeners, key.local, p.log.offered, p.log.completed);
    TasksHold(l, key.remote, p.log.offered, p.log.completed);
  }

  lemma ListenerStep(w: World, a: nat, pkt: Packet, isn: nat, resolved: bool)
    requires WorldInv(w) && Enabled(w, Host(a, Segment(pkt, isn, resolved)))
    requires var key := Key(pkt.dst, pkt.src);
             && !BadSource(pkt.src.addr) && key !in w.hosts[a].established && key !in w.hosts[a].connecting
             && key.local in w.hosts[a].listeners
    ensures WorldInv(Apply(w, Host(a, Segment(pkt, isn, resolved))))
  {
    hide WorldInv, PeerInv, Kept, NewGood, OffersInv, BadSource, ToListener, Begun, CompletedGood, OfferGood;
    HostPart(w, a);
    var p, key, c := w.hosts[a], Key(pkt.dst, pkt.src), Segment(pkt, isn, resolved);
    var q := Perform(p, c).0;
    PerformKeeps(p, c);
    Built(w.hosts, a) by { Hosts(w); }
    assert Sent(p, c) == {};
    assert q == ToListener(p, key, pkt.header, isn).0;
    ListenerLog(p, key, pkt.header, isn);
    if q.log == p.log {
      NothingNew(w.hosts, p, q);
    } else if pkt.header.ack {
      CompletesGood(w, a, pkt);
      OneCompleted(w.hosts, p, q, key, q.log.completed[key]);
    } else {
      OffersGood(w, a, pkt, isn);
      OneOffered(w.hosts, p, q, key, Begun(pkt.header, isn, p.config));
    }
    Advance(w, a, q, Sent(p, c));
  }

  lemma OtherSegmentStep(w: World, a: nat, pkt: Packet, isn: nat, resolved: bool)
    requires WorldInv(w) && Enabled(w, Host(a, Segment(pkt, isn, resolved)))
    requires var key := Key(pkt.dst, pkt.src);
             || BadSource(pkt.src.addr) || key in w.hosts[a].established
             || (key !in w.hosts[a].connecting && key.local !in w.hosts[a].listeners)
    ensures WorldInv(Apply(w, Host(a, Segment(pkt, isn, resolved))))
  {
    hide WorldInv, PeerInv, Kept, NewGood, OffersInv, BadSource;
    HostPart(w, a);
    var p, c := w.hosts[a], Segment(pkt, isn, resolved);
    PerformKeeps(p, c);
    Built(w.hosts, a) by { Hosts(w); }
    assert Perform(p, c).0 == p;
    NothingNew(w.hosts, p, p);
    Advance(w, a, p, Sent(p, c));
  }

  /** An established connection only sends under keys that are justified. */
  lemma StreamStep(w: World, a: nat, key: Key, h: Header)
    requires WorldInv(w) && Enabled(w, Stream(a, key, h))
    ensures WorldInv(Apply(w, Stream(a, key, h)))
  {
    hide WorldInv, PeerInv, NewGood, OffersInv;
    HostPart(w, a);
    var p, pkt := w.hosts[a], Packet(key.local, key.remote, h);
    EstablishedLogged(p, key);
    KeptSelf(p);
    Built(w.hosts, a) by { Hosts(w); }
    NothingNew(w.hosts, p, p);
    Advance(w, a, p, {pkt});
    assert w.hosts[a := p] == w.hosts;
  }

  lemma EstablishedLogged(p: Peer, key: Key)
    requires PeerInv(p) && key in p.established
    ensures OwnAddress(p, key.local.addr)
    ensures key.local.port >= FIRST_PRIVATE_PORT ==> key in p.log.built
  {
  }

  lemma ForeignStep(w: World, pkt: Packet)
    requires WorldInv(w) && Enabled(w, Foreign(pkt))
    ensures WorldInv(Apply(w, Foreign(pkt)))
  {
    hide LogsInv, HostsInv, Justified;
  }

  lemma StepKeeps(w: World, s: Step)
    requires WorldInv(w) && Enabled(w, s)
    ensures WorldInv(Apply(w, s))
  {
    hide WorldInv, Apply;
    match s
    case Foreign(pkt) => ForeignStep(w, pkt);
    case Stream(a, key, h) => StreamStep(w, a, key, h);
    case Host(a, c) =>
      if !c.Segment? {
        QuietStep(w, a, c);
      } else {
        var pkt, key := c.pkt, Key(c.pkt.dst, c.pkt.src);
        if BadSource(pkt.src.addr) || key in w.hosts[a].established
           || (key !in w.hosts[a].connecting && key.local !in w.hosts[a].listeners) {
          OtherSegmentStep(w, a, pkt, c.isn, c.resolved);
        } else if key in w.hosts[a].connecting {
          ConnectingStep(w, a, pkt, c.isn, c.resolved);
        } else {
          ListenerStep(w, a, pkt, c.isn, c.resolved);
        }
      }
  }

  // ---------------------------------------------------------------------------
  // Whole runs
  // ---------------------------------------------------------------------------

  /** The world after a sequence of steps, if each of them was possible. */
  function Run(w: World, steps: seq<Step>): Option<World>
    decreases |steps|
  {
    if steps == [] then Some(w)
    else if Enabled(w, steps[0]) then Run(Apply(w, steps[0]), steps[1..])
    else None
  }

  /** Fresh hosts, and nothing in the network that claims to come from one of them. */
  ghost predicate Fresh(w: World) {
    && (forall a :: a in w.hosts ==>
          && a != BROADCAST && w.hosts[a].config.scale <= 14 && w.hosts[a].config.window < 0x1_0000
          && PortsInv(w.hosts[a].ports) && w.hosts[a] == Init(a, w.hosts[a].config, w.hosts[a].ports))
    && (forall pkt :: pkt in w.net ==> pkt.src.addr !in w.hosts)
  }

  lemma FreshInv(w: World)
    requires Fresh(w)
    ensures WorldInv(w)
  {
    hide PeerInv, PortsInv;
    forall a | a in w.hosts ensures HostGood(a, w.hosts[a]) {
      InitInv(a, w.hosts[a].config, w.hosts[a].ports);
    }
  }

  /**
   * The two ends of one connection agree: sequence numbers and scales mirror each other, each side
   * uses the segment size the other advertised, the window towards the listener is the same on both
   * sides, and the window towards the opener is the same exactly when the scaled value fits 16 bits.
   */
  predicate Agreed(p: ControlBlock, pc: Config, q: ControlBlock, qc: Config) {
    && Mirror(p, q)
    && p.mss == qc.mss % 0x1_0000 && q.mss == pc.mss % 0x1_0000
    && p.sendWindow == q.recvWindow
    && (p.recvWindow == q.sendWindow <==> pc.window * Pow2(pc.scale) < 0x1_0000)
  }

  /** Every connection a listener ever completed with a modelled host was built there, and both ends agree. */
  ghost predicate Agreement(w: World) {
    forall a, k :: a in w.hosts && k in w.hosts[a].log.completed && k.remote.addr in w.hosts ==>
      var p, r := w.hosts[a], w.hosts[k.remote.addr];
      && k.local.addr == a
      && Reverse(k) in r.log.built
      && Agreed(p.log.completed[k], p.config, r.log.built[Reverse(k)], r.config)
  }

  lemma LogParts(w: World, a: nat, k: Key)
    requires WorldInv(w) && a in w.hosts
    ensures var p := w.hosts[a];
            && (k in p.log.completed ==>
                  && CompletedGood(w.hosts, k) && k in p.log.offered
                  && OfferGood(w.hosts, p.config, k, p.log.offered[k])
                  && p.log.completed[k] == Completed(k.local, k.remote, p.log.offered[k], p.config))
            && (k in p.log.built ==> k in p.log.started
                                     && BuiltGood(w.hosts, p.config, k, p.log.started[k], p.log.built[k]))
            && p.config.scale <= 14 && p.config.window < 0x1_0000
  {
    hide OfferGood, BuiltGood, CompletedGood, Completed;
    assert HostGood(a, w.hosts[a]);
  }

  lemma AgreementAt(w: World, a: nat, k: Key)
    requires WorldInv(w) && a in w.hosts && k in w.hosts[a].log.completed && k.remote.addr in w.hosts
    ensures var p, r := w.hosts[a], w.hosts[k.remote.addr];
            && k.local.addr == a
            && Reverse(k) in r.log.built
            && Agreed(p.log.completed[k], p.config, r.log.built[Reverse(k)], r.config)
  {
    hide WorldInv, PeerInv, Completed, Connected, Begun, Syn, SynAck, OffersInv;
    var p, r := w.hosts[a], w.hosts[k.remote.addr];
    HostPart(w, a);
    LogParts(w, a, k);
    LogParts(w, k.remote.addr, Reverse(k));
    LogAddresses(p, k);
    assert k.local.addr != BROADCAST;
    assert Reverse(Reverse(k)) == k;
    var x := Active(Reverse(k), r.log.started[Reverse(k)], 0, false, None);
    HandshakeMirrors(x, r.config, p.log.offered[k], p.config, p.log.offered[k].localIsn);
  }

  /** In every reachable world all invariants hold and all completed handshakes agree. */
  lemma {:induction false} RunAgrees(w: World, steps: seq<Step>)
    requires WorldInv(w)
    ensures Run(w, steps).Some? ==> WorldInv(Run(w, steps).value) && Agreement(Run(w, steps).value)
    decreases |steps|
  {
    hide WorldInv, Apply, Enabled, Agreed;
    if steps == [] {
      forall a, k | a in w.hosts && k in w.hosts[a].log.completed && k.remote.addr in w.hosts
        ensures var p, r := w.hosts[a], w.hosts[k.remote.addr];
                && k.local.addr == a && Reverse(k) in r.log.built
                && Agreed(p.log.completed[k], p.config, r.log.built[Reverse(k)], r.config)
      {
        AgreementAt(w, a, k);
      }
    } else if Enabled(w, steps[0]) {
      StepKeeps(w, steps[0]);
      RunAgrees(Apply(w, steps[0]), steps[1..]);
    }
  }

  lemma FreshRunAgrees(w: World, steps: seq<Step>)
    requires Fresh(w)
    ensures Run(w, steps).Some? ==> WorldInv(Run(w, steps).value) && Agreement(Run(w, steps).value)
  {
    hide WorldInv;
    FreshInv(w);
    RunAgrees(w, steps);
  }

  /** Connections that came out of `accept` are among the completed ones. */
  lemma AcceptedIsCompleted(w: World, a: nat, k: Key)
    requires WorldInv(w) && a in w.hosts && k in w.hosts[a].established && k.local.port < FIRST_PRIVATE_PORT
    ensures k in w.hosts[a].log.completed && w.hosts[a].log.completed[k] == w.hosts[a].established[k]
  {
    assert HostGood(a, w.hosts[a]);
  }

  /**
   * A host panics on a segment from a modelled host exactly when the link address of a peer that
   * answered is missing: the window shifts are always in range.
   */
  lemma SegmentsAreSafe(w: World, a: nat, pkt: Packet, isn: nat, resolved: bool)
    requires WorldInv(w) && a in w.hosts && pkt in w.net && OwnAddress(w.hosts[a], pkt.dst.addr)
    requires pkt.src.addr in w.hosts
    ensures var p, key := w.hosts[a], Key(pkt.dst, pkt.src);
            var reply := Receive(p, pkt, isn, resolved).2;
            && (reply.Panicked? <==> !BadSource(pkt.src.addr) && key in p.connecting
                                     && Accepts(p.connecting[key], pkt.header) && !resolved)
            && (reply.Panicked? ==> reply == Panicked(Link))
  {
    hide WorldInv, PeerInv, OffersInv, Connected, Completed, BadSource, Advertise;
    HostPart(w, a);
    var p, r, key := w.hosts[a], w.hosts[pkt.src.addr], Key(pkt.dst, pkt.src);
    ReceivePanics(p, pkt, isn, resolved);
    LogParts(w, a, key);
    LogParts(w, pkt.src.addr, Reverse(key));
    Delivered(w, pkt);
    assert Reverse(key) == Key(pkt.src, pkt.dst);
    AdvertiseScan(r.config);
    if key.local in p.listeners && key.remote in p.listeners[key.local].inflight {
      InflightFits(w, a, key);
    }
  }

  lemma InflightFits(w: World, a: nat, key: Key)
    requires WorldInv(w) && a in w.hosts && key.local in w.hosts[a].listeners && key.remote.addr in w.hosts
    requires key.remote in w.hosts[a].listeners[key.local].inflight
    ensures ShiftsFit(w.hosts[a].listeners[key.local].inflight[key.remote], w.hosts[a].config)
  {
    hide WorldInv, PeerInv, Advertise, LastMss;
    var p, r := w.hosts[a], w.hosts[key.remote.addr];
    HostPart(w, a);
    HostPart(w, key.remote.addr);
    Listeners(p);
    ListenerAt(p.listeners, key.local, p.log.offered, p.log.completed);
    TasksHold(p.listeners[key.local], key.remote, p.log.offered, p.log.completed);
    assert OfferGood(w.hosts, p.config, key, p.log.offered[key]);
    AdvertiseScan(r.config);
  }

  // ---------------------------------------------------------------------------
  // Consequences for one peer
  // ---------------------------------------------------------------------------

  /** The peer after a sequence of calls, each of them possible when it is made. */
  function RunPeer(p: Peer, calls: seq<Call>): Option<Peer>
    decreases |calls|
  {
    if calls == [] then Some(p)
    else if Allowed(p, calls[0]) && !Perform(p, calls[0]).1.Panicked? then
      RunPeer(Perform(p, calls[0]).0, calls[1..])
    else None
  }

  /** Half-open, queued and established remotes of a listener. */
  ghost predicate ListenerSafe(p: Peer, e: Endpoint) {
    e in p.listeners ==>
      var l := p.listeners[e];
      && (forall r :: r in l.inflight ==> r !in l.endpoints && Key(e, r) !in p.established)
      && (forall r :: r in l.endpoints ==> Key(e, r) !in p.established)
      && (forall r :: r in l.endpoints <==>
            exists i :: 0 <= i < |l.ready| && l.ready[i].Ok? && l.ready[i].cb.key.remote == r)
      && |l.inflight| + |l.endpoints| <= l.backlog
  }

  lemma PeerIsSafe(p: Peer, e: Endpoint)
    requires PeerInv(p)
    ensures ListenerSafe(p, e)
  {
    if e in p.listeners {
      assert ListenerInv(p.listeners[e]);
    }
  }

  /** Whatever the application calls and whatever arrives, listeners stay safe and no map assertion fails. */
  lemma {:induction false} RunPeerSafe(p: Peer, calls: seq<Call>, next: Call, e: Endpoint)
    requires PeerInv(p)
    ensures RunPeer(p, calls).Some? ==>
              var q := RunPeer(p, calls).value;
              && PeerInv(q) && ListenerSafe(q, e)
              && (Allowed(q, next) ==> Perform(q, next).1 != Panicked(Maps))
    decreases |calls|
  {
    hide PeerInv, ListenerSafe, Perform, Allowed;
    if calls == [] {
      PeerIsSafe(p, e);
      if Allowed(p, next) { PerformKeeps(p, next); }
    } else if Allowed(p, calls[0]) {
      PerformKeeps(p, calls[0]);
      RunPeerSafe(Perform(p, calls[0]).0, calls[1..], next, e);
    }
  }

  /** A descriptor whose opening failed: it still says "connecting", but nothing is being opened. */
  predicate Stuck(p: Peer, fd: nat) {
    fd in p.sockets && p.sockets[fd].Connecting? && p.sockets[fd].key !in p.connecting
  }

  /** Asking about an opening leaves its descriptor stuck exactly when an error result is waiting. */
  lemma PollFailureSticks(p: Peer, fd: nat)
    requires PeerInv(p) && fd in p.sockets && p.sockets[fd].Connecting? && p.sockets[fd].key in p.connecting
    ensures var (q, reply), result := PollConnect(p, fd), p.connecting[p.sockets[fd].key].result;
            && (Stuck(q, fd) <==> result.Some? && result.value.Err?)
            && (Stuck(q, fd) <==> reply.Failed?)
  {
    hide PeerInv;
    PollConnectKeeps(p, fd);
  }

  /** No call ever revives such a descriptor. */
  lemma StuckStep(p: Peer, c: Call, fd: nat)
    requires PeerInv(p) && Allowed(p, c) && Stuck(p, fd)
    ensures Stuck(Perform(p, c).0, fd)
  {
    hide PeerInv, Install, ToListener, ListenerPoll;
    var key := p.sockets[fd].key;
    StuckKey(p, fd);
    match c
    case CallConnect(_, remote, isn) =>
      if p.ports != [] {
        var k := Key(Endpoint(p.addr, p.ports[|p.ports| - 1]), remote);
        assert k.local.port in p.ports;
      }
    case CallAccept(gd) => AcceptSockets(p, gd, fd);
    case Segment(pkt, isn, resolved) => ToListenerSockets(p, Key(pkt.dst, pkt.src), pkt.header, isn);
    case _ =>
  }

  lemma StuckKey(p: Peer, fd: nat)
    requires PeerInv(p) && fd in p.sockets && p.sockets[fd].Connecting?
    ensures fd < p.nextFd && p.sockets[fd].key.local.port !in p.ports
  {
    assert SocketGood(p.sockets[fd], p.listeners.Keys, p.log.started.Keys, p.established.Keys);
  }

  lemma AcceptSockets(p: Peer, gd: nat, fd: nat)
    requires fd < p.nextFd && fd in p.sockets
    ensures var q := Accept(p, gd).0; q.connecting == p.connecting && fd in q.sockets && q.sockets[fd] == p.sockets[fd]
  {
  }

  lemma ToListenerSockets(p: Peer, key: Key, h: Header, isn: nat)
    ensures key.local in p.listeners ==>
              var q := ToListener(p, key, h, isn).0; q.connecting == p.connecting && q.sockets == p.sockets
  {
  }

  /** After a failed opening every later attempt to use the descriptor fails the same way. */
  lemma {:induction false} StuckForever(p: Peer, calls: seq<Call>, fd: nat)
    requires PeerInv(p) && Stuck(p, fd)
    ensures RunPeer(p, calls).Some? ==>
              var q := RunPeer(p, calls).value;
              && Stuck(q, fd)
              && PollConnect(q, fd) == (q, Failed(Malformed))
              && (forall e :: Bind(q, fd, e) == (q, Failed(Malformed)))
              && (forall b :: Listen(q, fd, b) == (q, Failed(Malformed)))
              && (forall r, isn :: Connect(q, fd, r, isn) == (q, Failed(Malformed)))
    decreases |calls|
  {
    hide PeerInv, Perform, Allowed;
    if calls != [] && Allowed(p, calls[0]) {
      PerformKeeps(p, calls[0]);
      StuckStep(p, calls[0], fd);
      StuckForever(Perform(p, calls[0]).0, calls[1..], fd);
    }
  }

  /** One call of a run. */
  lemma RunPeerNext(p: Peer, calls: seq<Call>, q: Peer)
    requires calls != [] && Allowed(p, calls[0]) && Perform(p, calls[0]).0 == q && !Perform(p, calls[0]).1.Panicked?
    ensures RunPeer(p, calls) == RunPeer(q, calls[1..])
  {
    hide Allowed, Perform;
  }

  /** The last try of an opening goes unanswered, and the error is reported to the caller. */
  lemma LastTrySticks(p: Peer, fd: nat, key: Key, resolved: bool)
    requires fd in p.sockets && p.sockets[fd] == Connecting(key) && key in p.connecting
    requires var a := p.connecting[key]; a.tries == 1 && !a.expired && a.result.None?
    ensures var run := RunPeer(p, [TaskSyn(key, resolved), TaskGiveUp(key), CallPoll(fd)]);
            run.Some? && Stuck(run.value, fd)
  {
    hide RunPeer;
    var calls := [TaskSyn(key, resolved), TaskGiveUp(key), CallPoll(fd)];
    var p1 := SynTry(p, key);
    var p2 := GiveUp(p1, key);
    var p3 := PollConnect(p2, fd).0;
    RunPeerNext(p, calls, p1);
    RunPeerNext(p1, calls[1..], p2);
    RunPeerNext(p2, calls[2..], p3);
    RunPeerDone(p3, calls[3..]);
  }

  /** With a single try, an opening nobody answers ends that way. */
  lemma StuckHappens(addr: nat, config: Config, ports: seq<nat>, remote: Endpoint, isn: nat, resolved: bool)
    requires ports != [] && config.retries == 1
    ensures var key := Key(Endpoint(addr, ports[|ports| - 1]), remote);
            var run := RunPeer(Init(addr, config, ports),
                               [CallSocket, CallConnect(0, remote, isn), TaskSyn(key, resolved), TaskGiveUp(key),
                                CallPoll(0)]);
            run.Some? && Stuck(run.value, 0)
  {
    hide RunPeer, Stuck;
    var key := Key(Endpoint(addr, ports[|ports| - 1]), remote);
    var calls := [CallSocket, CallConnect(0, remote, isn), TaskSyn(key, resolved), TaskGiveUp(key), CallPoll(0)];
    var p0 := Init(addr, config, ports);
    var p1 := NewSocket(p0).0;
    var p2 := Connect(p1, 0, remote, isn).0;
    RunPeerNext(p0, calls, p1);
    RunPeerNext(p1, calls[1..], p2);
    assert calls[2..] == [TaskSyn(key, resolved), TaskGiveUp(key), CallPoll(0)];
    LastTrySticks(p2, 0, key, resolved);
  }

  lemma RunPeerDone(p: Peer, calls: seq<Call>)
    requires calls == []
    ensures RunPeer(p, calls) == Some(p)
  {
  }

  /** A half-open connection whose task has given up; `isn` is the sequence number it was offered with. */
  predicate Stranded(p: Peer, key: Key, isn: nat) {
    && key.local in p.listeners && key.remote in p.listeners[key.local].inflight
    && var f := p.listeners[key.local].inflight[key.remote];
       f.localIsn == isn && f.tries == 0 && f.expired
  }

  /** The arrival of the acknowledgment the connection is waiting for. */
  predicate Acknowledges(c: Call, key: Key, isn: nat) {
    && c.Segment? && c.pkt.src == key.remote && c.pkt.dst == key.local
    && c.pkt.header.ack && c.pkt.header.ackNum == Next(isn)
  }

  lemma StrandedAtListener(l: Listener, c: Config, remote: Endpoint, h: Header, newIsn: nat, other: Endpoint)
    requires other in l.inflight
    requires !(remote == other && h.ack && h.ackNum == Next(l.inflight[other].localIsn))
    ensures var m := ListenerReceive(l, c, remote, h, newIsn).0;
            other in m.inflight && m.inflight[other] == l.inflight[other]
  {
  }

  lemma PollKeepsInflight(l: Listener)
    ensures ListenerPoll(l).0.inflight == l.inflight
  {
  }

  /** Everything but its acknowledgment leaves such a connection as it is. */
  lemma StrandedStays(p: Peer, c: Call, key: Key, isn: nat)
    requires Allowed(p, c) && Stranded(p, key, isn)
    requires !Acknowledges(c, key, isn) || BadSource(key.remote.addr)
    ensures Stranded(Perform(p, c).0, key, isn)
  {
    hide ListenerReceive, ListenerPoll, ActiveReceive, BadSource, Next;
    match c
    case CallAccept(fd) =>
      if fd in p.sockets && p.sockets[fd].Listening? && p.sockets[fd].local in p.listeners {
        PollKeepsInflight(p.listeners[p.sockets[fd].local]);
      }
    case Segment(pkt, newIsn, _) =>
      if pkt.dst == key.local && !BadSource(pkt.src.addr) {
        StrandedAtListener(p.listeners[pkt.dst], p.config, pkt.src, pkt.header, newIsn, key.remote);
      }
    case _ =>
  }

  /** An answered SYN that is no longer half open. */
  predicate Settled(p: Peer, key: Key) {
    key in p.log.offered && key.local in p.listeners && key.remote !in p.listeners[key.local].inflight
  }

  /** Its acknowledgment completes the connection after all. */
  lemma StrandedEnds(p: Peer, c: Call, key: Key, isn: nat)
    requires PeerInv(p) && Allowed(p, c) && Stranded(p, key, isn) && !Perform(p, c).1.Panicked?
    requires Acknowledges(c, key, isn) && !BadSource(key.remote.addr)
    ensures Settled(Perform(p, c).0, key) && key.remote in Perform(p, c).0.listeners[key.local].endpoints
  {
    hide PeerInv, Next, Completed, BadSource, ShiftsFit;
    HalfOpen(p, key);
    var l := p.listeners[key.local];
    CompletedKey(l.local, key.remote, l.inflight[key.remote], p.config);
  }

  /** A connection is answered once: a settled one never becomes half open again. */
  lemma SettledStep(p: Peer, c: Call, key: Key)
    requires PeerInv(p) && Allowed(p, c) && Settled(p, key)
    ensures Settled(Perform(p, c).0, key)
  {
    hide PeerInv, ListenerReceive, ListenerPoll, ActiveReceive, BadSource, Next, Kept;
    PerformKeeps(p, c);
    KeepsOffers(p, Perform(p, c).0, key);
    match c
    case CallAccept(fd) =>
      if fd in p.sockets && p.sockets[fd].Listening? && p.sockets[fd].local in p.listeners {
        PollKeepsInflight(p.listeners[p.sockets[fd].local]);
      }
    case Segment(pkt, newIsn, _) =>
      if pkt.dst == key.local { SettledAtListener(p, pkt, newIsn, key); }
    case _ =>
  }

  lemma KeepsOffers(p: Peer, q: Peer, key: Key)
    requires Kept(p, q) && key in p.log.offered
    ensures key in q.log.offered
  {
    hide PeerInv;
  }

  lemma SettledAtListener(p: Peer, pkt: Packet, isn: nat, key: Key)
    requires PeerInv(p) && Settled(p, key) && pkt.dst == key.local
    ensures Key(pkt.dst, pkt.src) !in p.established ==>
              key.remote !in ListenerReceive(p.listeners[pkt.dst], p.config, pkt.src, pkt.header, isn).0.inflight
  {
    hide PortsInv, SocketsGood, SocketsApart, ListenersInv, ConnectingInv, AcceptedInv, OpenedInv, StartedInv,
         CompletedInv, Completed, Begun, Next;
  }

  /** One step: the connection stays stranded unless its acknowledgment arrives from a usable address. */
  lemma StrandedStep(p: Peer, c: Call, key: Key, isn: nat)
    requires PeerInv(p) && Allowed(p, c) && Stranded(p, key, isn) && !Perform(p, c).1.Panicked?
    ensures var q := Perform(p, c).0;
            && (Stranded(q, key, isn) <==> !Acknowledges(c, key, isn) || BadSource(key.remote.addr))
            && (Stranded(q, key, isn) || Settled(q, key))
  {
    hide PeerInv, Perform, Allowed, Acknowledges, BadSource;
    if !Acknowledges(c, key, isn) || BadSource(key.remote.addr) {
      StrandedStays(p, c, key, isn);
    } else {
      StrandedEnds(p, c, key, isn);
    }
  }

  lemma {:induction false} SettledForever(p: Peer, calls: seq<Call>, key: Key)
    requires PeerInv(p) && Settled(p, key)
    ensures RunPeer(p, calls).Some? ==> Settled(RunPeer(p, calls).value, key)
    decreases |calls|
  {
    hide PeerInv, Perform, Allowed, Settled;
    if calls != [] && Allowed(p, calls[0]) {
      PerformKeeps(p, calls[0]);
      SettledStep(p, calls[0], key);
      SettledForever(Perform(p, calls[0]).0, calls[1..], key);
    }
  }

  /** The acknowledgment arrives somewhere in the run. */
  predicate AcknowledgedIn(calls: seq<Call>, key: Key, isn: nat) {
    exists i :: 0 <= i < |calls| && Acknowledges(calls[i], key, isn)
  }

  lemma AcknowledgedLater(calls: seq<Call>, key: Key, isn: nat)
    requires calls != []
    ensures AcknowledgedIn(calls, key, isn)
            <==> Acknowledges(calls[0], key, isn) || AcknowledgedIn(calls[1..], key, isn)
  {
    hide Acknowledges;
    if i :| 0 <= i < |calls[1..]| && Acknowledges(calls[1..][i], key, isn) {
      assert calls[i + 1] == calls[1..][i];
    }
    if i :| 0 < i < |calls| && Acknowledges(calls[i], key, isn) {
      assert calls[1..][i - 1] == calls[i];
    }
  }

  /**
   * Such a connection keeps its place in the backlog, with nobody resending for it, through exactly
   * the runs in which its acknowledgment does not arrive (or cannot, from an unusable address).
   */
  lemma {:induction false} StrandedUntilAcknowledged(p: Peer, calls: seq<Call>, key: Key, isn: nat)
    requires PeerInv(p) && Stranded(p, key, isn)
    ensures RunPeer(p, calls).Some? ==>
              var q := RunPeer(p, calls).value;
              && (Stranded(q, key, isn) <==> !AcknowledgedIn(calls, key, isn) || BadSource(key.remote.addr))
              && (Stranded(q, key, isn) ==> !CanSynAck(q, key) && !CanDrop(q, key))
    decreases |calls|
  {
    hide PeerInv, Perform, Allowed, Acknowledges, AcknowledgedIn, BadSource;
    if calls == [] {
      AcknowledgedNever(key, isn);
    } else if Allowed(p, calls[0]) && !Perform(p, calls[0]).1.Panicked? {
      var q := Perform(p, calls[0]).0;
      AcknowledgedLater(calls, key, isn);
      PerformKeeps(p, calls[0]);
      KeptInv(p, q);
      StrandedStep(p, calls[0], key, isn);
      if Stranded(q, key, isn) {
        StrandedUntilAcknowledged(q, calls[1..], key, isn);
      } else {
        SettledForever(q, calls[1..], key);
      }
    }
  }

  lemma AcknowledgedNever(key: Key, isn: nat)
    ensures !AcknowledgedIn([], key, isn)
  {
  }

  lemma KeptInv(p: Peer, q: Peer)
    requires Kept(p, q)
    ensures PeerInv(q)
  {
  }

  /** A listener that has heard nothing yet, on the first descriptor. */
  function Hearing(addr: nat, config: Config, ports: seq<nat>, e: Endpoint, backlog: nat): Peer {
    Init(addr, config, ports).(nextFd := 1, sockets := map[0 := Listening(e)],
                               listeners := map[e := NewListener(e, backlog)])
  }

  lemma HearingHappens(addr: nat, config: Config, ports: seq<nat>, e: Endpoint, backlog: nat, rest: seq<Call>)
    requires e.port < FIRST_PRIVATE_PORT
    ensures RunPeer(Init(addr, config, ports), [CallSocket, CallBind(0, e), CallListen(0, backlog)] + rest)
         == RunPeer(Hearing(addr, config, ports, e, backlog), rest)
  {
    hide RunPeer;
    var calls := [CallSocket, CallBind(0, e), CallListen(0, backlog)] + rest;
    var p0 := Init(addr, config, ports);
    var p1 := NewSocket(p0).0;
    var p2 := Bind(p1, 0, e).0;
    var p3 := Listen(p2, 0, backlog).0;
    RunPeerNext(p0, calls, p1);
    RunPeerNext(p1, calls[1..], p2);
    RunPeerNext(p2, calls[2..], p3);
    assert calls[3..] == rest;
    assert p3 == Hearing(addr, config, ports, e, backlog);
  }

  /** The last try of a half-open connection goes unanswered, and the error is reported to `accept`. */
  lemma LastTryStrands(p: Peer, fd: nat, key: Key, isn: nat, resolved: bool)
    requires fd in p.sockets && p.sockets[fd] == Listening(key.local) && key.local in p.listeners
    requires var l := p.listeners[key.local];
             && key.remote in l.inflight && l.ready == []
             && var f := l.inflight[key.remote]; f.localIsn == isn && f.tries == 1 && !f.expired
    ensures var run := RunPeer(p, [TaskSynAck(key, resolved), TaskDrop(key), CallAccept(fd)]);
            run.Some? && Stranded(run.value, key, isn)
  {
    hide RunPeer;
    var calls := [TaskSynAck(key, resolved), TaskDrop(key), CallAccept(fd)];
    var p1 := SynAckTry(p, key);
    var p2 := DropTry(p1, key);
    var p3 := Accept(p2, fd).0;
    RunPeerNext(p, calls, p1);
    RunPeerNext(p1, calls[1..], p2);
    RunPeerNext(p2, calls[2..], p3);
    RunPeerDone(p3, calls[3..]);
  }

  /** With a single try, a SYN whose sender goes silent ends that way. */
  lemma StrandedHappens(addr: nat, config: Config, ports: seq<nat>, e: Endpoint, backlog: nat, pkt: Packet,
                        isn: nat, resolved: bool)
    requires config.retries == 1 && e.port < FIRST_PRIVATE_PORT && e.addr == addr && backlog > 0
    requires pkt.dst == e && !BadSource(pkt.src.addr)
    requires pkt.header.syn && !pkt.header.ack && !pkt.header.rst
    ensures var key := Key(e, pkt.src);
            var run := RunPeer(Init(addr, config, ports),
                               [CallSocket, CallBind(0, e), CallListen(0, backlog)]
                               + [Segment(pkt, isn, resolved), TaskSynAck(key, resolved), TaskDrop(key),
                                  CallAccept(0)]);
            run.Some? && Stranded(run.value, key, isn)
  {
    hide RunPeer, BadSource, LastMss, LastScale, Stranded;
    var key := Key(e, pkt.src);
    var rest := [Segment(pkt, isn, resolved), TaskSynAck(key, resolved), TaskDrop(key), CallAccept(0)];
    HearingHappens(addr, config, ports, e, backlog, rest);
    var p3 := Hearing(addr, config, ports, e, backlog);
    var p4 := Receive(p3, pkt, isn, resolved).0;
    RunPeerNext(p3, rest, p4);
    assert rest[1..] == [TaskSynAck(key, resolved), TaskDrop(key), CallAccept(0)];
    LastTryStrands(p4, 0, key, isn, resolved);
  }
}
