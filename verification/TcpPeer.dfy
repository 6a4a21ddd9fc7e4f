/**
 * The TCP peer of one host: descriptors, listeners, connections being opened and established
 * connections, kept in four maps. Every call is a function on the peer's value. The `log` records
 * what the peer has ever done; the calls never read it.
 */
module TcpPeer {
  import opened Common
  import opened Tcp

  const FIRST_PRIVATE_PORT: nat := 49152
  const LAST_PORT: nat := 65535
  const BROADCAST: nat := 0xffff_ffff

  datatype Socket =
    | Inactive(bound: Option<Endpoint>)
    | Listening(local: Endpoint)
    | Connecting(key: Key)
    | Established(key: Key)

  /** Sequence numbers of opened connections, SYNs answered, and control blocks built on either side. */
  datatype Log = Log(started: map<Key, nat>, offered: map<Key, Inflight>, built: map<Key, ControlBlock>,
                     completed: map<Key, ControlBlock>)

  datatype Peer = Peer(addr: nat, config: Config, nextFd: nat, ports: seq<nat>, sockets: map<nat, Socket>,
                       listeners: map<Endpoint, Listener>, connecting: map<Key, Active>,
                       established: map<Key, ControlBlock>, log: Log)

  // ---------------------------------------------------------------------------
  // The calls
  // ---------------------------------------------------------------------------

  /** A new descriptor; the file table never gives one out twice. */
  function NewSocket(p: Peer): (Peer, Reply) {
    if p.nextFd in p.sockets then (p, Panicked(Maps))
    else (p.(nextFd := p.nextFd + 1, sockets := p.sockets[p.nextFd := Inactive(None)]), Done)
  }

  /** The shared file table also serves other protocols. */
  function OtherDescriptor(p: Peer): Peer {
    p.(nextFd := p.nextFd + 1)
  }

  function Bind(p: Peer, fd: nat, e: Endpoint): (Peer, Reply) {
    if e.port >= FIRST_PRIVATE_PORT then (p, Failed(Malformed))
    else if fd in p.sockets && p.sockets[fd].Inactive? then
      (p.(sockets := p.sockets[fd := Inactive(Some(e))]), Done)
    else (p, Failed(Malformed))
  }

  function Listen(p: Peer, fd: nat, backlog: nat): (Peer, Reply) {
    if fd in p.sockets && p.sockets[fd].Inactive? && p.sockets[fd].bound.Some? then
      var local := p.sockets[fd].bound.value;
      if local in p.listeners then (p, Failed(ResourceBusy))
      else (p.(listeners := p.listeners[local := NewListener(local, backlog)],
               sockets := p.sockets[fd := Listening(local)]), Done)
    else (p, Failed(Malformed))
  }

  /** Install an accepted connection under a new descriptor. */
  function Install(p: Peer, cb: ControlBlock): (Peer, Reply) {
    if p.nextFd in p.sockets || cb.key in p.established then (p, Panicked(Maps))
    else (p.(nextFd := p.nextFd + 1, sockets := p.sockets[p.nextFd := Established(cb.key)],
             established := p.established[cb.key := cb]), Done)
  }

  function Accept(p: Peer, fd: nat): (Peer, Reply) {
    if fd !in p.sockets || !p.sockets[fd].Listening? then (p, Failed(Malformed))
    else
      var local := p.sockets[fd].local;
      if local !in p.listeners then (p, Panicked(Maps))
      else
        var (l, result, reply) := ListenerPoll(p.listeners[local]);
        if result.None? then (p, reply)
        else
          var q := p.(listeners := p.listeners[local := l]);
          match result.value
          case Err(e) => (q, Failed(e))
          case Ok(cb) => Install(q, cb)
  }

  /** Open a connection from a fresh private port; `isn` comes from the sequence-number generator. */
  function Connect(p: Peer, fd: nat, remote: Endpoint, isn: nat): (Peer, Reply) {
    if fd !in p.sockets || !p.sockets[fd].Inactive? then (p, Failed(Malformed))
    else if p.ports == [] then (p, Failed(ResourceExhausted))
    else
      var key := Key(Endpoint(p.addr, p.ports[|p.ports| - 1]), remote);
      if key in p.connecting then (p, Panicked(Maps))
      else (p.(ports := p.ports[..|p.ports| - 1],
               sockets := p.sockets[fd := Connecting(key)],
               connecting := p.connecting[key := Active(key, isn, p.config.retries, false, None)],
               log := p.log.(started := p.log.started[key := isn])), Done)
  }

  /** Ask whether an opening finished. A failed one leaves its descriptor in the connecting state. */
  function PollConnect(p: Peer, fd: nat): (Peer, Reply) {
    if fd !in p.sockets || !p.sockets[fd].Connecting? then (p, Failed(Malformed))
    else
      var key := p.sockets[fd].key;
      if key !in p.connecting then (p, Failed(Malformed))
      else
        var result := p.connecting[key].result;
        if result.None? then (p, Pending)
        else
          var q := p.(connecting := p.connecting - {key});
          match result.value
          case Err(e) => (q, Failed(e))
          case Ok(cb) =>
            if key in q.established then (q, Panicked(Maps))
            else (q.(established := q.established[key := cb],
                     sockets := q.sockets[fd := Established(key)]), Done)
  }

  /** Broadcast, multicast and unspecified addresses are no source of a TCP segment. */
  predicate BadSource(addr: nat) {
    addr == BROADCAST || 0xE000_0000 <= addr < 0xF000_0000 || addr == 0
  }

  /** The addresses a datagram is accepted for. */
  predicate OwnAddress(p: Peer, addr: nat) {
    addr == p.addr || addr == BROADCAST
  }

  function Reset(): Header {
    Header(false, false, true, 0, 0, 0, [])
  }

  /** Hand a segment to the socket that is opening `key`. */
  function ToConnecting(p: Peer, key: Key, h: Header, resolved: bool): (Peer, Option<Header>, Reply)
    requires key in p.connecting
  {
    var (a, sent, reply) := ActiveReceive(p.connecting[key], p.config, h, resolved);
    var log := if sent.Some? && reply == Done
               then p.log.(built := p.log.built[key := Connected(p.connecting[key], p.config, h)]) else p.log;
    (p.(connecting := p.connecting[key := a], log := log), sent, reply)
  }

  /** Hand a segment to the listener on `key.local`. */
  function ToListener(p: Peer, key: Key, h: Header, isn: nat): (Peer, Reply)
    requires key.local in p.listeners
  {
    var l := p.listeners[key.local];
    var (m, reply) := ListenerReceive(l, p.config, key.remote, h, isn);
    var log :=
      if key.remote in m.inflight && key.remote !in l.inflight
      then p.log.(offered := p.log.offered[key := m.inflight[key.remote]])
      else if key.remote in l.inflight && key.remote !in m.inflight
      then p.log.(completed := p.log.completed[key := Completed(l.local, key.remote, l.inflight[key.remote], p.config)])
      else p.log;
    (p.(listeners := p.listeners[key.local := m], log := log), reply)
  }

  /** Route one segment that arrived for an address of this host. */
  function Receive(p: Peer, pkt: Packet, isn: nat, resolved: bool): (Peer, Option<Header>, Reply) {
    var key := Key(pkt.dst, pkt.src);
    if BadSource(pkt.src.addr) then (p, None, Failed(Malformed))
    else if key in p.established then (p, None, Done)
    else if key in p.connecting then ToConnecting(p, key, pkt.header, resolved)
    else if key.local in p.listeners then
      var (q, reply) := ToListener(p, key, pkt.header, isn);
      (q, None, reply)
    else if !resolved then (p, None, Failed(ResourceNotFound))
    else (p, Some(Reset()), Done)
  }

  // Background tasks

  predicate CanSyn(p: Peer, key: Key) {
    key in p.connecting && p.connecting[key].tries > 0
  }

  function SynTry(p: Peer, key: Key): Peer
    requires CanSyn(p, key)
  {
    p.(connecting := p.connecting[key := ActiveTry(p.connecting[key])])
  }

  predicate CanGiveUp(p: Peer, key: Key) {
    key in p.connecting && p.connecting[key].tries == 0 && !p.connecting[key].expired
  }

  function GiveUp(p: Peer, key: Key): Peer
    requires CanGiveUp(p, key)
  {
    p.(connecting := p.connecting[key := ActiveExpire(p.connecting[key])])
  }

  predicate CanSynAck(p: Peer, key: Key) {
    key.local in p.listeners && CanAnswer(p.listeners[key.local], key.remote)
  }

  function SynAckTry(p: Peer, key: Key): Peer
    requires CanSynAck(p, key)
  {
    p.(listeners := p.listeners[key.local := ListenerTry(p.listeners[key.local], key.remote)])
  }

  predicate CanDrop(p: Peer, key: Key) {
    key.local in p.listeners && CanExpire(p.listeners[key.local], key.remote)
  }

  function DropTry(p: Peer, key: Key): Peer
    requires CanDrop(p, key)
  {
    p.(listeners := p.listeners[key.local := ListenerExpire(p.listeners[key.local], key.remote)])
  }

  // ---------------------------------------------------------------------------
  // Invariants
  // ---------------------------------------------------------------------------

  /** The number of finished connections in a queue. */
  function OkCount(s: seq<Result>): (n: nat)
    ensures n <= |s|
  {
    if s == [] then 0 else (if s[0].Ok? then 1 else 0) + OkCount(s[1..])
  }

  lemma {:induction false} OkCountAppend(s: seq<Result>, r: Result)
    ensures OkCount(s + [r]) == OkCount(s) + (if r.Ok? then 1 else 0)
  {
    if s == [] {
      assert s + [r] == [r];
    } else {
      assert (s + [r])[1..] == s[1..] + [r];
      OkCountAppend(s[1..], r);
    }
  }

  /** The queue holds each finished connection once, and `endpoints` names exactly their remotes. */
  ghost predicate QueueInv(local: Endpoint, ready: seq<Result>, endpoints: set<Endpoint>) {
    && (forall i :: 0 <= i < |ready| && ready[i].Ok? ==>
          ready[i].cb.key.local == local && ready[i].cb.key.remote in endpoints)
    && (forall i, j :: 0 <= i < j < |ready| && ready[i].Ok? && ready[j].Ok? ==>
          ready[i].cb.key.remote != ready[j].cb.key.remote)
    && (forall e :: e in endpoints ==> exists i :: 0 <= i < |ready| && ready[i].Ok? && ready[i].cb.key.remote == e)
    && |endpoints| == OkCount(ready)
  }

  /**
   * Half-open and queued remotes are different, and together they stay within the backlog. (The
   * queue itself may be longer: it also holds the errors of expired half-open connections.)
   */
  ghost predicate ListenerInv(l: Listener) {
    && QueueInv(l.local, l.ready, l.endpoints)
    && (forall r :: r in l.inflight ==> r !in l.endpoints)
    && |l.inflight| + |l.endpoints| <= l.backlog
  }

  lemma NewListenerInv(local: Endpoint, backlog: nat)
    ensures ListenerInv(NewListener(local, backlog)) && NewListener(local, backlog).local == local
  {
  }

  lemma PushQueue(local: Endpoint, ready: seq<Result>, endpoints: set<Endpoint>, cb: ControlBlock)
    requires QueueInv(local, ready, endpoints)
    requires cb.key.local == local && cb.key.remote !in endpoints
    ensures QueueInv(local, ready + [Ok(cb)], endpoints + {cb.key.remote})
  {
    OkCountAppend(ready, Ok(cb));
    var s, n := ready + [Ok(cb)], |ready|;
    forall e | e in endpoints + {cb.key.remote}
      ensures exists i :: 0 <= i < |s| && s[i].Ok? && s[i].cb.key.remote == e
    {
      if e == cb.key.remote {
        assert s[n].Ok?;
      } else {
        var i :| 0 <= i < n && ready[i].Ok? && ready[i].cb.key.remote == e;
        assert s[i] == ready[i];
      }
    }
  }

  lemma PushErrQueue(local: Endpoint, ready: seq<Result>, endpoints: set<Endpoint>, e: Fail)
    requires QueueInv(local, ready, endpoints)
    ensures QueueInv(local, ready + [Err(e)], endpoints)
  {
    OkCountAppend(ready, Err(e));
    var s, n := ready + [Err(e)], |ready|;
    forall x | x in endpoints
      ensures exists i :: 0 <= i < |s| && s[i].Ok? && s[i].cb.key.remote == x
    {
      var i :| 0 <= i < n && ready[i].Ok? && ready[i].cb.key.remote == x;
      assert s[i] == ready[i];
    }
  }

  lemma PopQueue(local: Endpoint, ready: seq<Result>, endpoints: set<Endpoint>)
    requires QueueInv(local, ready, endpoints) && ready != []
    ensures ready[0].Ok? ==> ready[0].cb.key.remote in endpoints
    ensures QueueInv(local, ready[1..], if ready[0].Ok? then endpoints - {ready[0].cb.key.remote} else endpoints)
  {
    var s := ready[1..];
    var rest := if ready[0].Ok? then endpoints - {ready[0].cb.key.remote} else endpoints;
    forall i | 0 <= i < |s| && s[i].Ok? ensures s[i].cb.key.local == local && s[i].cb.key.remote in rest {
      assert s[i] == ready[i + 1];
    }
    forall x | x in rest
      ensures exists i :: 0 <= i < |s| && s[i].Ok? && s[i].cb.key.remote == x
    {
      var i :| 0 <= i < |ready| && ready[i].Ok? && ready[i].cb.key.remote == x;
      assert s[i - 1] == ready[i];
    }
  }

  /** A segment never breaks a listener and never trips its queue assertion; both error families are exact. */
  lemma ListenerReceiveKeeps(l: Listener, c: Config, remote: Endpoint, h: Header, isn: nat)
    requires ListenerInv(l)
    ensures var (m, reply) := ListenerReceive(l, c, remote, h, isn);
            && ListenerInv(m) && m.local == l.local
            && reply != Panicked(Maps)
            && (reply.Panicked? <==> remote !in l.endpoints && remote in l.inflight && h.ack
                                     && h.ackNum == Next(l.inflight[remote].localIsn)
                                     && !ShiftsFit(l.inflight[remote], c))
            && (remote in m.endpoints && remote !in l.endpoints ==> remote in l.inflight && remote !in m.inflight)
  {
    hide QueueInv;
    if remote in l.endpoints {
    } else if remote in l.inflight {
      var f := l.inflight[remote];
      if h.ack && h.ackNum == Next(f.localIsn) && ShiftsFit(f, c) {
        PushQueue(l.local, l.ready, l.endpoints, Completed(l.local, remote, f, c));
        assert (l.inflight - {remote}).Keys == l.inflight.Keys - {remote};
      }
    } else {
      BacklogCounts(l);
      assert l.inflight[remote := Begun(h, isn, c)].Keys == l.inflight.Keys + {remote};
    }
  }

  lemma BacklogCounts(l: Listener)
    requires ListenerInv(l)
    ensures |l.endpoints| <= |l.ready|
  {
  }

  lemma ListenerPollKeeps(l: Listener)
    requires ListenerInv(l)
    ensures var (m, result, reply) := ListenerPoll(l);
            && ListenerInv(m) && m.local == l.local && m.inflight == l.inflight
            && !reply.Panicked?
            && (reply == Pending <==> l.ready == [])
            && (result == Some(l.ready[0]) <== l.ready != [])
            && (result.Some? && result.value.Ok? ==>
                  result.value.cb.key.local == l.local && result.value.cb.key.remote in l.endpoints
                  && m.endpoints == l.endpoints - {result.value.cb.key.remote})
            && (result.Some? && result.value.Err? ==> m.endpoints == l.endpoints)
  {
    if l.ready != [] {
      PopQueue(l.local, l.ready, l.endpoints);
    }
  }

  /** Resending changes no entry but the tries; giving up queues an error and leaves the entry half open. */
  lemma ListenerTasksKeep(l: Listener, remote: Endpoint)
    requires ListenerInv(l)
    ensures CanAnswer(l, remote) ==>
              var m := ListenerTry(l, remote);
              && ListenerInv(m) && m.ready == l.ready && m.endpoints == l.endpoints
              && m.inflight.Keys == l.inflight.Keys
    ensures CanExpire(l, remote) ==>
              var m := ListenerExpire(l, remote);
              && ListenerInv(m) && m.ready == l.ready + [Err(Timeout)] && m.endpoints == l.endpoints
              && m.inflight.Keys == l.inflight.Keys && m.inflight[remote].expired
              && !CanAnswer(m, remote) && !CanExpire(m, remote)
  {
    hide QueueInv;
    if CanAnswer(l, remote) {
      assert ListenerTry(l, remote).inflight.Keys == l.inflight.Keys;
    }
    if CanExpire(l, remote) {
      PushErrQueue(l.local, l.ready, l.endpoints, Timeout);
      assert ListenerExpire(l, remote).inflight.Keys == l.inflight.Keys;
    }
  }

  /** Two half-open records describe the same offer; the state of the task may differ. */
  predicate SameOffer(f: Inflight, g: Inflight) {
    && f.localIsn == g.localIsn && f.remoteIsn == g.remoteIsn && f.window == g.window
    && f.scale == g.scale && f.mss == g.mss
  }

  /** The private ports still to be given out are different and in range. */
  ghost predicate PortsInv(ports: seq<nat>) {
    && Distinct(ports)
    && forall i :: 0 <= i < |ports| ==> FIRST_PRIVATE_PORT <= ports[i] <= LAST_PORT
  }

  /** The connection a descriptor stands for. */
  function Names(s: Socket): Option<Key> {
    if s.Connecting? || s.Established? then Some(s.key) else None
  }

  /** A descriptor points at what the maps hold. */
  predicate SocketGood(s: Socket, listeners: set<Endpoint>, started: set<Key>, established: set<Key>) {
    match s
    case Inactive(bound) => bound.Some? ==> bound.value.port < FIRST_PRIVATE_PORT
    case Listening(local) => local in listeners
    case Connecting(key) => key in started
    case Established(key) => key in established
  }

  ghost predicate SocketsGood(sockets: map<nat, Socket>, nextFd: nat, listeners: set<Endpoint>, started: set<Key>,
                              established: set<Key>) {
    forall fd :: fd in sockets ==> fd < nextFd && SocketGood(sockets[fd], listeners, started, established)
  }

  /** No two descriptors name the same connection. */
  ghost predicate SocketsApart(sockets: map<nat, Socket>) {
    forall fd, gd :: fd in sockets && gd in sockets && fd != gd && Names(sockets[fd]).Some? ==>
      Names(sockets[fd]) != Names(sockets[gd])
  }

  /** Everything a listener holds was logged. */
  ghost predicate HoldsOffers(l: Listener, offered: map<Key, Inflight>, completed: map<Key, ControlBlock>) {
    && (forall r :: r in l.inflight ==>
          Key(l.local, r) in offered && SameOffer(l.inflight[r], offered[Key(l.local, r)]))
    && (forall i :: 0 <= i < |l.ready| && l.ready[i].Ok? ==>
          l.ready[i].cb.key in completed && completed[l.ready[i].cb.key] == l.ready[i].cb)
  }

  ghost predicate ListenersInv(listeners: map<Endpoint, Listener>, offered: map<Key, Inflight>,
                               completed: map<Key, ControlBlock>) {
    forall e :: e in listeners ==>
      && e.port < FIRST_PRIVATE_PORT && listeners[e].local == e
      && ListenerInv(listeners[e]) && HoldsOffers(listeners[e], offered, completed)
  }

  ghost predicate ActiveGood(a: Active, key: Key, started: map<Key, nat>, built: map<Key, ControlBlock>) {
    && a.key == key && key in started && a.isn == started[key]
    && (a.result.Some? && a.result.value.Ok? ==> key in built && built[key] == a.result.value.cb)
  }

  ghost predicate ConnectingInv(connecting: map<Key, Active>, started: map<Key, nat>, built: map<Key, ControlBlock>,
                                established: set<Key>) {
    forall key :: key in connecting ==>
      key !in established && ActiveGood(connecting[key], key, started, built)
  }

  /** A listener no longer has anything about a remote. */
  predicate Forgotten(l: Listener, remote: Endpoint) {
    remote !in l.inflight && remote !in l.endpoints
  }

  /** Accepted connections: local ports below the private range. */
  ghost predicate AcceptedInv(established: map<Key, ControlBlock>, listeners: map<Endpoint, Listener>,
                              completed: map<Key, ControlBlock>) {
    forall key :: key in established && key.local.port < FIRST_PRIVATE_PORT ==>
      && key.local in listeners && Forgotten(listeners[key.local], key.remote)
      && key in completed && completed[key] == established[key]
  }

  /** Opened connections: local ports in the private range. */
  ghost predicate OpenedInv(established: map<Key, ControlBlock>, started: map<Key, nat>,
                            built: map<Key, ControlBlock>) {
    forall key :: key in established && key.local.port >= FIRST_PRIVATE_PORT ==>
      key in started && key in built && built[key] == established[key]
  }

  /** Private ports in use are never handed out again. */
  ghost predicate StartedInv(started: map<Key, nat>, addr: nat, ports: seq<nat>) {
    forall key :: key in started ==>
      key.local.addr == addr && FIRST_PRIVATE_PORT <= key.local.port && key.local.port !in ports
  }

  /** An answered SYN is half open, queued or established: it is never forgotten, so never answered twice. */
  ghost predicate OfferedInv(offered: map<Key, Inflight>, addr: nat, listeners: map<Endpoint, Listener>,
                             established: set<Key>) {
    forall key :: key in offered ==>
      && key.local.port < FIRST_PRIVATE_PORT && (key.local.addr == addr || key.local.addr == BROADCAST)
      && key.local in listeners
      && (key in established || !Forgotten(listeners[key.local], key.remote))
  }

  ghost predicate CompletedInv(completed: map<Key, ControlBlock>, offered: map<Key, Inflight>, c: Config) {
    forall key :: key in completed ==>
      key in offered && completed[key] == Completed(key.local, key.remote, offered[key], c)
  }

  ghost predicate PeerInv(p: Peer) {
    && PortsInv(p.ports)
    && SocketsGood(p.sockets, p.nextFd, p.listeners.Keys, p.log.started.Keys, p.established.Keys)
    && SocketsApart(p.sockets)
    && ListenersInv(p.listeners, p.log.offered, p.log.completed)
    && ConnectingInv(p.connecting, p.log.started, p.log.built, p.established.Keys)
    && AcceptedInv(p.established, p.listeners, p.log.completed)
    && OpenedInv(p.established, p.log.started, p.log.built)
    && StartedInv(p.log.started, p.addr, p.ports)
    && OfferedInv(p.log.offered, p.addr, p.listeners, p.established.Keys)
    && CompletedInv(p.log.completed, p.log.offered, p.config)
    && p.log.built.Keys <= p.log.started.Keys
  }

  /** The log only grows; opened sequence numbers, answered SYNs and accepted blocks never change. */
  ghost predicate Grows(a: Log, b: Log) {
    && (forall k :: k in a.started ==> k in b.started && b.started[k] == a.started[k])
    && (forall k :: k in a.offered ==> k in b.offered && b.offered[k] == a.offered[k])
    && (forall k :: k in a.built ==> k in b.built)
    && (forall k :: k in a.completed ==> k in b.completed && b.completed[k] == a.completed[k])
  }

  lemma SameLog(a: Log)
    ensures Grows(a, a)
  {
  }

  /** What every step of a peer keeps. */
  ghost predicate Kept(p: Peer, q: Peer) {
    PeerInv(q) && q.addr == p.addr && q.config == p.config && Grows(p.log, q.log)
  }

  /** A peer that has just been created, with the private ports in some order. */
  function Init(addr: nat, config: Config, ports: seq<nat>): Peer {
    Peer(addr, config, 0, ports, map[], map[], map[], map[], Log(map[], map[], map[], map[]))
  }

  lemma InitInv(addr: nat, config: Config, ports: seq<nat>)
    requires PortsInv(ports)
    ensures PeerInv(Init(addr, config, ports))
  {
  }

  // Changing one descriptor

  lemma SocketPut(s: map<nat, Socket>, n: nat, ls: set<Endpoint>, st: set<Key>, es: set<Key>,
                  fd: nat, x: Socket, n': nat, ls': set<Endpoint>, st': set<Key>, es': set<Key>)
    requires SocketsGood(s, n, ls, st, es) && SocketsApart(s)
    requires n <= n' && fd < n' && ls <= ls' && st <= st' && es <= es'
    requires SocketGood(x, ls', st', es')
    requires Names(x).Some? ==> forall g :: g in s && g != fd ==> Names(s[g]) != Names(x)
    ensures SocketsGood(s[fd := x], n', ls', st', es') && SocketsApart(s[fd := x])
  {
  }

  lemma FreshDescriptor(s: map<nat, Socket>, n: nat, ls: set<Endpoint>, st: set<Key>, es: set<Key>)
    requires SocketsGood(s, n, ls, st, es)
    ensures n !in s
    ensures SocketsGood(s, n + 1, ls, st, es)
  {
  }

  lemma NewSocketKeeps(p: Peer)
    requires PeerInv(p)
    ensures NewSocket(p).1 == Done && Kept(p, NewSocket(p).0)
    ensures Kept(p, OtherDescriptor(p))
    ensures p.nextFd !in p.sockets && NewSocket(p).0.nextFd > p.nextFd && OtherDescriptor(p).nextFd > p.nextFd
  {
    hide PortsInv, SocketsGood, SocketsApart, ListenersInv, ConnectingInv, AcceptedInv, OpenedInv, StartedInv,
         OfferedInv, CompletedInv, Grows;
    var ls, st, es := p.listeners.Keys, p.log.started.Keys, p.established.Keys;
    FreshDescriptor(p.sockets, p.nextFd, ls, st, es);
    SocketPut(p.sockets, p.nextFd, ls, st, es, p.nextFd, Inactive(None), p.nextFd + 1, ls, st, es);
    SameLog(p.log);
  }

  lemma SocketAt(s: map<nat, Socket>, n: nat, ls: set<Endpoint>, st: set<Key>, es: set<Key>, fd: nat)
    requires SocketsGood(s, n, ls, st, es) && fd in s
    ensures fd < n && SocketGood(s[fd], ls, st, es)
  {
  }

  lemma BindKeeps(p: Peer, fd: nat, e: Endpoint)
    requires PeerInv(p)
    ensures Kept(p, Bind(p, fd, e).0) && !Bind(p, fd, e).1.Panicked?
  {
    hide PortsInv, SocketsGood, SocketsApart, ListenersInv, ConnectingInv, AcceptedInv, OpenedInv, StartedInv,
         OfferedInv, CompletedInv, Grows;
    SameLog(p.log);
    if e.port < FIRST_PRIVATE_PORT && fd in p.sockets && p.sockets[fd].Inactive? {
      var ls, st, es := p.listeners.Keys, p.log.started.Keys, p.established.Keys;
      SocketAt(p.sockets, p.nextFd, ls, st, es, fd);
      SocketPut(p.sockets, p.nextFd, ls, st, es, fd, Inactive(Some(e)), p.nextFd, ls, st, es);
    }
  }

  lemma NewHoldsNothing(local: Endpoint, backlog: nat, offered: map<Key, Inflight>,
                        completed: map<Key, ControlBlock>)
    ensures HoldsOffers(NewListener(local, backlog), offered, completed)
  {
  }

  /** A fresh listener fits beside the others. */
  lemma ListenerAdd(ls: map<Endpoint, Listener>, local: Endpoint, l: Listener, offered: map<Key, Inflight>,
                    completed: map<Key, ControlBlock>, established: map<Key, ControlBlock>, addr: nat)
    requires ListenersInv(ls, offered, completed) && AcceptedInv(established, ls, completed)
    requires OfferedInv(offered, addr, ls, established.Keys)
    requires local !in ls && local.port < FIRST_PRIVATE_PORT && l.local == local
    requires ListenerInv(l) && HoldsOffers(l, offered, completed)
    ensures ListenersInv(ls[local := l], offered, completed)
    ensures AcceptedInv(established, ls[local := l], completed)
    ensures OfferedInv(offered, addr, ls[local := l], established.Keys)
  {
    hide ListenerInv, HoldsOffers, Forgotten;
  }

  lemma KeysPut<K, V>(m: map<K, V>, k: K, v: V)
    ensures m[k := v].Keys == m.Keys + {k}
  {
  }

  /** A bound descriptor turns into a listening one. */
  lemma SocketListens(s: map<nat, Socket>, n: nat, ls: set<Endpoint>, st: set<Key>, es: set<Key>, fd: nat)
    requires SocketsGood(s, n, ls, st, es) && SocketsApart(s) && fd in s && s[fd].Inactive? && s[fd].bound.Some?
    ensures var local := s[fd].bound.value;
            && local.port < FIRST_PRIVATE_PORT
            && SocketsGood(s[fd := Listening(local)], n, ls + {local}, st, es)
            && SocketsApart(s[fd := Listening(local)])
  {
    var local := s[fd].bound.value;
    hide SocketsGood, SocketsApart;
    SocketAt(s, n, ls, st, es, fd);
    SocketPut(s, n, ls, st, es, fd, Listening(local), n, ls + {local}, st, es);
  }

  lemma ListenKeeps(p: Peer, fd: nat, backlog: nat)
    requires PeerInv(p)
    ensures Kept(p, Listen(p, fd, backlog).0) && !Listen(p, fd, backlog).1.Panicked?
  {
    hide PortsInv, SocketsGood, SocketsApart, ListenersInv, ConnectingInv, AcceptedInv, OpenedInv, StartedInv,
         OfferedInv, CompletedInv, Grows, ListenerInv, HoldsOffers, NewListener;
    SameLog(p.log);
    if fd in p.sockets && p.sockets[fd].Inactive? && p.sockets[fd].bound.Some? {
      var local := p.sockets[fd].bound.value;
      SocketListens(p.sockets, p.nextFd, p.listeners.Keys, p.log.started.Keys, p.established.Keys, fd);
      if local !in p.listeners {
        var l := NewListener(local, backlog);
        NewListenerInv(local, backlog);
        NewHoldsNothing(local, backlog, p.log.offered, p.log.completed);
        ListenerAdd(p.listeners, local, l, p.log.offered, p.log.completed, p.established, p.addr);
        KeysPut(p.listeners, local, l);
      }
    }
  }

  // Changing one listener

  lemma ListenerReplace(ls: map<Endpoint, Listener>, e: Endpoint, m: Listener,
                        offered: map<Key, Inflight>, completed: map<Key, ControlBlock>,
                        offered': map<Key, Inflight>, completed': map<Key, ControlBlock>)
    requires ListenersInv(ls, offered, completed)
    requires e in ls && m.local == e && ListenerInv(m) && HoldsOffers(m, offered', completed')
    requires forall k :: k in offered ==> k in offered' && offered'[k] == offered[k]
    requires forall k :: k in completed ==> k in completed' && completed'[k] == completed[k]
    ensures ListenersInv(ls[e := m], offered', completed')
  {
    hide ListenerInv;
  }

  lemma AcceptedReplace(established: map<Key, ControlBlock>, ls: map<Endpoint, Listener>, e: Endpoint, m: Listener,
                        completed: map<Key, ControlBlock>, completed': map<Key, ControlBlock>)
    requires AcceptedInv(established, ls, completed) && e in ls
    requires forall r :: Key(e, r) in established && Forgotten(ls[e], r) ==> Forgotten(m, r)
    requires forall k :: k in completed ==> k in completed' && completed'[k] == completed[k]
    ensures AcceptedInv(established, ls[e := m], completed')
  {
    hide Forgotten;
    forall key | key in established && key.local.port < FIRST_PRIVATE_PORT
      ensures key.local in ls[e := m] && Forgotten(ls[e := m][key.local], key.remote)
              && key in completed' && completed'[key] == established[key]
    {
      if key.local == e { assert key == Key(e, key.remote); }
    }
  }

  lemma OfferedReplace(offered: map<Key, Inflight>, addr: nat, ls: map<Endpoint, Listener>, es: set<Key>,
                       e: Endpoint, m: Listener, es': set<Key>)
    requires OfferedInv(offered, addr, ls, es) && e in ls && es <= es'
    requires forall r :: !Forgotten(ls[e], r) ==> !Forgotten(m, r) || Key(e, r) in es'
    ensures OfferedInv(offered, addr, ls[e := m], es')
  {
    hide Forgotten;
    forall key | key in offered
      ensures key in es' || !Forgotten(ls[e := m][key.local], key.remote)
    {
      if key.local == e { assert key == Key(e, key.remote); }
    }
  }

  lemma ListenerAt(ls: map<Endpoint, Listener>, e: Endpoint, offered: map<Key, Inflight>,
                   completed: map<Key, ControlBlock>)
    requires ListenersInv(ls, offered, completed) && e in ls
    ensures e.port < FIRST_PRIVATE_PORT && ls[e].local == e
    ensures ListenerInv(ls[e]) && HoldsOffers(ls[e], offered, completed)
  {
  }

  /** Taking a result out of the queue leaves the listener consistent with the log. */
  lemma PolledHolds(l: Listener, offered: map<Key, Inflight>, completed: map<Key, ControlBlock>)
    requires ListenerInv(l) && HoldsOffers(l, offered, completed) && l.ready != []
    ensures HoldsOffers(ListenerPoll(l).0, offered, completed)
    ensures l.ready[0].Ok? ==> l.ready[0].cb.key in completed && completed[l.ready[0].cb.key] == l.ready[0].cb
  {
    hide QueueInv;
    var m := ListenerPoll(l).0;
    ListenerPollKeeps(l);
    forall i | 0 <= i < |m.ready| && m.ready[i].Ok?
      ensures m.ready[i].cb.key in completed && completed[m.ready[i].cb.key] == m.ready[i].cb
    {
      assert m.ready[i] == l.ready[i + 1];
    }
  }

  /** A queued remote is not established yet. */
  lemma QueuedNotEstablished(established: map<Key, ControlBlock>, ls: map<Endpoint, Listener>,
                             completed: map<Key, ControlBlock>, key: Key)
    requires AcceptedInv(established, ls, completed)
    requires key.local in ls && key.local.port < FIRST_PRIVATE_PORT && !Forgotten(ls[key.local], key.remote)
    ensures key !in established
  {
  }

  lemma ConnectingApart(connecting: map<Key, Active>, started: map<Key, nat>, built: map<Key, ControlBlock>,
                        es: set<Key>, addr: nat, ports: seq<nat>, key: Key)
    requires ConnectingInv(connecting, started, built, es) && StartedInv(started, addr, ports)
    requires key.local.port < FIRST_PRIVATE_PORT
    ensures ConnectingInv(connecting, started, built, es + {key})
  {
  }

  lemma NamesApart(s: map<nat, Socket>, n: nat, ls: set<Endpoint>, started: map<Key, nat>, es: set<Key>,
                   addr: nat, ports: seq<nat>, key: Key)
    requires SocketsGood(s, n, ls, started.Keys, es) && StartedInv(started, addr, ports)
    requires key.local.port < FIRST_PRIVATE_PORT && key !in es
    ensures forall fd :: fd in s ==> Names(s[fd]) != Some(key)
  {
    forall fd | fd in s ensures Names(s[fd]) != Some(key) {
      assert SocketGood(s[fd], ls, started.Keys, es);
    }
  }

  /** The part of accepting that changes the map of established connections. */
  lemma AcceptedAdd(established: map<Key, ControlBlock>, ls: map<Endpoint, Listener>,
                    completed: map<Key, ControlBlock>, cb: ControlBlock)
    requires AcceptedInv(established, ls, completed)
    requires cb.key.local in ls && Forgotten(ls[cb.key.local], cb.key.remote)
    requires cb.key in completed && completed[cb.key] == cb
    ensures AcceptedInv(established[cb.key := cb], ls, completed)
  {
  }

  lemma OpenedAccept(established: map<Key, ControlBlock>, started: map<Key, nat>, built: map<Key, ControlBlock>,
                     cb: ControlBlock)
    requires OpenedInv(established, started, built) && cb.key.local.port < FIRST_PRIVATE_PORT
    ensures OpenedInv(established[cb.key := cb], started, built)
  {
  }

  /** Taking a finished connection makes the listener forget its remote and nothing else. */
  lemma PolledForgets(l: Listener)
    requires ListenerInv(l) && l.ready != [] && l.ready[0].Ok?
    ensures var (m, r) := (ListenerPoll(l).0, l.ready[0].cb.key.remote);
            && !Forgotten(l, r) && Forgotten(m, r)
            && forall x :: x != r ==> Forgotten(m, x) == Forgotten(l, x)
  {
    hide QueueInv;
    ListenerPollKeeps(l);
  }

  /** The listener's side of accepting. */
  lemma AcceptListener(p: Peer, local: Endpoint, cb: ControlBlock)
    requires PeerInv(p) && local in p.listeners && cb.key.local == local
    requires p.listeners[local].ready != [] && p.listeners[local].ready[0] == Ok(cb)
    ensures cb.key !in p.established && local.port < FIRST_PRIVATE_PORT
    ensures var ls := p.listeners[local := ListenerPoll(p.listeners[local]).0];
            && ListenersInv(ls, p.log.offered, p.log.completed)
            && AcceptedInv(p.established[cb.key := cb], ls, p.log.completed)
            && OfferedInv(p.log.offered, p.addr, ls, p.established.Keys + {cb.key})
  {
    hide PortsInv, SocketsGood, SocketsApart, ListenersInv, ConnectingInv, AcceptedInv, OpenedInv, StartedInv,
         OfferedInv, CompletedInv, Grows;
    hide ListenerInv, HoldsOffers, ListenerPoll, Forgotten;
    var l, key := p.listeners[local], cb.key;
    var m, es := ListenerPoll(l).0, p.established.Keys;
    ListenerAt(p.listeners, local, p.log.offered, p.log.completed);
    ListenerPollKeeps(l);
    PolledHolds(l, p.log.offered, p.log.completed);
    PolledForgets(l);
    QueuedNotEstablished(p.established, p.listeners, p.log.completed, key);
    ListenerReplace(p.listeners, local, m, p.log.offered, p.log.completed, p.log.offered, p.log.completed);
    AcceptedReplace(p.established, p.listeners, local, m, p.log.completed, p.log.completed);
    AcceptedAdd(p.established, p.listeners[local := m], p.log.completed, cb);
    OfferedReplace(p.log.offered, p.addr, p.listeners, es, local, m, es + {key});
  }

  /** Installing an accepted connection: the bookkeeping assertions hold. */
  lemma InstallKeeps(p: Peer, local: Endpoint, m: Listener, cb: ControlBlock)
    requires PeerInv(p) && local in p.listeners && cb.key.local == local
    requires m == ListenerPoll(p.listeners[local]).0
    requires p.listeners[local].ready != [] && p.listeners[local].ready[0] == Ok(cb)
    ensures var q := p.(listeners := p.listeners[local := m]);
            Install(q, cb).1 == Done && Kept(p, Install(q, cb).0)
  {
    hide PortsInv, SocketsGood, SocketsApart, ListenersInv, ConnectingInv, AcceptedInv, OpenedInv, StartedInv,
         OfferedInv, CompletedInv, Grows;
    hide ListenerPoll;
    var key, ls, st, es := cb.key, p.listeners.Keys, p.log.started.Keys, p.established.Keys;
    SameLog(p.log);
    AcceptListener(p, local, cb);
    FreshDescriptor(p.sockets, p.nextFd, ls, st, es);
    OpenedAccept(p.established, p.log.started, p.log.built, cb);
    assert p.established[key := cb].Keys == es + {key};
    ConnectingApart(p.connecting, p.log.started, p.log.built, es, p.addr, p.ports, key);
    NamesApart(p.sockets, p.nextFd, ls, p.log.started, es, p.addr, p.ports, key);
    assert p.listeners[local := m].Keys == ls;
    SocketPut(p.sockets, p.nextFd, ls, st, es, p.nextFd, Established(key), p.nextFd + 1, ls, st, es + {key});
  }

  /** Accepting never trips an assertion, and it answers with what the queue held. */
  lemma AcceptKeeps(p: Peer, fd: nat)
    requires PeerInv(p)
    ensures Kept(p, Accept(p, fd).0) && !Accept(p, fd).1.Panicked?
  {
    hide PortsInv, SocketsGood, SocketsApart, ListenersInv, ConnectingInv, AcceptedInv, OpenedInv, StartedInv,
         OfferedInv, CompletedInv, Grows;
    hide ListenerInv, HoldsOffers, ListenerPoll, Install;
    SameLog(p.log);
    if fd in p.sockets && p.sockets[fd].Listening? {
      var local := p.sockets[fd].local;
      var ls, st, es := p.listeners.Keys, p.log.started.Keys, p.established.Keys;
      SocketAt(p.sockets, p.nextFd, ls, st, es, fd);
      var l := p.listeners[local];
      ListenerAt(p.listeners, local, p.log.offered, p.log.completed);
      ListenerPollKeeps(l);
      ListenerPollEmpty(l);
      if l.ready != [] {
        var m := ListenerPoll(l).0;
        if l.ready[0].Ok? {
          InstallKeeps(p, local, m, l.ready[0].cb);
        } else {
          PolledHolds(l, p.log.offered, p.log.completed);
          ListenerReplace(p.listeners, local, m, p.log.offered, p.log.completed, p.log.offered, p.log.completed);
          AcceptedReplace(p.established, p.listeners, local, m, p.log.completed, p.log.completed);
          OfferedReplace(p.log.offered, p.addr, p.listeners, es, local, m, es);
          assert p.listeners[local := m].Keys == ls;
        }
      }
    }
  }

  lemma ListenerPollEmpty(l: Listener)
    ensures l.ready == [] ==> ListenerPoll(l).1.None? && ListenerPoll(l).2 == Pending
  {
  }

  // Opening a connection

  /** The key of the next opened connection is new everywhere. */
  lemma FreshKey(p: Peer, key: Key)
    requires OpenedInv(p.established, p.log.started, p.log.built)
    requires ConnectingInv(p.connecting, p.log.started, p.log.built, p.established.Keys)
    requires StartedInv(p.log.started, p.addr, p.ports) && PortsInv(p.ports)
    requires SocketsGood(p.sockets, p.nextFd, p.listeners.Keys, p.log.started.Keys, p.established.Keys)
    requires key.local.port in p.ports
    ensures key !in p.log.started && key !in p.established && key !in p.connecting
    ensures forall fd :: fd in p.sockets ==> Names(p.sockets[fd]) != Some(key)
  {
    forall fd | fd in p.sockets ensures Names(p.sockets[fd]) != Some(key) {
      assert SocketGood(p.sockets[fd], p.listeners.Keys, p.log.started.Keys, p.established.Keys);
    }
  }

  lemma TakePort(ports: seq<nat>, started: map<Key, nat>, addr: nat, remote: Endpoint, isn: nat)
    requires ports != [] && PortsInv(ports) && StartedInv(started, addr, ports)
    ensures var n := |ports| - 1;
            && PortsInv(ports[..n])
            && StartedInv(started[Key(Endpoint(addr, ports[n]), remote) := isn], addr, ports[..n])
  {
    var n := |ports| - 1;
    assert ports[n] in ports;
    assert forall x :: x in ports[..n] ==> x in ports;
  }

  lemma StartedGrows(started: map<Key, nat>, key: Key, isn: nat, connecting: map<Key, Active>,
                     built: map<Key, ControlBlock>, established: map<Key, ControlBlock>, retries: nat)
    requires key !in started && key !in established
    requires ConnectingInv(connecting, started, built, established.Keys) && OpenedInv(established, started, built)
    ensures ConnectingInv(connecting[key := Active(key, isn, retries, false, None)], started[key := isn], built,
                          established.Keys)
    ensures OpenedInv(established, started[key := isn], built)
  {
  }

  lemma LogStarts(log: Log, key: Key, isn: nat)
    requires key !in log.started
    ensures Grows(log, log.(started := log.started[key := isn]))
  {
  }

  lemma ConnectKeeps(p: Peer, fd: nat, remote: Endpoint, isn: nat)
    requires PeerInv(p)
    ensures Kept(p, Connect(p, fd, remote, isn).0) && !Connect(p, fd, remote, isn).1.Panicked?
  {
    hide PortsInv, SocketsGood, SocketsApart, ListenersInv, ConnectingInv, AcceptedInv, OpenedInv, StartedInv,
         OfferedInv, CompletedInv, Grows;
    SameLog(p.log);
    if fd in p.sockets && p.sockets[fd].Inactive? && p.ports != [] {
      var key := Key(Endpoint(p.addr, p.ports[|p.ports| - 1]), remote);
      var ls, st, es := p.listeners.Keys, p.log.started.Keys, p.established.Keys;
      SocketAt(p.sockets, p.nextFd, ls, st, es, fd);
      FreshKey(p, key);
      TakePort(p.ports, p.log.started, p.addr, remote, isn);
      StartedGrows(p.log.started, key, isn, p.connecting, p.log.built, p.established, p.config.retries);
      LogStarts(p.log, key, isn);
      assert p.log.started[key := isn].Keys == st + {key};
      SocketPut(p.sockets, p.nextFd, ls, st, es, fd, Connecting(key), p.nextFd, ls, st + {key}, es);
    }
  }

  lemma ConnectingAt(connecting: map<Key, Active>, started: map<Key, nat>, built: map<Key, ControlBlock>,
                     es: set<Key>, key: Key)
    requires ConnectingInv(connecting, started, built, es) && key in connecting
    ensures key !in es && ActiveGood(connecting[key], key, started, built)
    ensures ConnectingInv(connecting - {key}, started, built, es)
    ensures ConnectingInv(connecting - {key}, started, built, es + {key})
  {
  }

  lemma OpenedAdd(established: map<Key, ControlBlock>, started: map<Key, nat>, built: map<Key, ControlBlock>,
                  key: Key, addr: nat, ports: seq<nat>, ls: map<Endpoint, Listener>,
                  completed: map<Key, ControlBlock>, offered: map<Key, Inflight>)
    requires OpenedInv(established, started, built) && AcceptedInv(established, ls, completed)
    requires key in started && key in built && StartedInv(started, addr, ports)
    requires OfferedInv(offered, addr, ls, established.Keys)
    ensures OpenedInv(established[key := built[key]], started, built)
    ensures AcceptedInv(established[key := built[key]], ls, completed)
    ensures OfferedInv(offered, addr, ls, established.Keys + {key})
  {
    hide Forgotten;
  }

  /** The socket that was opening a connection names it afterwards, and nobody else does. */
  lemma OnlyName(s: map<nat, Socket>, fd: nat)
    requires SocketsApart(s) && fd in s && Names(s[fd]).Some?
    ensures forall g :: g in s && g != fd ==> Names(s[g]) != Names(s[fd])
  {
  }

  lemma PollConnectKeeps(p: Peer, fd: nat)
    requires PeerInv(p)
    ensures Kept(p, PollConnect(p, fd).0) && !PollConnect(p, fd).1.Panicked?
  {
    hide PortsInv, SocketsGood, SocketsApart, ListenersInv, ConnectingInv, AcceptedInv, OpenedInv, StartedInv,
         OfferedInv, CompletedInv, Grows;
    SameLog(p.log);
    if fd in p.sockets && p.sockets[fd].Connecting? && p.sockets[fd].key in p.connecting {
      var key := p.sockets[fd].key;
      var ls, st, es := p.listeners.Keys, p.log.started.Keys, p.established.Keys;
      ConnectingAt(p.connecting, p.log.started, p.log.built, es, key);
      var result := p.connecting[key].result;
      if result.Some? && result.value.Ok? {
        OpenedAdd(p.established, p.log.started, p.log.built, key, p.addr, p.ports, p.listeners, p.log.completed,
                  p.log.offered);
        SocketAt(p.sockets, p.nextFd, ls, st, es, fd);
        OnlyName(p.sockets, fd);
        assert p.established[key := p.log.built[key]].Keys == es + {key};
        SocketPut(p.sockets, p.nextFd, ls, st, es, fd, Established(key), p.nextFd, ls, st, es + {key});
      }
    }
  }

  // Background tasks

  lemma ConnectingPut(connecting: map<Key, Active>, started: map<Key, nat>, built: map<Key, ControlBlock>,
                      es: set<Key>, key: Key, a: Active)
    requires ConnectingInv(connecting, started, built, es) && key in connecting
    requires ActiveGood(a, key, started, built)
    ensures ConnectingInv(connecting[key := a], started, built, es)
  {
  }

  lemma ActiveTasksKeep(p: Peer, key: Key)
    requires PeerInv(p)
    ensures CanSyn(p, key) ==> Kept(p, SynTry(p, key)) && key in p.log.started
                               && p.connecting[key].isn == p.log.started[key]
    ensures CanGiveUp(p, key) ==>
              var q := GiveUp(p, key);
              Kept(p, q) && q.connecting[key].result == Some(Err(Timeout)) && !CanSyn(q, key) && !CanGiveUp(q, key)
  {
    hide PortsInv, SocketsGood, SocketsApart, ListenersInv, ConnectingInv, AcceptedInv, OpenedInv, StartedInv,
         OfferedInv, CompletedInv, Grows;
    SameLog(p.log);
    if key in p.connecting {
      var a, es := p.connecting[key], p.established.Keys;
      ConnectingAt(p.connecting, p.log.started, p.log.built, es, key);
      if a.tries > 0 {
        ConnectingPut(p.connecting, p.log.started, p.log.built, es, key, ActiveTry(a));
      }
      ConnectingPut(p.connecting, p.log.started, p.log.built, es, key, ActiveExpire(a));
    }
  }

  /** A listener whose half-open remotes and queued connections are the same fits in place of the old one. */
  lemma ListenerTurn(p: Peer, e: Endpoint, m: Listener)
    requires PeerInv(p) && e in p.listeners && m.local == e
    requires ListenerInv(m) && HoldsOffers(m, p.log.offered, p.log.completed)
    requires forall r :: Forgotten(m, r) == Forgotten(p.listeners[e], r)
    ensures Kept(p, p.(listeners := p.listeners[e := m]))
  {
    hide PortsInv, SocketsGood, SocketsApart, ListenersInv, ConnectingInv, AcceptedInv, OpenedInv, StartedInv,
         OfferedInv, CompletedInv, Grows;
    hide ListenerInv, HoldsOffers, Forgotten;
    SameLog(p.log);
    var es := p.established.Keys;
    ListenerReplace(p.listeners, e, m, p.log.offered, p.log.completed, p.log.offered, p.log.completed);
    AcceptedReplace(p.established, p.listeners, e, m, p.log.completed, p.log.completed);
    OfferedReplace(p.log.offered, p.addr, p.listeners, es, e, m, es);
    assert p.listeners[e := m].Keys == p.listeners.Keys;
  }

  lemma TasksHold(l: Listener, remote: Endpoint, offered: map<Key, Inflight>, completed: map<Key, ControlBlock>)
    requires HoldsOffers(l, offered, completed)
    ensures CanAnswer(l, remote) ==> HoldsOffers(ListenerTry(l, remote), offered, completed)
    ensures CanExpire(l, remote) ==> HoldsOffers(ListenerExpire(l, remote), offered, completed)
    ensures remote in l.inflight ==>
              Key(l.local, remote) in offered && SameOffer(l.inflight[remote], offered[Key(l.local, remote)])
  {
  }

  lemma ListenerTasksHold(p: Peer, key: Key)
    requires PeerInv(p)
    ensures CanSynAck(p, key) ==>
              Kept(p, SynAckTry(p, key)) && key in p.log.offered
              && SameOffer(p.listeners[key.local].inflight[key.remote], p.log.offered[key])
    ensures CanDrop(p, key) ==> Kept(p, DropTry(p, key))
  {
    if key.local in p.listeners {
      hide PeerInv, ListenerInv, HoldsOffers, Kept;
      var l := p.listeners[key.local];
      assert ListenersInv(p.listeners, p.log.offered, p.log.completed) by { Listeners(p); }
      ListenerAt(p.listeners, key.local, p.log.offered, p.log.completed);
      ListenerTasksKeep(l, key.remote);
      TasksHold(l, key.remote, p.log.offered, p.log.completed);
      if CanSynAck(p, key) { ListenerTurn(p, key.local, ListenerTry(l, key.remote)); }
      if CanDrop(p, key) { ListenerTurn(p, key.local, ListenerExpire(l, key.remote)); }
    }
  }

  lemma Listeners(p: Peer)
    requires PeerInv(p)
    ensures ListenersInv(p.listeners, p.log.offered, p.log.completed)
  {
  }

  // Receiving a segment

  /** A newly built control block replaces at most one of a connection that is still being opened. */
  lemma BuiltPut(connecting: map<Key, Active>, established: map<Key, ControlBlock>, started: map<Key, nat>,
                 built: map<Key, ControlBlock>, key: Key, a: Active, cb: ControlBlock)
    requires ConnectingInv(connecting, started, built, established.Keys) && key in connecting
    requires OpenedInv(established, started, built)
    requires a.key == key && a.isn == connecting[key].isn && a.result == Some(Ok(cb))
    ensures ConnectingInv(connecting[key := a], started, built[key := cb], established.Keys)
    ensures OpenedInv(established, started, built[key := cb])
  {
    forall k | k in connecting[key := a]
      ensures k !in established.Keys && ActiveGood(connecting[key := a][k], k, started, built[key := cb])
    {
      assert ActiveGood(connecting[k], k, started, built);
    }
  }

  lemma LogBuilds(log: Log, key: Key, cb: ControlBlock)
    ensures Grows(log, log.(built := log.built[key := cb]))
  {
  }

  lemma ToConnectingKeeps(p: Peer, key: Key, h: Header, resolved: bool)
    requires PeerInv(p) && key in p.connecting
    ensures var (q, _, reply) := ToConnecting(p, key, h, resolved);
            Kept(p, q) && reply != Panicked(Maps)
  {
    hide PortsInv, SocketsGood, SocketsApart, ListenersInv, ConnectingInv, AcceptedInv, OpenedInv, StartedInv,
         OfferedInv, CompletedInv, Grows;
    hide Connected;
    SameLog(p.log);
    var a, es := p.connecting[key], p.established.Keys;
    ConnectingAt(p.connecting, p.log.started, p.log.built, es, key);
    var (b, sent, reply) := ActiveReceive(a, p.config, h, resolved);
    if sent.Some? && reply == Done {
      var cb := Connected(a, p.config, h);
      BuiltPut(p.connecting, p.established, p.log.started, p.log.built, key, b, cb);
      LogBuilds(p.log, key, cb);
    } else {
      ConnectingPut(p.connecting, p.log.started, p.log.built, es, key, b);
    }
  }

  /** A SYN from a remote the listener knows nothing of was never answered before. */
  lemma NeverOffered(p: Peer, key: Key)
    requires OfferedInv(p.log.offered, p.addr, p.listeners, p.established.Keys)
    requires key.local in p.listeners && Forgotten(p.listeners[key.local], key.remote) && key !in p.established
    ensures key !in p.log.offered
  {
  }

  lemma OfferedAdd(offered: map<Key, Inflight>, addr: nat, ls: map<Endpoint, Listener>, es: set<Key>,
                   key: Key, f: Inflight)
    requires OfferedInv(offered, addr, ls, es) && key.local in ls
    requires key.local.port < FIRST_PRIVATE_PORT && (key.local.addr == addr || key.local.addr == BROADCAST)
    requires !Forgotten(ls[key.local], key.remote)
    ensures OfferedInv(offered[key := f], addr, ls, es)
  {
    hide Forgotten;
  }

  lemma LogOffers(log: Log, key: Key, f: Inflight)
    requires key !in log.offered
    ensures Grows(log, log.(offered := log.offered[key := f]))
    ensures forall c :: CompletedInv(log.completed, log.offered, c) ==>
              CompletedInv(log.completed, log.offered[key := f], c)
  {
  }

  lemma BegunHolds(l: Listener, remote: Endpoint, f: Inflight, offered: map<Key, Inflight>,
                   completed: map<Key, ControlBlock>)
    requires HoldsOffers(l, offered, completed) && Key(l.local, remote) !in offered
    ensures HoldsOffers(l.(inflight := l.inflight[remote := f]), offered[Key(l.local, remote) := f], completed)
  {
  }

  /** A SYN is answered. */
  lemma BeginKeeps(p: Peer, key: Key, h: Header, isn: nat)
    requires PeerInv(p) && key.local in p.listeners && key !in p.established && OwnAddress(p, key.local.addr)
    requires Forgotten(p.listeners[key.local], key.remote)
    requires ListenerReceive(p.listeners[key.local], p.config, key.remote, h, isn).1 == Done
    ensures Kept(p, ToListener(p, key, h, isn).0)
  {
    hide PortsInv, SocketsGood, SocketsApart, ListenersInv, ConnectingInv, AcceptedInv, OpenedInv, StartedInv,
         OfferedInv, CompletedInv, Grows;
    hide ListenerInv, HoldsOffers, Begun;
    var e, l, es := key.local, p.listeners[key.local], p.established.Keys;
    var f := Begun(h, isn, p.config);
    var m := ListenerReceive(l, p.config, key.remote, h, isn).0;
    ListenerAt(p.listeners, e, p.log.offered, p.log.completed);
    NeverOffered(p, key);
    ListenerReceiveKeeps(l, p.config, key.remote, h, isn);
    BegunHolds(l, key.remote, f, p.log.offered, p.log.completed);
    LogOffers(p.log, key, f);
    var offered := p.log.offered[key := f];
    ListenerReplace(p.listeners, e, m, p.log.offered, p.log.completed, offered, p.log.completed);
    AcceptedReplace(p.established, p.listeners, e, m, p.log.completed, p.log.completed);
    OfferedReplace(p.log.offered, p.addr, p.listeners, es, e, m, es);
    OfferedAdd(p.log.offered, p.addr, p.listeners[e := m], es, key, f);
    assert p.listeners[e := m].Keys == p.listeners.Keys;
  }

  lemma SameOfferCompletes(local: Endpoint, remote: Endpoint, f: Inflight, g: Inflight, c: Config)
    requires SameOffer(f, g)
    ensures Completed(local, remote, f, c) == Completed(local, remote, g, c)
  {
  }

  lemma CompletedPut(completed: map<Key, ControlBlock>, offered: map<Key, Inflight>, c: Config, key: Key,
                     cb: ControlBlock)
    requires CompletedInv(completed, offered, c)
    requires key in offered && cb == Completed(key.local, key.remote, offered[key], c)
    ensures CompletedInv(completed[key := cb], offered, c)
    ensures forall k :: k in completed ==> completed[key := cb][k] == completed[k]
  {
    hide Completed;
  }

  lemma LogCompletes(log: Log, key: Key, cb: ControlBlock)
    requires forall k :: k in log.completed ==> log.completed[key := cb][k] == log.completed[k]
    ensures Grows(log, log.(completed := log.completed[key := cb]))
  {
  }

  lemma CompletedHolds(l: Listener, remote: Endpoint, cb: ControlBlock, offered: map<Key, Inflight>,
                       completed: map<Key, ControlBlock>)
    requires HoldsOffers(l, offered, completed) && cb.key == Key(l.local, remote)
    requires forall k :: k in completed ==> completed[cb.key := cb][k] == completed[k]
    ensures HoldsOffers(l.(inflight := l.inflight - {remote}, ready := l.ready + [Ok(cb)],
                           endpoints := l.endpoints + {remote}), offered, completed[cb.key := cb])
  {
    var m := l.(inflight := l.inflight - {remote}, ready := l.ready + [Ok(cb)], endpoints := l.endpoints + {remote});
    forall i | 0 <= i < |m.ready| && m.ready[i].Ok?
      ensures m.ready[i].cb.key in completed[cb.key := cb]
              && completed[cb.key := cb][m.ready[i].cb.key] == m.ready[i].cb
    {
      if i < |l.ready| {
        assert m.ready[i] == l.ready[i];
      }
    }
  }

  /** A half-open connection is completed. */
  lemma CompleteKeeps(p: Peer, key: Key, h: Header, isn: nat)
    requires PeerInv(p) && key.local in p.listeners && key !in p.established
    requires key.remote in p.listeners[key.local].inflight
    requires key.remote !in ListenerReceive(p.listeners[key.local], p.config, key.remote, h, isn).0.inflight
    ensures Kept(p, ToListener(p, key, h, isn).0)
  {
    hide PortsInv, SocketsGood, SocketsApart, ListenersInv, ConnectingInv, AcceptedInv, OpenedInv, StartedInv,
         OfferedInv, CompletedInv, Grows;
    hide ListenerInv, HoldsOffers, Completed, SameOffer;
    var e, l, es := key.local, p.listeners[key.local], p.established.Keys;
    var f := l.inflight[key.remote];
    var (m, reply) := ListenerReceive(l, p.config, key.remote, h, isn);
    ListenerAt(p.listeners, e, p.log.offered, p.log.completed);
    TasksHold(l, key.remote, p.log.offered, p.log.completed);
    ListenerReceiveKeeps(l, p.config, key.remote, h, isn);
    var cb := Completed(e, key.remote, f, p.config);
    CompletedKey(e, key.remote, f, p.config);
    SameOfferCompletes(e, key.remote, f, p.log.offered[key], p.config);
    CompletedPut(p.log.completed, p.log.offered, p.config, key, cb);
    LogCompletes(p.log, key, cb);
    CompletedHolds(l, key.remote, cb, p.log.offered, p.log.completed);
    var completed := p.log.completed[key := cb];
    ListenerReplace(p.listeners, e, m, p.log.offered, p.log.completed, p.log.offered, completed);
    AcceptedReplace(p.established, p.listeners, e, m, p.log.completed, completed);
    OfferedReplace(p.log.offered, p.addr, p.listeners, es, e, m, es);
    assert p.listeners[e := m].Keys == p.listeners.Keys;
  }

  lemma CompletedKey(local: Endpoint, remote: Endpoint, f: Inflight, c: Config)
    ensures Completed(local, remote, f, c).key == Key(local, remote)
  {
  }

  lemma ToListenerKeeps(p: Peer, key: Key, h: Header, isn: nat)
    requires PeerInv(p) && key.local in p.listeners && key !in p.established && OwnAddress(p, key.local.addr)
    ensures var (q, reply) := ToListener(p, key, h, isn);
            Kept(p, q) && reply != Panicked(Maps)
  {
    hide PeerInv, Kept, ListenerInv, Completed, Begun;
    var l := p.listeners[key.local];
    Listeners(p);
    ListenerAt(p.listeners, key.local, p.log.offered, p.log.completed);
    ListenerReceiveKeeps(l, p.config, key.remote, h, isn);
    var (m, reply) := ListenerReceive(l, p.config, key.remote, h, isn);
    if key.remote in l.inflight && key.remote !in m.inflight {
      CompleteKeeps(p, key, h, isn);
    } else if key.remote in m.inflight && key.remote !in l.inflight {
      BeginKeeps(p, key, h, isn);
    } else {
      assert m == l;
      assert p.listeners[key.local := l] == p.listeners;
      KeptSelf(p);
    }
  }

  lemma KeptSelf(p: Peer)
    requires PeerInv(p)
    ensures Kept(p, p)
  {
    hide PeerInv;
  }

  /**
   * A segment keeps every invariant and trips no assertion about the maps. The only panics left are
   * about a window scale or an unresolved link address, in a handshake that just got its answer.
   */
  lemma ReceiveKeeps(p: Peer, pkt: Packet, isn: nat, resolved: bool)
    requires PeerInv(p) && OwnAddress(p, pkt.dst.addr)
    ensures var (q, _, reply) := Receive(p, pkt, isn, resolved);
            Kept(p, q) && reply != Panicked(Maps)
  {
    hide PeerInv, Kept, ToConnecting, ToListener;
    var key := Key(pkt.dst, pkt.src);
    KeptSelf(p);
    if BadSource(pkt.src.addr) || key in p.established {
    } else if key in p.connecting {
      ToConnectingKeeps(p, key, pkt.header, resolved);
    } else if key.local in p.listeners {
      ToListenerKeeps(p, key, pkt.header, isn);
    }
  }

  /** A half-open connection is nothing else at the same time. */
  lemma HalfOpen(p: Peer, key: Key)
    requires PeerInv(p) && key.local in p.listeners && key.remote in p.listeners[key.local].inflight
    ensures key !in p.established && key !in p.connecting && key in p.log.offered
    ensures key.remote !in p.listeners[key.local].endpoints
  {
    hide PortsInv, SocketsGood, SocketsApart, OpenedInv, OfferedInv, CompletedInv, HoldsOffers, QueueInv, SameOffer;
    ListenerAt(p.listeners, key.local, p.log.offered, p.log.completed);
    TasksHold(p.listeners[key.local], key.remote, p.log.offered, p.log.completed);
    assert key in p.connecting ==> ActiveGood(p.connecting[key], key, p.log.started, p.log.built);
  }

  /** A segment that completes a handshake whose window scales are out of range, or whose link is unknown. */
  predicate Unanswerable(p: Peer, pkt: Packet, resolved: bool) {
    var key, h := Key(pkt.dst, pkt.src), pkt.header;
    !BadSource(pkt.src.addr) &&
    if key in p.connecting then
      && Accepts(p.connecting[key], h)
      && (!resolved || (LastScale(h.options).Some? && (p.config.scale > 14 || LastScale(h.options).value > 14)))
    else
      && key.local in p.listeners && key.remote in p.listeners[key.local].inflight
      && var f := p.listeners[key.local].inflight[key.remote];
         h.ack && h.ackNum == Next(f.localIsn) && f.scale.Some? && (f.scale.value > 15 || p.config.scale > 31)
  }

  /** On either side of a handshake, those are exactly the segments a peer panics on. */
  lemma ReceivePanics(p: Peer, pkt: Packet, isn: nat, resolved: bool)
    requires PeerInv(p)
    ensures Receive(p, pkt, isn, resolved).2.Panicked? <==> Unanswerable(p, pkt, resolved)
  {
    hide PeerInv, ListenerReceive, ListenerInv, LastScale, Next, Connected, BadSource;
    var key := Key(pkt.dst, pkt.src);
    if key in p.connecting {
      NotYetEstablished(p, key);
    } else if key.local in p.listeners {
      var l := p.listeners[key.local];
      Listeners(p);
      ListenerAt(p.listeners, key.local, p.log.offered, p.log.completed);
      ListenerReceiveKeeps(l, p.config, key.remote, pkt.header, isn);
      if key.remote in l.inflight { HalfOpen(p, key); }
    }
  }

  lemma NotYetEstablished(p: Peer, key: Key)
    requires PeerInv(p) && key in p.connecting
    ensures key !in p.established
  {
  }

  /** The addresses no segment may come from: unspecified, limited broadcast, and class D (section 4 of RFC 1112). */
  lemma BadSourceIs(addr: nat)
    requires addr < 0x1_0000_0000
    ensures BadSource(addr) <==> addr == 0 || addr == 0x1_0000_0000 - 1 || addr / 0x1000_0000 == 14
  {
  }

  /** What asking about an opening says: pending, the failure, or done with the connection established. */
  lemma PollConnectTells(p: Peer, fd: nat)
    requires PeerInv(p) && fd in p.sockets && p.sockets[fd].Connecting? && p.sockets[fd].key in p.connecting
    ensures var (q, reply), key := PollConnect(p, fd), p.sockets[fd].key;
            match p.connecting[key].result
            case None => q == p && reply == Pending
            case Some(Err(e)) => reply == Failed(e) && key !in q.connecting && q.established == p.established
            case Some(Ok(cb)) =>
              && reply == Done && key !in q.connecting && fd in q.sockets && q.sockets[fd] == Established(key)
              && q.established == p.established[key := cb]
  {
    hide PeerInv;
    NotYetEstablished(p, p.sockets[fd].key);
  }

  /**
   * A segment for which there is no socket is answered by a reset without an acknowledgment. An opener
   * ignores such a reset: connecting to a closed port is not refused, it runs into its timeout.
   */
  lemma ClosedPortAnswers(p: Peer, pkt: Packet, isn: nat, a: Active, c: Config, known: bool)
    requires var key := Key(pkt.dst, pkt.src);
             key !in p.established && key !in p.connecting && key.local !in p.listeners && !BadSource(pkt.src.addr)
    ensures var (q, sent, reply) := Receive(p, pkt, isn, true);
            && q == p && reply == Done && sent.Some?
            && sent.value.rst && !sent.value.syn && !sent.value.ack && sent.value.options == []
            && sent.value.seqNum == sent.value.ackNum == sent.value.window == 0
            && ActiveReceive(a, c, sent.value, known) == (a, None, Done)
    ensures Receive(p, pkt, isn, false) == (p, None, Failed(ResourceNotFound))
  {
  }
}
