/**
 * The mutable TCP peer: four maps, two of them holding mutable sockets. Each method refines a call
 * of the value model, and the assertions the program makes about its maps are proved where it makes
 * them.
 */
module TcpHost {
  import opened Common
  import opened Tcp
  import opened TcpPeer
  import opened TcpSockets

  class Host {
    const addr: nat
    const config: Config
    var nextFd: nat
    var ports: seq<nat>
    var sockets: map<nat, Socket>
    var passive: map<Endpoint, PassiveSocket>
    var connecting: map<Key, ActiveSocket>
    var established: map<Key, ControlBlock>
    ghost var view: Peer

    /** The listener objects are separate and hold the listeners of the view. */
    ghost predicate Passives(listeners: map<Endpoint, Listener>)
      reads this`passive, passive.Values
    {
      && passive.Keys == listeners.Keys
      && (forall e :: e in passive ==> passive[e].View() == listeners[e])
      && (forall e, f :: e in passive && f in passive && e != f ==> passive[e] != passive[f])
    }

    /** The objects of connections being opened are separate and hold those of the view. */
    ghost predicate Actives(actives: map<Key, Active>)
      reads this`connecting, connecting.Values
    {
      && connecting.Keys == actives.Keys
      && (forall k :: k in connecting ==> connecting[k].View() == actives[k])
      && (forall k, m :: k in connecting && m in connecting && k != m ==> connecting[k] != connecting[m])
    }

    ghost predicate Valid()
      reads this, passive.Values, connecting.Values
    {
      && view.addr == addr && view.config == config && view.nextFd == nextFd && view.ports == ports
      && view.sockets == sockets && view.established == established
      && Passives(view.listeners) && Actives(view.connecting)
      && PeerInv(view)
    }

    constructor (addr: nat, config: Config, ports: seq<nat>)
      requires PortsInv(ports)
      ensures Valid() && view == Init(addr, config, ports)
      ensures passive == map[] && connecting == map[]
    {
      this.addr := addr;
      this.config := config;
      nextFd := 0;
      this.ports := ports;
      sockets := map[];
      passive := map[];
      connecting := map[];
      established := map[];
      view := Init(addr, config, ports);
      new;
      InitInv(addr, config, ports);
    }

    method NewDescriptor() returns (fd: nat)
      requires Valid()
      modifies this`nextFd, this`sockets, this`view
      ensures Valid()
      ensures view == NewSocket(old(view)).0 && fd == old(nextFd)
    {
      hide PeerInv, NewSocket, Passives, Actives;
      NewSocketKeeps(view);
      SocketIs(view);
      fd := nextFd;
      nextFd := nextFd + 1;
      assert fd !in sockets;
      sockets := sockets[fd := Inactive(None)];
      view := NewSocket(view).0;
    }

    method BindTo(fd: nat, e: Endpoint) returns (reply: Reply)
      requires Valid()
      modifies this`sockets, this`view
      ensures Valid()
      ensures (view, reply) == Bind(old(view), fd, e)
    {
      hide PeerInv, Passives, Actives;
      BindKeeps(view, fd, e);
      view := Bind(view, fd, e).0;
      if e.port >= FIRST_PRIVATE_PORT {
        return Failed(Malformed);
      }
      if fd in sockets && sockets[fd].Inactive? {
        sockets := sockets[fd := Inactive(Some(e))];
        return Done;
      }
      return Failed(Malformed);
    }

    method AddPassive(local: Endpoint, backlog: nat, ghost ls: map<Endpoint, Listener>)
      requires Passives(ls) && local !in passive
      modifies this`passive
      ensures Passives(ls[local := NewListener(local, backlog)])
      ensures fresh(passive.Values - old(passive.Values))
    {
      var socket := new PassiveSocket(local, backlog);
      passive := passive[local := socket];
    }

    method ListenOn(fd: nat, backlog: nat) returns (reply: Reply)
      requires Valid()
      modifies this`sockets, this`passive, this`view
      ensures Valid()
      ensures (view, reply) == Listen(old(view), fd, backlog)
      ensures fresh(passive.Values - old(passive.Values))
    {
      hide PeerInv, Passives, Actives, NewListener;
      ListenKeeps(view, fd, backlog);
      PassiveKeys(view.listeners);
      if fd !in sockets || !sockets[fd].Inactive? || sockets[fd].bound.None? {
        return Failed(Malformed);
      }
      var local := sockets[fd].bound.value;
      if local in passive {
        return Failed(ResourceBusy);
      }
      AddPassive(local, backlog, view.listeners);
      sockets := sockets[fd := Listening(local)];
      view := Listen(view, fd, backlog).0;
      return Done;
    }

    /** The maps hold what a listening descriptor points at. */
    lemma ListeningKnown(fd: nat)
      requires Valid() && fd in sockets && sockets[fd].Listening?
      ensures sockets[fd].local in passive
      ensures passive[sockets[fd].local].View() == view.listeners[sockets[fd].local]
    {
      hide PeerInv, Actives;
      DescriptorKnown(view, fd);
    }

    // One object of a map at a time

    method PollAt(local: Endpoint, ghost ls: map<Endpoint, Listener>) returns (result: Option<Result>)
      requires Passives(ls) && local in passive
      modifies passive[local]
      ensures Passives(ls[local := ListenerPoll(ls[local]).0])
      ensures result == ListenerPoll(ls[local]).1
    {
      var reply;
      result, reply := passive[local].PollAccept();
    }

    method DeliverPassive(key: Key, h: Header, isn: nat, ghost ls: map<Endpoint, Listener>) returns (reply: Reply)
      requires Passives(ls) && key.local in passive
      modifies passive[key.local]
      ensures var (m, r) := ListenerReceive(ls[key.local], config, key.remote, h, isn);
              Passives(ls[key.local := m]) && reply == r
    {
      hide ListenerReceive;
      reply := passive[key.local].Receive(config, key.remote, h, isn);
    }

    method DeliverActive(key: Key, h: Header, resolved: bool, ghost cs: map<Key, Active>)
      returns (sent: Option<Header>, reply: Reply)
      requires Actives(cs) && key in connecting
      modifies connecting[key]
      ensures var (a, s, r) := ActiveReceive(cs[key], config, h, resolved);
              Actives(cs[key := a]) && sent == s && reply == r
    {
      hide ActiveReceive;
      sent, reply := connecting[key].Receive(config, h, resolved);
    }

    method Open(key: Key, isn: nat, ghost cs: map<Key, Active>)
      requires Actives(cs) && key !in connecting
      modifies this`connecting
      ensures Actives(cs[key := Active(key, isn, config.retries, false, None)])
      ensures fresh(connecting.Values - old(connecting.Values))
    {
      var socket := new ActiveSocket(key, isn, config.retries);
      connecting := connecting[key := socket];
    }

    method Forget(key: Key, ghost cs: map<Key, Active>)
      requires Actives(cs) && key in connecting
      modifies this`connecting
      ensures Actives(cs - {key})
      ensures connecting.Values <= old(connecting.Values)
    {
      connecting := connecting - {key};
    }

    method AcceptOn(fd: nat) returns (reply: Reply)
      requires Valid()
      modifies this`sockets, this`nextFd, this`established, this`view, passive.Values
      ensures Valid()
      ensures (view, reply) == Accept(old(view), fd)
    {
      hide PeerInv, ListenerPoll, Actives, Passives, Accept;
      if fd !in sockets || !sockets[fd].Listening? {
        AcceptRefused(view, fd);
        return Failed(Malformed);
      }
      ListeningKnown(fd);
      PassiveKeys(view.listeners);
      var local := sockets[fd].local;
      AcceptKeeps(view, fd);
      AcceptCases(view, fd);
      assert view.listeners[local := view.listeners[local]] == view.listeners;
      var result := PollAt(local, view.listeners);
      view := Accept(view, fd).0;
      match result {
        case None => return Pending;
        case Some(Err(e)) => return Failed(e);
        case Some(Ok(cb)) =>
          var newFd := nextFd;
          nextFd := nextFd + 1;
          assert newFd !in sockets;
          sockets := sockets[newFd := Established(cb.key)];
          assert cb.key !in established;
          established := established[cb.key := cb];
          return Done;
      }
    }

    method ConnectTo(fd: nat, remote: Endpoint, isn: nat) returns (reply: Reply)
      requires Valid()
      modifies this`sockets, this`ports, this`connecting, this`view
      ensures Valid()
      ensures (view, reply) == Connect(old(view), fd, remote, isn)
      ensures fresh(connecting.Values - old(connecting.Values))
    {
      hide PeerInv, Passives, Actives;
      ConnectKeeps(view, fd, remote, isn);
      if fd !in sockets || !sockets[fd].Inactive? {
        return Failed(Malformed);
      }
      if ports == [] {
        return Failed(ResourceExhausted);
      }
      var localPort := ports[|ports| - 1];
      ports := ports[..|ports| - 1];
      var key := Key(Endpoint(addr, localPort), remote);
      sockets := sockets[fd := Connecting(key)];
      ActiveKeys(view.connecting);
      assert key !in connecting;
      Open(key, isn, view.connecting);
      view := Connect(view, fd, remote, isn).0;
      return Done;
    }

    lemma ActiveKeys(cs: map<Key, Active>)
      requires Actives(cs)
      ensures connecting.Keys == cs.Keys
      ensures forall k :: k in connecting ==> connecting[k].result == cs[k].result
    {
    }

    lemma PassiveKeys(ls: map<Endpoint, Listener>)
      requires Passives(ls)
      ensures passive.Keys == ls.Keys
    {
    }

    method PollConnectOn(fd: nat) returns (reply: Reply)
      requires Valid()
      modifies this`sockets, this`connecting, this`established, this`view
      ensures Valid()
      ensures (view, reply) == PollConnect(old(view), fd)
    {
      hide PeerInv, Passives, Actives;
      PollConnectKeeps(view, fd);
      ActiveKeys(view.connecting);
      if fd !in sockets || !sockets[fd].Connecting? {
        return Failed(Malformed);
      }
      var key := sockets[fd].key;
      if key !in connecting {
        return Failed(Malformed);
      }
      var result := connecting[key].result;
      if result.None? {
        return Pending;
      }
      Forget(key, view.connecting);
      view := PollConnect(view, fd).0;
      match result.value {
        case Err(e) => return Failed(e);
        case Ok(cb) =>
          assert key !in established;
          established := established[key := cb];
          sockets := sockets[fd := Established(key)];
          return Done;
      }
    }

    /** Route one segment to an established connection, to one being opened, to a listener, or refuse it. */
    method ReceiveSegment(pkt: Packet, isn: nat, resolved: bool) returns (sent: Option<Header>, reply: Reply)
      requires Valid() && OwnAddress(view, pkt.dst.addr)
      modifies this`view, passive.Values, connecting.Values
      ensures Valid()
      ensures (view, sent, reply) == TcpPeer.Receive(old(view), pkt, isn, resolved)
      ensures reply != Panicked(Maps)
    {
      hide PeerInv, ActiveReceive, ListenerReceive, Passives, Actives;
      ReceiveKeeps(view, pkt, isn, resolved);
      ActiveKeys(view.connecting);
      PassiveKeys(view.listeners);
      var local, remote := pkt.dst, pkt.src;
      if BadSource(remote.addr) {
        return None, Failed(Malformed);
      }
      var key := Key(local, remote);
      if key in established {
        return None, Done;
      }
      if key in connecting {
        sent, reply := DeliverActive(key, pkt.header, resolved, view.connecting);
        view := TcpPeer.Receive(view, pkt, isn, resolved).0;
        return;
      }
      if local in passive {
        reply := DeliverPassive(key, pkt.header, isn, view.listeners);
        view := TcpPeer.Receive(view, pkt, isn, resolved).0;
        return None, reply;
      }
      if !resolved {
        return None, Failed(ResourceNotFound);
      }
      return Some(Header(false, false, true, 0, 0, 0, [])), Done;
    }
  }

  lemma SocketIs(p: Peer)
    requires PeerInv(p)
    ensures p.nextFd !in p.sockets
    ensures NewSocket(p).0 == p.(nextFd := p.nextFd + 1, sockets := p.sockets[p.nextFd := Inactive(None)])
  {
    FreshDescriptor(p.sockets, p.nextFd, p.listeners.Keys, p.log.started.Keys, p.established.Keys);
  }

  lemma DescriptorKnown(p: Peer, fd: nat)
    requires PeerInv(p) && fd in p.sockets && p.sockets[fd].Listening?
    ensures p.sockets[fd].local in p.listeners && p.nextFd !in p.sockets
  {
    FreshDescriptor(p.sockets, p.nextFd, p.listeners.Keys, p.log.started.Keys, p.established.Keys);
    SocketAt(p.sockets, p.nextFd, p.listeners.Keys, p.log.started.Keys, p.established.Keys, fd);
  }

  lemma AcceptRefused(p: Peer, fd: nat)
    requires fd !in p.sockets || !p.sockets[fd].Listening?
    ensures Accept(p, fd) == (p, Failed(Malformed))
  {
  }

  /** Accepting, spelled out by what the queue holds. */
  lemma AcceptCases(p: Peer, fd: nat)
    requires PeerInv(p) && fd in p.sockets && p.sockets[fd].Listening? && p.sockets[fd].local in p.listeners
    ensures var local := p.sockets[fd].local;
            var l := p.listeners[local];
            var m := ListenerPoll(l).0;
            && (l.ready == [] ==> ListenerPoll(l).1 == None && m == l && Accept(p, fd) == (p, Pending))
            && (l.ready != [] ==> ListenerPoll(l).1 == Some(l.ready[0]))
            && (l.ready != [] && l.ready[0].Err? ==>
                  Accept(p, fd) == (p.(listeners := p.listeners[local := m]), Failed(l.ready[0].fail)))
            && (l.ready != [] && l.ready[0].Ok? ==>
                  var cb := l.ready[0].cb;
                  && cb.key.remote in l.endpoints && cb.key !in p.established && p.nextFd !in p.sockets
                  && Accept(p, fd) == (p.(listeners := p.listeners[local := m], nextFd := p.nextFd + 1,
                                          sockets := p.sockets[p.nextFd := Established(cb.key)],
                                          established := p.established[cb.key := cb]), Done))
  {
    hide PeerInv;
    AcceptKeeps(p, fd);
  }
}
