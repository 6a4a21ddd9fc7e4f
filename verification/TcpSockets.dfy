/** The mutable sockets of the handshake, each method refining a step of the value model. */
module TcpSockets {
  import opened Common
  import opened Tcp

  class PassiveSocket {
    const local: Endpoint
    const backlog: nat
    var inflight: map<Endpoint, Inflight>
    var ready: seq<Result>
    var endpoints: set<Endpoint>

    ghost function View(): (l: Listener)
      reads this
      ensures l.local == local && l.backlog == backlog
    {
      Listener(local, backlog, inflight, ready, endpoints)
    }

    constructor (local: Endpoint, backlog: nat)
      ensures View() == NewListener(local, backlog)
    {
      this.local := local;
      this.backlog := backlog;
      inflight := map[];
      ready := [];
      endpoints := {};
    }

    /** One segment from `remote`; every branch of the listener, including the ones that panic. */
    method Receive(c: Config, remote: Endpoint, h: Header, isn: nat) returns (reply: Reply)
      modifies this
      ensures (View(), reply) == ListenerReceive(old(View()), c, remote, h, isn)
    {
      if remote in endpoints {
        return Done;
      }
      var inflightLen := |inflight|;
      if remote in inflight {
        if !h.ack {
          return Failed(Malformed);
        }
        var f := inflight[remote];
        if h.ackNum != Next(f.localIsn) {
          return Failed(Malformed);
        }
        if !ShiftsFit(f, c) {
          return Panicked(Window);
        }
        inflight := inflight - {remote};
        endpoints := endpoints + {remote};
        ready := ready + [Ok(Completed(local, remote, f, c))];
        return Done;
      }
      if !h.syn || h.ack || h.rst {
        return Failed(Malformed);
      }
      if inflightLen + |ready| >= backlog {
        return Failed(ConnectionRefused);
      }
      var mss, scale := ScanOptions(h.options);
      inflight := inflight[remote := Inflight(isn, h.seqNum, h.window, scale, mss, c.retries, false)];
      return Done;
    }

    /** Take the oldest queued result, if there is one; a finished one must still be among the endpoints. */
    method PollAccept() returns (result: Option<Result>, reply: Reply)
      modifies this
      ensures (View(), result, reply) == ListenerPoll(old(View()))
    {
      if ready == [] {
        return None, Pending;
      }
      var r := ready[0];
      if r.Ok? && r.cb.key.remote !in endpoints {
        return None, Panicked(Maps);
      }
      ready := ready[1..];
      if r.Ok? {
        endpoints := endpoints - {r.cb.key.remote};
      }
      return Some(r), Done;
    }

    /** One turn of the task that repeats the SYN+ACK. */
    method Answer(c: Config, remote: Endpoint) returns (h: Header)
      requires CanAnswer(View(), remote)
      modifies this
      ensures View() == ListenerTry(old(View()), remote)
      ensures h == SynAck(old(inflight[remote]), c)
    {
      var f := inflight[remote];
      h := Header(true, true, false, f.localIsn, Next(f.remoteIsn), c.window,
                  [MaxSegment(c.mss % 0x1_0000), WindowScale(c.scale)]);
      inflight := inflight[remote := f.(tries := f.tries - 1)];
    }

    /** The task gave up. */
    method Expire(remote: Endpoint)
      requires CanExpire(View(), remote)
      modifies this
      ensures View() == ListenerExpire(old(View()), remote)
    {
      inflight := inflight[remote := inflight[remote].(expired := true)];
      ready := ready + [Err(Timeout)];
    }
  }

  class ActiveSocket {
    const key: Key
    const isn: nat
    var tries: nat
    var expired: bool
    var result: Option<Result>

    ghost function View(): (a: Active)
      reads this
      ensures a.key == key && a.isn == isn && a.result == result
    {
      Active(key, isn, tries, expired, result)
    }

    constructor (key: Key, isn: nat, retries: nat)
      ensures View() == Active(key, isn, retries, false, None)
    {
      this.key := key;
      this.isn := isn;
      tries := retries;
      expired := false;
      result := None;
    }

    /** One segment; an accepted SYN+ACK is acknowledged before its options are looked at. */
    method Receive(c: Config, h: Header, resolved: bool) returns (sent: Option<Header>, reply: Reply)
      modifies this
      ensures (View(), sent, reply) == ActiveReceive(old(View()), c, h, resolved)
    {
      sent := None;
      var expected := Next(isn);
      if !(h.ack && h.ackNum == expected) {
        return None, Done;
      }
      if h.rst {
        result := Some(Err(ConnectionRefused));
        return None, Done;
      }
      if !h.syn {
        return None, Done;
      }
      if !resolved {
        return None, Panicked(Link);
      }
      var remoteSeq := Next(h.seqNum);
      sent := Some(Header(false, true, false, expected, remoteSeq, c.window, []));
      var mss, scale := ScanOptions(h.options);
      var localScale, remoteScale := 0, 0;
      if scale.Some? {
        localScale, remoteScale := c.scale, scale.value;
      }
      if !(localScale <= 14 && remoteScale <= 14) {
        return sent, Panicked(Window);
      }
      result := Some(Ok(ControlBlock(key, expected, Shl16(h.window, remoteScale), remoteScale, mss,
                                     remoteSeq, Shl16(c.window, localScale), localScale)));
      return sent, Done;
    }

    /** One turn of the task that repeats the SYN. */
    method Try(c: Config) returns (h: Header)
      requires tries > 0
      modifies this
      ensures View() == ActiveTry(old(View())) && h == Syn(isn, c)
    {
      h := Header(true, false, false, isn, 0, c.window, [MaxSegment(c.mss % 0x1_0000), WindowScale(c.scale)]);
      tries := tries - 1;
    }

    method Expire()
      modifies this
      ensures View() == ActiveExpire(old(View()))
    {
      expired := true;
      result := Some(Err(Timeout));
    }
  }
}
