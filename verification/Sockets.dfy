/** Every socket of the host and every callback the kernel makes for it: of these the
    filter heeds those of the server's port and counts them per source, whichever family
    the listener is of. */
module Sockets {
  import opened Words
  import opened Maps
  import opened Policy
  import opened World
  import opened Lifecycle
  import Isolation

  datatype Sock = Sock(localPort: u32, family: u32, remoteIp4: IP, tcp: TcpState)

  datatype Host = Host(world: World, sockets: map<nat, Sock>)

  datatype HostEvent =
    | Arrives(src: IP, cpu: nat, pkt: Policy.Packet, now: u64)
    | Opens(id: nat, localPort: u32, family: u32, remoteIp4: IP, now: u64)
    | Changes(id: nat, after: TcpState, now: u64)

  ghost predicate Legal(h: Host, e: HostEvent) {
    match e
    case Arrives(_, _, _, _) => true
    case Opens(id, _, _, _, _) => id !in h.sockets
    case Changes(id, after, _) => id in h.sockets && TcpNext(h.sockets[id].tcp, after)
  }

  function Call(cfg: Config, w: World, k: Sock, op: SocketOp, now: u64): World {
    CallbackNext(cfg, w, SockOps(k.localPort, k.family, k.remoteIp4, op), now)
  }

  function Act(cfg: Config, h: Host, e: HostEvent): Host {
    match e
    case Arrives(src, cpu, pkt, now) => h.(world := PacketNext(cfg, h.world, src, cpu, pkt, now).0)
    case Opens(id, localPort, family, remoteIp4, now) =>
      var k := Sock(localPort, family, remoteIp4, Established);
      Host(Call(cfg, h.world, k, PassiveEstablished, now), h.sockets[id := k])
    case Changes(id, after, now) =>
      if id !in h.sockets then h
      else
        var k := h.sockets[id];
        Host(Call(cfg, h.world, k, StateChange(k.tcp, after), now),
             if after == Close then h.sockets - {id} else h.sockets[id := k.(tcp := after)])
  }

  function After(cfg: Config, h: Host, es: seq<HostEvent>): Host {
    if es == [] then h else Act(cfg, After(cfg, h, es[..|es| - 1]), es[|es| - 1])
  }

  ghost predicate LegalRun(cfg: Config, h: Host, es: seq<HostEvent>) {
    es == [] || (var before := es[..|es| - 1];
                 LegalRun(cfg, h, before) && Legal(After(cfg, h, before), es[|es| - 1]))
  }

  /** A connection of a client at ip to the server: over IPv4, or over IPv6 with the client's
      IPv4 address in it. */
  predicate Serves(cfg: Config, k: Sock, ip: IP) {
    k.localPort == cfg.targetPort && (k.family == 2 || k.family == 10) && k.remoteIp4 == ip && ip != 0
  }

  function Live(cfg: Config, sockets: map<nat, Sock>, ip: IP): set<nat> {
    set id | id in sockets && Serves(cfg, sockets[id], ip)
  }

  // ---- One callback ----

  /** The states an accepted connection passes through before it is closed. */
  predicate Closable(before: TcpState) {
    before !in [SynSent, SynRecv, Listen, NewSynRecv, Close]
  }

  /** Exactly which callbacks are heeded, and what they do: those for the server's port, of a
      socket of either family, with a peer address. One establishes its source and counts a
      connection when the server accepts it; one takes a connection when it goes from such a
      state to closed, and the last of them clears establishment, trust and first-data mark;
      no other changes anything. */
  lemma CallbackExactly(cfg: Config, w: World, port: u32, family: u32, ip: IP, op: SocketOp, now: u64)
    ensures var u := CallbackNext(cfg, w, SockOps(port, family, ip, op), now);
            var heeded := port == cfg.targetPort && (family == 2 || family == 10) && ip != 0;
            var s, n := w.At(ip), OpenCount(w.At(ip));
            var opens := heeded && op.PassiveEstablished?;
            var closes := heeded && op.StateChange? && op.after == Close && Closable(op.before) && n > 0;
            && u.breakers == w.breakers
            && u.stats == (if opens then w.stats[1 := w.stats[1] + 1] else w.stats)
            && (forall other: IP | other != ip :: u.At(other) == w.At(other))
            && u.At(ip)
               == (if opens then s.(established := Some(now), openCount := Some((n + 1) % TWO64))
                   else if !closes then s
                   else if n > 1 then s.(openCount := Some(n - 1))
                   else s.(openCount := Some(0), established := None, whitelist := None, firstData := None))
  {
    if op.StateChange? {
      assert Closable(op.before) && op.after == Close <==> CountsAsClose(op.before, op.after);
    }
  }

  // ---- Every reachable state ----

  ghost predicate Tracked(cfg: Config, h: Host, ip: IP) {
    && (forall id | id in h.sockets :: CountsAsClose(h.sockets[id].tcp, Close))
    && Matches(h.world.At(ip), |Live(cfg, h.sockets, ip)|)
  }

  lemma LiveFits(cfg: Config, sockets: map<nat, Sock>, ip: IP)
    ensures |Live(cfg, sockets, ip)| <= |sockets|
  {
    Subset(Live(cfg, sockets, ip), sockets.Keys);
    assert |sockets| == |sockets.Keys|;
  }

  lemma {:induction false} Subset<T>(a: set<T>, b: set<T>)
    requires a <= b
    ensures |a| <= |b|
  {
    if a != {} {
      var x :| x in a;
      Subset(a - {x}, b - {x});
    }
  }

  /** A callback as one source sees it. */
  lemma CallAt(cfg: Config, w: World, k: Sock, op: SocketOp, now: u64, ip: IP)
    ensures Call(cfg, w, k, op, now).At(ip) == if Serves(cfg, k, ip) then SocketStep(w.At(ip), op, now) else w.At(ip)
  {
  }

  lemma OpensTracked(cfg: Config, h: Host, e: HostEvent, ip: IP)
    requires Tracked(cfg, h, ip) && e.Opens? && e.id !in h.sockets && |h.sockets| + 1 < TWO64
    ensures Tracked(cfg, Act(cfg, h, e), ip)
  {
    var k := Sock(e.localPort, e.family, e.remoteIp4, Established);
    var was := Live(cfg, h.sockets, ip);
    LiveFits(cfg, h.sockets, ip);
    CallAt(cfg, h.world, k, PassiveEstablished, e.now, ip);
    assert Live(cfg, h.sockets[e.id := k], ip) == if Serves(cfg, k, ip) then was + {e.id} else was;
    SocketMatches(h.world.At(ip), PassiveEstablished, e.now, |was|);
  }

  lemma ChangesTracked(cfg: Config, h: Host, e: HostEvent, ip: IP)
    requires Tracked(cfg, h, ip) && e.Changes? && Legal(h, e) && |h.sockets| + 1 < TWO64
    ensures Tracked(cfg, Act(cfg, h, e), ip)
  {
    var k := h.sockets[e.id];
    var op := StateChange(k.tcp, e.after);
    var was, now := Live(cfg, h.sockets, ip), Live(cfg, Act(cfg, h, e).sockets, ip);
    LiveFits(cfg, h.sockets, ip);
    CallAt(cfg, h.world, k, op, e.now, ip);
    SocketMatches(h.world.At(ip), op, e.now, |was|);
    if e.after == Close {
      assert now == was - {e.id};
      assert Serves(cfg, k, ip) <==> e.id in was;
    } else {
      assert now == was;
    }
  }

  lemma ArrivesTracked(cfg: Config, h: Host, e: HostEvent, ip: IP)
    requires Tracked(cfg, h, ip) && e.Arrives?
    ensures Tracked(cfg, Act(cfg, h, e), ip)
  {
    Isolation.NextAt(cfg, h.world, WorldEvent.Packet(e.src, e.cpu, e.pkt, e.now), ip);
    PacketMatches(cfg, h.world.At(ip), e.pkt, e.now, BreakerTake(cfg, h.world.breakers, e.cpu, e.now).1,
                  |Live(cfg, h.sockets, ip)|);
  }

  /** After any legal run of any sockets, whatever their ports, families and peers, with
      packets in between: for every source the open counter is the number of its live
      connections to the server, and it is established exactly while it has one. */
  lemma {:induction false} EveryConnectionCounts(cfg: Config, cpus: nat, es: seq<HostEvent>, ip: IP)
    requires LegalRun(cfg, Host(Boot(cpus), map[]), es) && |es| < TWO63
    ensures var h := After(cfg, Host(Boot(cpus), map[]), es);
            && Tracked(cfg, h, ip) && |h.sockets| <= |es|
            && OpenCount(h.world.At(ip)) == |Live(cfg, h.sockets, ip)|
            && (h.world.At(ip).established.Some? <==> Live(cfg, h.sockets, ip) != {})
  {
    var start := Host(Boot(cpus), map[]);
    if es == [] {
      assert Live(cfg, map[], ip) == {};
    } else {
      var before, e := es[..|es| - 1], es[|es| - 1];
      EveryConnectionCounts(cfg, cpus, before, ip);
      var h := After(cfg, start, before);
      match e {
        case Arrives(_, _, _, _) => ArrivesTracked(cfg, h, e, ip);
        case Opens(_, _, _, _, _) => OpensTracked(cfg, h, e, ip);
        case Changes(_, _, _) => ChangesTracked(cfg, h, e, ip);
      }
    }
  }
}
