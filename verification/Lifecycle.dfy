/** Packets of a source together with the life of its sockets: the open counter counts
    them, trust ends with the last of them, and a lone connection is classified once. */
module Lifecycle {
  import opened Words
  import opened Maps
  import opened Policy
  import opened Effects
  import opened Handshakes
  import opened Records
  import opened Verdicts

  // ---- TCP connections after the handshake, section 3.3.2 of RFC 9293 ----

  /** The transitions of an established connection: closing from either side, both at
      once, or a reset or abort at any point. */
  predicate TcpNext(a: TcpState, b: TcpState) {
    || b == Close
    || (a == Established && (b == FinWait1 || b == CloseWait))
    || (a == FinWait1 && (b == FinWait2 || b == Closing || b == TimeWait))
    || (a == FinWait2 && b == TimeWait)
    || (a == Closing && b == TimeWait)
    || (a == CloseWait && b == LastAck)
  }

  ghost predicate TcpPath(path: seq<TcpState>) {
    && path != [] && path[0] == Established
    && forall i, j | 0 <= i < |path| && 0 <= j < |path| && j == i + 1 :: path[i] != Close && TcpNext(path[i], path[j])
  }

  /** The states counted as a close are exactly those an established connection passes
      through before it is closed. */
  lemma {:induction false} PathStaysCounted(path: seq<TcpState>)
    requires TcpPath(path)
    ensures path[|path| - 1] == Close || CountsAsClose(path[|path| - 1], Close)
  {
    if |path| > 1 {
      assert path[..|path| - 1][|path| - 2] == path[|path| - 2];
      PathStaysCounted(path[..|path| - 1]);
    }
  }

  lemma EveryCountedStateIsReached(a: TcpState) returns (path: seq<TcpState>)
    requires CountsAsClose(a, Close)
    ensures TcpPath(path) && path[|path| - 1] == a
  {
    path := match a
      case FinWait1 => [Established, FinWait1]
      case FinWait2 => [Established, FinWait1, FinWait2]
      case TimeWait => [Established, FinWait1, TimeWait]
      case CloseWait => [Established, CloseWait]
      case LastAck => [Established, CloseWait, LastAck]
      case Closing => [Established, FinWait1, Closing]
      case _ => [Established];
  }

  // ---- A source and its sockets ----

  datatype Net = Net(ip: IpState, sockets: map<nat, TcpState>)

  datatype NetEvent =
    | Packet(pkt: Policy.Packet, now: u64, breaker: bool)
    | Open(id: nat, now: u64)
    | Change(id: nat, after: TcpState, now: u64)

  ghost predicate Legal(n: Net, e: NetEvent) {
    match e
    case Packet(_, _, _) => true
    case Open(id, now) => id !in n.sockets
    case Change(id, after, now) => id in n.sockets && TcpNext(n.sockets[id], after)
  }

  function Act(cfg: Config, n: Net, e: NetEvent): Net {
    match e
    case Packet(pkt, now, breaker) => n.(ip := PacketStep(cfg, n.ip, pkt, now, breaker).state)
    case Open(id, now) =>
      Net(SocketStep(n.ip, PassiveEstablished, now), n.sockets[id := Established])
    case Change(id, after, now) =>
      if id !in n.sockets then n
      else
        Net(SocketStep(n.ip, StateChange(n.sockets[id], after), now),
            if after == Close then n.sockets - {id} else n.sockets[id := after])
  }

  const NOBODY := Net(UNKNOWN, map[])

  function After(cfg: Config, n: Net, es: seq<NetEvent>): Net {
    if es == [] then n else Act(cfg, After(cfg, n, es[..|es| - 1]), es[|es| - 1])
  }

  ghost predicate LegalRun(cfg: Config, n: Net, es: seq<NetEvent>) {
    forall i | 0 <= i < |es| :: Legal(After(cfg, n, es[..i]), es[i])
  }

  function OpenCount(s: IpState): nat {
    if s.openCount.Some? then s.openCount.value else 0
  }

  /** The records of a source with n live sockets: the open counter counts them, and the
      source is established exactly while it has one; trust and the first-data mark do not
      outlive that. */
  predicate Matches(s: IpState, n: nat) {
    && OpenCount(s) == n
    && (s.established.Some? <==> n > 0)
    && (s.whitelist.Some? ==> s.established.Some?)
    && (s.firstData.Some? ==> s.established.Some?)
  }

  ghost predicate Tracks(n: Net) {
    && (forall id | id in n.sockets :: CountsAsClose(n.sockets[id], Close))
    && Matches(n.ip, |n.sockets|)
  }

  lemma MovesMatch(cfg: Config, s: IpState, d: Step, pkt: Policy.Packet, now: u64, breaker: bool, n: nat)
    requires Moves(cfg, s, d, pkt, now, breaker) && Matches(s, n)
    ensures Matches(d.state, n)
  {
  }

  lemma PacketMatches(cfg: Config, s: IpState, pkt: Policy.Packet, now: u64, breaker: bool, n: nat)
    requires Matches(s, n)
    ensures Matches(PacketStep(cfg, s, pkt, now, breaker).state, n)
  {
    PacketMoves(cfg, s, pkt, now, breaker);
    MovesMatch(cfg, s, PacketStep(cfg, s, pkt, now, breaker), pkt, now, breaker, n);
  }

  /** One more socket, one fewer, or one that goes on towards its close. */
  lemma SocketMatches(s: IpState, op: SocketOp, now: u64, n: nat)
    requires Matches(s, n) && n + 1 < TWO64
    ensures op.PassiveEstablished? ==> Matches(SocketStep(s, op, now), n + 1)
    ensures op.StateChange? && CountsAsClose(op.before, op.after) && n > 0 ==> Matches(SocketStep(s, op, now), n - 1)
    ensures op.StateChange? && op.after != Close ==> Matches(SocketStep(s, op, now), n)
  {
    SocketStepMoves(s, op, now);
  }

  lemma ActTracks(cfg: Config, n: Net, e: NetEvent)
    requires Tracks(n) && Legal(n, e) && |n.sockets| + 1 < TWO64
    ensures Tracks(Act(cfg, n, e)) && |Act(cfg, n, e).sockets| <= |n.sockets| + 1
  {
    match e {
      case Packet(pkt, now, breaker) =>
        PacketMatches(cfg, n.ip, pkt, now, breaker, |n.sockets|);
      case Open(id, now) =>
        SocketMatches(n.ip, PassiveEstablished, now, |n.sockets|);
        assert |n.sockets[id := Established]| == |n.sockets| + 1;
      case Change(id, after, now) =>
        ChangeTracks(cfg, n, id, after, now);
    }
  }

  lemma ChangeTracks(cfg: Config, n: Net, id: nat, after: TcpState, now: u64)
    requires Tracks(n) && id in n.sockets && TcpNext(n.sockets[id], after) && |n.sockets| + 1 < TWO64
    ensures Tracks(Act(cfg, n, Change(id, after, now)))
    ensures |Act(cfg, n, Change(id, after, now)).sockets| <= |n.sockets|
  {
    SocketMatches(n.ip, StateChange(n.sockets[id], after), now, |n.sockets|);
    if after == Close {
      var rest := n.sockets - {id};
      assert n.sockets == rest[id := n.sockets[id]];
      assert |n.sockets| == |rest| + 1;
    } else {
      var changed := n.sockets[id := after];
      assert changed.Keys == n.sockets.Keys;
      assert |changed| == |changed.Keys| == |n.sockets.Keys|;
    }
  }

  /** The invariant holds in every reachable state. */
  lemma {:induction false} LifecycleInvariant(cfg: Config, es: seq<NetEvent>)
    requires LegalRun(cfg, NOBODY, es) && |es| < TWO63
    ensures Tracks(After(cfg, NOBODY, es)) && |After(cfg, NOBODY, es).sockets| <= |es|
  {
    if es != [] {
      var n := |es| - 1;
      forall i | 0 <= i < n ensures Legal(After(cfg, NOBODY, es[..n][..i]), es[..n][i]) {
        assert es[..n][..i] == es[..i];
      }
      LifecycleInvariant(cfg, es[..n]);
      ActTracks(cfg, After(cfg, NOBODY, es[..n]), es[n]);
    }
  }

  lemma CappedSyn(a: Arrival)
    requires a.ForServer() && a.pkt.flags.syn && a.Full()
    ensures VerdictOf(a.Treated().outcome) == XdpDrop
  {
    TreatedByRule(a);
  }

  /** While as many sockets are live as the cap allows, no SYN of that source passes: not
      on the trusted path either. */
  lemma CapHolds(cfg: Config, es: seq<NetEvent>, pkt: Policy.Packet, now: u64, breaker: bool)
    requires LegalRun(cfg, NOBODY, es) && |es| < TWO63
    requires 0 < cfg.maxOpenPerIp <= |After(cfg, NOBODY, es).sockets|
    requires Targets(cfg, pkt) && pkt.flags.syn
    ensures VerdictOf(PacketStep(cfg, After(cfg, NOBODY, es).ip, pkt, now, breaker).outcome) == XdpDrop
  {
    LifecycleInvariant(cfg, es);
    CappedSyn(Arrival(cfg, After(cfg, NOBODY, es).ip, pkt, now, breaker));
  }

  /** A packet is dropped for too many connections if and only if it is a SYN, as many
      sockets are live as the cap allows, and it got as far as the cap: no illegal flags, no
      ban, and of a trusted source within its rate. */
  lemma CapIsExact(cfg: Config, es: seq<NetEvent>, pkt: Policy.Packet, now: u64, breaker: bool)
    requires LegalRun(cfg, NOBODY, es) && |es| < TWO63
    ensures var n := After(cfg, NOBODY, es);
            var a := Arrival(cfg, n.ip, pkt, now, breaker);
            a.Treated().outcome.DropReason() == Some(TooManyOpen)
            <==> && pkt.flags.syn && 0 < cfg.maxOpenPerIp <= |n.sockets|
                 && a.ForServer() && a.LegalFlags() && !a.Banned() && (a.Trusted() ==> a.WithinConn())
  {
    LifecycleInvariant(cfg, es);
    DropsExactly(Arrival(cfg, After(cfg, NOBODY, es).ip, pkt, now, breaker), TooManyOpen);
  }

  // ---- One connection, one classified segment ----

  /** The packet gets through the gates with words in it. */
  predicate SpeaksAt(cfg: Config, n: Net, e: NetEvent) {
    e.Packet? && Arrival(cfg, n.ip, e.pkt, e.now, e.breaker).Speaks()
  }

  /** And its words are heard as a greeting, if they are one: Verdicts.GreetingIsHandled. */
  predicate ParsesAt(cfg: Config, n: Net, e: NetEvent) {
    SpeaksAt(cfg, n, e) && Arrival(cfg, n.ip, e.pkt, e.now, e.breaker).FirstWords()
  }

  function Speeches(cfg: Config, n: Net, es: seq<NetEvent>): nat {
    if es == [] then 0
    else
      var before := es[..|es| - 1];
      Speeches(cfg, n, before) + if SpeaksAt(cfg, After(cfg, n, before), es[|es| - 1]) then 1 else 0
  }

  function Parses(cfg: Config, n: Net, es: seq<NetEvent>): nat {
    if es == [] then 0
    else
      var before := es[..|es| - 1];
      Parses(cfg, n, before) + if ParsesAt(cfg, After(cfg, n, before), es[|es| - 1]) then 1 else 0
  }

  /** Nothing opens or ends a connection. */
  ghost predicate Steady(es: seq<NetEvent>) {
    forall i | 0 <= i < |es| :: es[i].Packet? || (es[i].Change? && es[i].after != Close)
  }

  lemma MovesMarked(cfg: Config, s: IpState, d: Step, pkt: Policy.Packet, now: u64, breaker: bool)
    requires Moves(cfg, s, d, pkt, now, breaker) && s.established.Some?
    ensures d.state.openCount == s.openCount && d.state.established == s.established
    ensures d.outcome.ReachedPayload() || s.firstData.Some? <==> d.state.firstData.Some?
  {
  }

  lemma PacketMarks(a: Arrival)
    requires a.src.established.Some?
    ensures var s := a.Treated().state;
            && s.openCount == a.src.openCount && s.established == a.src.established
            && (s.firstData.Some? <==> a.Speaks() || a.src.firstData.Some?)
  {
    PacketMoves(a.cfg, a.src, a.pkt, a.now, a.breaker);
    MovesMarked(a.cfg, a.src, a.Treated(), a.pkt, a.now, a.breaker);
    SpeakingIsReaching(a);
  }

  lemma ActSteady(cfg: Config, n: Net, e: NetEvent)
    requires n.ip.established.Some? && (e.Packet? || (e.Change? && e.after != Close))
    ensures var m := Act(cfg, n, e);
            && m.ip.openCount == n.ip.openCount && m.ip.established.Some?
            && (m.ip.firstData.Some? <==> SpeaksAt(cfg, n, e) || n.ip.firstData.Some?)
  {
    if e.Packet? {
      PacketMarks(Arrival(cfg, n.ip, e.pkt, e.now, e.breaker));
    } else if e.id in n.sockets {
      SocketStepMoves(n.ip, StateChange(n.sockets[e.id], e.after), e.now);
    }
  }

  lemma {:induction false} LoneConnection(cfg: Config, n: Net, es: seq<NetEvent>)
    requires n.ip.established.Some? && n.ip.openCount == Some(1) && n.ip.firstData.None? && Steady(es)
    ensures var m := After(cfg, n, es);
            && m.ip.established.Some? && m.ip.openCount == Some(1)
            && (m.ip.firstData.Some? <==> Speeches(cfg, n, es) > 0)
            && Parses(cfg, n, es) == if Speeches(cfg, n, es) > 0 then 1 else 0
  {
    if es != [] {
      var k := |es| - 1;
      LoneConnection(cfg, n, es[..k]);
      ActSteady(cfg, After(cfg, n, es[..k]), es[k]);
    }
  }

  /** A source as the first of its connections finds it. */
  lemma SessionBegins(cfg: Config, pre: seq<NetEvent>, id: nat, now: u64)
    requires LegalRun(cfg, NOBODY, pre) && |pre| < TWO63 && After(cfg, NOBODY, pre).sockets == map[]
    ensures var s := Act(cfg, After(cfg, NOBODY, pre), Open(id, now)).ip;
            s.established.Some? && s.openCount == Some(1) && s.firstData.None?
  {
    LifecycleInvariant(cfg, pre);
    SocketStepMoves(After(cfg, NOBODY, pre).ip, PassiveEstablished, now);
  }

  /** A session of a source with no other connection, from its establishment on, hands
      exactly one payload segment to the parser once one has come, and none before: the
      first. It always starts afresh. */
  lemma SessionParsesOnce(cfg: Config, pre: seq<NetEvent>, id: nat, now: u64, es: seq<NetEvent>, e: NetEvent)
    requires LegalRun(cfg, NOBODY, pre) && |pre| < TWO63 && Steady(es)
    requires After(cfg, NOBODY, pre).sockets == map[]
    ensures var n := Act(cfg, After(cfg, NOBODY, pre), Open(id, now));
            && n.ip.firstData.None?
            && Parses(cfg, n, es) == (if Speeches(cfg, n, es) > 0 then 1 else 0)
            && (ParsesAt(cfg, After(cfg, n, es), e)
                <==> SpeaksAt(cfg, After(cfg, n, es), e) && Speeches(cfg, n, es) == 0)
  {
    SessionBegins(cfg, pre, id, now);
    LoneConnection(cfg, Act(cfg, After(cfg, NOBODY, pre), Open(id, now)), es);
  }

  /** If that first segment logs in and the login bucket admits it, it passes and has the
      source trusted from now on. */
  lemma SessionLogsIn(cfg: Config, pre: seq<NetEvent>, id: nat, now: u64, es: seq<NetEvent>, e: NetEvent)
    requires LegalRun(cfg, NOBODY, pre) && |pre| < TWO63 && Steady(es)
    requires After(cfg, NOBODY, pre).sockets == map[]
    requires var n := Act(cfg, After(cfg, NOBODY, pre), Open(id, now));
             && Speeches(cfg, n, es) == 0 && SpeaksAt(cfg, After(cfg, n, es), e)
             && Greeting(PayloadOf(e.pkt), Login)
             && Arrival(cfg, After(cfg, n, es).ip, e.pkt, e.now, e.breaker).WithinLogin()
    ensures var n := After(cfg, Act(cfg, After(cfg, NOBODY, pre), Open(id, now)), es);
            && VerdictOf(PacketStep(cfg, n.ip, e.pkt, e.now, e.breaker).outcome) == XdpPass
            && Act(cfg, n, e).ip.whitelist == Some(e.now)
  {
    SessionBegins(cfg, pre, id, now);
    var n := Act(cfg, After(cfg, NOBODY, pre), Open(id, now));
    LoneConnection(cfg, n, es);
    FirstLoginPromotes(Arrival(cfg, After(cfg, n, es).ip, e.pkt, e.now, e.breaker));
  }
}
