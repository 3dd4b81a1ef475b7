/** What the datapath does with one source address: the state kept for it, and the
    decision for each packet and socket event, as functions.

    The global circuit breaker is the one thing addresses share. Here its answer is an
    input of the packet; module World supplies it. */
module Policy {
  import opened Words
  import opened Maps
  import opened Records
  import opened Buckets
  import opened Handshakes

  // ---- Configuration ----

  datatype Config = Config(
    targetPort: u16,
    whitelistTtl: u64,
    statusPeriod: u64, statusBurst: u64,
    loginPeriod: u64, loginBurst: u64,
    globalPeriod: u64, globalBurst: u64,
    maxOpenPerIp: u64,
    healthWindow: u64, healthThreshold: u32, healthBlacklist: u64,
    connPktPeriod: u64, connPktBurst: u64,
    connBytePeriod: u64, connByteBurst: u64,
    connNewPeriod: u64, connNewBurst: u64)
  {
    predicate PktOn() { connPktPeriod > 0 && connPktBurst > 0 }
    predicate ByteOn() { connBytePeriod > 0 && connByteBurst > 0 }
    predicate NewOn() { connNewPeriod > 0 && connNewBurst > 0 }
    predicate GlobalOn() { globalBurst != 0 && globalPeriod != 0 }

    function StatusLimit(): Limit { Limit(statusPeriod, statusBurst) }
    function LoginLimit(): Limit { Limit(loginPeriod, loginBurst) }
    function GlobalLimit(): Limit { Limit(globalPeriod, globalBurst) }
    function PktLimit(): Limit { Limit(connPktPeriod, connPktBurst) }
    function ByteLimit(): Limit { Limit(connBytePeriod, connByteBurst) }
    function NewLimit(): Limit { Limit(connNewPeriod, connNewBurst) }
  }

  // ---- Packets ----

  datatype Flags = Flags(syn: bool, ack: bool, fin: bool, rst: bool, psh: bool, urg: bool) {
    /** tcp_flags_bogus */
    predicate Bogus() {
      || (!syn && !ack && !fin && !rst && !psh && !urg)
      || (syn && fin)
      || (syn && rst)
      || (fin && rst)
      || (fin && psh && urg && !ack)
    }
  }

  /** A frame with the header fields the program reads. `parsed` says that the frame is
      IPv4 over Ethernet carrying TCP and that all three fixed headers are present. */
  datatype Packet = Packet(
    parsed: bool, dport: u16, flags: Flags, ihl: u4, doff: u4, ipTot: u16, frame: seq<u8>)
  {
    function IpHeader(): u32 { ihl * 4 }
    function TcpHeader(): u32 { doff * 4 }
    function Headers(): u32 { IpHeader() + TcpHeader() }

    /** The TCP header is at least 20 bytes and lies inside the frame. */
    predicate HeadersIntact() {
      TcpHeader() >= 20 && 14 + Headers() <= |frame|
    }

    predicate HasPayload() { ipTot > Headers() }

    function HandshakeClass(): Class
      requires HasPayload()
    {
      Classify(frame, 14 + Headers(), ipTot - Headers())
    }
  }

  predicate Targets(cfg: Config, pkt: Packet) {
    pkt.parsed && pkt.dport == cfg.targetPort
  }

  // ---- The state of one address ----

  datatype IpState = IpState(
    established: Option<u64>, synSeen: Option<u64>, firstData: Option<u64>, whitelist: Option<u64>,
    openCount: Option<u64>,
    status: Option<Bucket>, login: Option<Bucket>, syn: Option<Bucket>, conn: Option<ConnLimit>,
    health: Option<Health>, history: Option<DropHistory>)

  const UNKNOWN := IpState(None, None, None, None, None, None, None, None, None, None, None)

  /** Where a packet's journey ends. */
  datatype Outcome =
    | NoPacket | NotTarget
    | DroppedBadFlags | DroppedBanned
    | TrustedPass | TrustedOverRate | TrustedTooManyOpen
    | DroppedNoSyn | DroppedTooManyOpen | DroppedConnRate | DroppedGlobal
    | BadHeaderPass | NoPayloadPass
    | UntrackedPass | PlayPass | PlayOverRate
    | DroppedMalformed
    | StatusNoEst | StatusPass | StatusOverRate
    | LoginNoEst | LoginPromoted | LoginOverRate
  {
    function DropReason(): Option<Reason> {
      match this
      case DroppedBadFlags => Some(BadFlags)
      case DroppedBanned => Some(Unhealthy)
      case TrustedOverRate => Some(ConnRatelimit)
      case TrustedTooManyOpen => Some(TooManyOpen)
      case DroppedNoSyn => Some(NoSyn)
      case DroppedTooManyOpen => Some(TooManyOpen)
      case DroppedConnRate => Some(ConnRate)
      case DroppedGlobal => Some(GlobalRatelimit)
      case PlayOverRate => Some(ConnRatelimit)
      case DroppedMalformed => Some(MalformedHandshake)
      case StatusOverRate => Some(StatusRatelimit)
      case LoginOverRate => Some(LoginRatelimit)
      case _ => None
    }

    predicate Drops() { DropReason().Some? }

    /** The packet got past the SYN gates with headers intact and carries payload. */
    predicate ReachedPayload() {
      UntrackedPass? || PlayPass? || PlayOverRate? || DroppedMalformed?
      || StatusNoEst? || StatusPass? || StatusOverRate?
      || LoginNoEst? || LoginPromoted? || LoginOverRate?
    }

    /** The stat slots the packet bumps. A packet past the SYN gates counts as PassTcp even
        when it is dropped later. */
    function Count(s: Stats): Stats {
      CountDetails(if TrustedPass? || NoPayloadPass? || ReachedPayload() then Bump(s, PassTcp) else s)
    }

    function CountDetails(s: Stats): Stats {
      match this
      case StatusPass => Bump(s, StatusSeen)
      case StatusNoEst => Bump(Bump(s, StatusSeen), MatchNoEst)
      case StatusOverRate => Bump(Bump(s, StatusSeen), DropStatusRatelimit)
      case LoginPromoted => Bump(Bump(s, LoginSeen), Promotions)
      case LoginNoEst => Bump(Bump(s, LoginSeen), MatchNoEst)
      case LoginOverRate => Bump(Bump(s, LoginSeen), DropLoginRatelimit)
      case _ => if Drops() then Bump(s, DropReason().value.Slot()) else s
    }
  }

  datatype Verdict = XdpPass | XdpDrop

  function VerdictOf(o: Outcome): Verdict {
    if o.Drops() then XdpDrop else XdpPass
  }

  datatype Step = Step(state: IpState, outcome: Outcome)

  // ---- Building blocks ----

  /** health_is_blacklisted */
  predicate Banned(h: Option<Health>, now: u64) {
    h.Some? && h.value.blacklistUntil > now
  }

  /** health_record_anomaly; the anomaly counter is a 32-bit word. */
  function RecordAnomaly(cfg: Config, h: Option<Health>, now: u64): Health {
    match h
    case None => Health(1, now, 0)
    case Some(h) =>
      var w := if Sub64(now, h.windowStart) > cfg.healthWindow then Health(0, now, h.blacklistUntil) else h;
      var a := w.(anomalies := Inc32(w.anomalies));
      if a.anomalies >= cfg.healthThreshold then a.(blacklistUntil := Add64(now, cfg.healthBlacklist)) else a
  }

  /** record_drop */
  function RecordDrop(h: Option<DropHistory>, reason: Reason, now: u64): DropHistory {
    match h
    case None => DropHistory(now, now, ZERO_COUNTS[reason.Index() := 1])
    case Some(h) =>
      DropHistory(h.first, now, h.counts[reason.Index() := h.counts[reason.Index()] + 1])
  }

  function PktBucket(c: ConnLimit): Bucket { Bucket(c.pktTokens, c.pktLast) }
  function ByteBucket(c: ConnLimit): Bucket { Bucket(c.byteTokens, c.byteLast) }

  /** conn_ratelimit_take: a packet bucket and a byte bucket, each if configured. A packet
      the byte bucket refuses has already paid for the packet bucket. */
  function ConnTake(cfg: Config, c: Option<ConnLimit>, bytes: u16, now: u64): (Option<ConnLimit>, bool) {
    if !cfg.PktOn() && !cfg.ByteOn() then (c, true)
    else
      match c
      case None =>
        var p := Fresh(cfg.PktLimit(), Request(now, 1));
        var b := Fresh(cfg.ByteLimit(), Request(now, if cfg.ByteOn() then bytes else 0));
        (Some(ConnLimit(p.tokens, now, b.tokens, now)), true)
      case Some(c) =>
        var p := if cfg.PktOn() then Spend(cfg.PktLimit(), PktBucket(c), Request(now, 1))
                 else Served(PktBucket(c), true);
        var c := c.(pktTokens := p.bucket.tokens, pktLast := p.bucket.last);
        if !p.ok || !cfg.ByteOn() then (Some(c), p.ok)
        else
          var b := Spend(cfg.ByteLimit(), ByteBucket(c), Request(now, bytes));
          (Some(c.(byteTokens := b.bucket.tokens, byteLast := b.bucket.last)), b.ok)
  }

  predicate AtOpenCap(cfg: Config, s: IpState) {
    cfg.maxOpenPerIp > 0 && s.openCount.Some? && s.openCount.value >= cfg.maxOpenPerIp
  }

  predicate TrustExpired(cfg: Config, stamp: u64, now: u64) {
    cfg.whitelistTtl > 0 && Sub64(now, stamp) > cfg.whitelistTtl
  }

  predicate Trusted(cfg: Config, s: IpState, now: u64) {
    s.whitelist.Some? && !TrustExpired(cfg, s.whitelist.value, now)
  }

  /** The next payload segment is parsed as a handshake. */
  predicate FirstSegment(s: IpState) {
    s.established.Some? && s.firstData.Some? ==> s.openCount.Some? && s.openCount.value > 1
  }

  // ---- The verdict machine; drop history is kept apart, it decides nothing ----

  function TrustedStep(cfg: Config, s: IpState, pkt: Packet, now: u64): Step {
    var (conn, ok) := ConnTake(cfg, s.conn, pkt.ipTot, now);
    var s := s.(conn := conn);
    if !ok then
      var h := Some(RecordAnomaly(cfg, s.health, now));
      Step(s.(health := h, whitelist := if Banned(h, now) then None else s.whitelist), TrustedOverRate)
    else if pkt.flags.syn && AtOpenCap(cfg, s) then Step(s, TrustedTooManyOpen)
    else Step(s.(whitelist := Some(now)), TrustedPass)
  }

  /** A segment that is no handshake: charged to the connection limits once established. */
  function PlayStep(cfg: Config, s: IpState, pkt: Packet, now: u64): Step {
    if s.established.None? then Step(s, UntrackedPass)
    else
      var (conn, ok) := ConnTake(cfg, s.conn, pkt.ipTot, now);
      var s := s.(conn := conn);
      if ok then Step(s, PlayPass)
      else Step(s.(health := Some(RecordAnomaly(cfg, s.health, now))), PlayOverRate)
  }

  function StatusStep(cfg: Config, s: IpState, now: u64): Step {
    if s.established.None? then Step(s, StatusNoEst)
    else
      var t := Serve(cfg.StatusLimit(), s.status, Request(now, 1));
      Step(s.(status := Some(t.bucket)), if t.ok then StatusPass else StatusOverRate)
  }

  function LoginStep(cfg: Config, s: IpState, now: u64): Step {
    if s.established.None? then Step(s, LoginNoEst)
    else
      var t := Serve(cfg.LoginLimit(), s.login, Request(now, 1));
      var s := s.(login := Some(t.bucket));
      if t.ok then Step(s.(whitelist := Some(now)), LoginPromoted) else Step(s, LoginOverRate)
  }

  function MarkFirstData(s: IpState, now: u64): IpState {
    if s.established.Some? && s.firstData.None? then s.(firstData := Some(now)) else s
  }

  /** How the segment is treated: only a first segment is parsed, and an established
      source is never treated as malformed. */
  function SegmentClass(s: IpState, pkt: Packet): Class
    requires pkt.HasPayload()
  {
    var hs := if FirstSegment(s) then pkt.HandshakeClass() else Unmatched;
    if hs == Malformed && s.established.Some? then Unmatched else hs
  }

  function RouteStep(cfg: Config, s: IpState, hs: Class, pkt: Packet, now: u64): Step {
    match hs
    case Unmatched => PlayStep(cfg, s, pkt, now)
    case Malformed => Step(s, DroppedMalformed)
    case Status => StatusStep(cfg, s, now)
    case Login => LoginStep(cfg, s, now)
  }

  function PayloadStep(cfg: Config, s: IpState, pkt: Packet, now: u64): Step {
    if !pkt.HeadersIntact() then Step(s, BadHeaderPass)
    else if !pkt.HasPayload() then Step(s, NoPayloadPass)
    else RouteStep(cfg, MarkFirstData(s, now), SegmentClass(s, pkt), pkt, now)
  }

  function SynTake(cfg: Config, s: IpState, now: u64): (Option<Bucket>, bool) {
    if cfg.NewOn() then
      var t := Serve(cfg.NewLimit(), s.syn, Request(now, 1));
      (Some(t.bucket), t.ok)
    else (s.syn, true)
  }

  function UntrustedStep(cfg: Config, s: IpState, pkt: Packet, now: u64, breaker: bool): Step {
    if !pkt.flags.syn then
      if s.synSeen.None? && s.established.None? then Step(s, DroppedNoSyn)
      else PayloadStep(cfg, s, pkt, now)
    else if AtOpenCap(cfg, s) then Step(s, DroppedTooManyOpen)
    else
      var (syn, ok) := SynTake(cfg, s, now);
      var s := s.(syn := syn);
      if !ok then Step(s, DroppedConnRate)
      else if !breaker then Step(s, DroppedGlobal)
      else PayloadStep(cfg, s.(synSeen := Some(now)), pkt, now)
  }

  function Decide(cfg: Config, s: IpState, pkt: Packet, now: u64, breaker: bool): Step {
    if !Targets(cfg, pkt) then Step(s, NotTarget)
    else if pkt.flags.Bogus() then Step(s, DroppedBadFlags)
    else if Banned(s.health, now) then Step(s, DroppedBanned)
    else if Trusted(cfg, s, now) then TrustedStep(cfg, s, pkt, now)
    else UntrustedStep(cfg, s.(whitelist := None), pkt, now, breaker)
  }

  /** The packet is a SYN that asks the global circuit breaker. */
  predicate AsksBreaker(cfg: Config, s: IpState, pkt: Packet, now: u64) {
    && Targets(cfg, pkt) && !pkt.flags.Bogus() && !Banned(s.health, now) && !Trusted(cfg, s, now)
    && pkt.flags.syn && !AtOpenCap(cfg, s) && SynTake(cfg, s, now).1
  }

  /** A malformed handshake is the one drop that leaves no history. */
  function Account(h: Option<DropHistory>, o: Outcome, now: u64): Option<DropHistory> {
    if o.Drops() && o != DroppedMalformed then Some(RecordDrop(h, o.DropReason().value, now)) else h
  }

  function PacketStep(cfg: Config, s: IpState, pkt: Packet, now: u64, breaker: bool): Step {
    var d := Decide(cfg, s, pkt, now, breaker);
    d.(state := d.state.(history := Account(s.history, d.outcome, now)))
  }

  // ---- Socket events ----

  datatype TcpState =
    | Established | SynSent | SynRecv | FinWait1 | FinWait2 | TimeWait
    | Close | CloseWait | LastAck | Listen | Closing | NewSynRecv

  datatype SocketOp =
    | PassiveEstablished
    | StateChange(before: TcpState, after: TcpState)
    | OtherOp

  predicate CountsAsClose(before: TcpState, after: TcpState) {
    && after == Close
    && (before == Established || before == FinWait1 || before == FinWait2 || before == CloseWait
        || before == LastAck || before == TimeWait || before == Closing)
  }

  /** open_count_inc */
  function OpenInc(s: IpState): IpState {
    s.(openCount := Some(Add64(if s.openCount.Some? then s.openCount.value else 0, 1)))
  }

  /** How often open_count_dec tries its compare-and-swap. */
  const MAX_TRIES := 8

  /** open_count_dec, run without interference. */
  function OpenDec(s: IpState): IpState {
    if s.openCount.None? || s.openCount.value == 0 then s
    else if s.openCount.value == 1 then
      s.(openCount := Some(0), established := None, whitelist := None, firstData := None)
    else s.(openCount := Some(s.openCount.value - 1))
  }

  function SocketStep(s: IpState, op: SocketOp, now: u64): IpState {
    match op
    case PassiveEstablished => OpenInc(s.(established := Some(now)))
    case StateChange(before, after) => if CountsAsClose(before, after) then OpenDec(s) else s
    case OtherOp => s
  }

  // ---- Evictions ----

  datatype Table =
    | TcpEstablished | TcpSynSeen | TcpFirstData | TcpWhitelist | TcpOpenCount
    | StatusTable | LoginTable | SynTable | ConnTable | HealthTable | HistoryTable

  /** One least-recently-used entry, or one an operator clears, disappears. */
  function Forget(s: IpState, t: Table): IpState {
    match t
    case TcpEstablished => s.(established := None)
    case TcpSynSeen => s.(synSeen := None)
    case TcpFirstData => s.(firstData := None)
    case TcpWhitelist => s.(whitelist := None)
    case TcpOpenCount => s.(openCount := None)
    case StatusTable => s.(status := None)
    case LoginTable => s.(login := None)
    case SynTable => s.(syn := None)
    case ConnTable => s.(conn := None)
    case HealthTable => s.(health := None)
    case HistoryTable => s.(history := None)
  }
}
