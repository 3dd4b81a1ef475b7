/** The effects of one packet, table by table: which outcome may write which record of
    its source, what it writes, and what it says about the state it met. The theorems
    about runs rest on this summary instead of on the branches of the program. */
module Effects {
  import opened Words
  import opened Maps
  import opened Buckets
  import opened Handshakes
  import opened Policy

  /** The packet got past the SYN gates. */
  predicate PastGates(o: Outcome) {
    o.BadHeaderPass? || o.NoPayloadPass? || o.ReachedPayload()
  }

  predicate OnTrustedPath(o: Outcome) {
    o.TrustedPass? || o.TrustedOverRate? || o.TrustedTooManyOpen?
  }

  /** The packet was dropped, or passed unseen, before trust was looked up. */
  predicate BeforeTrust(o: Outcome) {
    o.NotTarget? || o.DroppedBadFlags? || o.DroppedBanned?
  }

  predicate OverRate(o: Outcome) {
    o.TrustedOverRate? || o.PlayOverRate?
  }

  /** The packet was charged to a bucket of its established source. */
  predicate Charged(o: Outcome) {
    o.PlayPass? || o.PlayOverRate? || o.StatusPass? || o.StatusOverRate? || o.LoginPromoted? || o.LoginOverRate?
  }

  predicate AskedConn(o: Outcome) {
    OnTrustedPath(o) || o.PlayPass? || o.PlayOverRate?
  }

  predicate AskedSyn(cfg: Config, o: Outcome, syn: bool) {
    cfg.NewOn() && syn && (o.DroppedConnRate? || o.DroppedGlobal? || PastGates(o))
  }

  /** One bucket: asked once with unit cost, or left alone. */
  ghost predicate MeterMoves(l: Limit, b: Option<Bucket>, after: Option<Bucket>, asked: bool, ok: bool, now: u64) {
    if asked then
      var t := Serve(l, b, Request(now, 1));
      after == Some(t.bucket) && ok == t.ok
    else after == b
  }

  ghost predicate BucketMoves(cfg: Config, s: IpState, d: Step, pkt: Packet, now: u64) {
    var o := d.outcome;
    && MeterMoves(cfg.StatusLimit(), s.status, d.state.status, o.StatusPass? || o.StatusOverRate?, o.StatusPass?, now)
    && MeterMoves(cfg.LoginLimit(), s.login, d.state.login, o.LoginPromoted? || o.LoginOverRate?, o.LoginPromoted?, now)
    && (var (conn, ok) := ConnTake(cfg, s.conn, pkt.ipTot, now);
        if AskedConn(o) then d.state.conn == conn && ok == !OverRate(o) else d.state.conn == s.conn)
    && d.state.health == if OverRate(o) then Some(RecordAnomaly(cfg, s.health, now)) else s.health
  }

  ghost predicate SynMeter(cfg: Config, s: IpState, d: Step, pkt: Packet, now: u64) {
    && MeterMoves(cfg.NewLimit(), s.syn, d.state.syn,
                  AskedSyn(cfg, d.outcome, pkt.flags.syn), !d.outcome.DroppedConnRate?, now)
    && (d.outcome.DroppedConnRate? ==> cfg.NewOn())
  }

  ghost predicate Marks(s: IpState, d: Step, pkt: Packet, now: u64) {
    var o := d.outcome;
    && d.state.established == s.established && d.state.openCount == s.openCount
    && d.state.firstData == (if o.ReachedPayload() && s.established.Some? && s.firstData.None? then Some(now)
                             else s.firstData)
  }

  /** What an outcome past the gates tells about the socket state and the packet. */
  ghost predicate Reads(s: IpState, d: Step, pkt: Packet) {
    var o := d.outcome;
    && (Charged(o) ==> s.established.Some?)
    && (o.UntrackedPass? || o.DroppedMalformed? || o.StatusNoEst? || o.LoginNoEst? ==> s.established.None?)
    && (o.ReachedPayload() ==> pkt.HeadersIntact() && pkt.HasPayload())
    && (o.NoPayloadPass? ==> pkt.HeadersIntact() && !pkt.HasPayload())
    && (o.BadHeaderPass? ==> !pkt.HeadersIntact())
  }

  ghost predicate TrustMoves(cfg: Config, s: IpState, d: Step, now: u64) {
    var o := d.outcome;
    && (OnTrustedPath(o) ==> Trusted(cfg, s, now))
    && (!OnTrustedPath(o) && !BeforeTrust(o) ==> !Trusted(cfg, s, now))
    && d.state.whitelist ==
       (if BeforeTrust(o) || o.TrustedTooManyOpen? then s.whitelist
        else if o.TrustedPass? || o.LoginPromoted? then Some(now)
        else if o.TrustedOverRate? && !Banned(d.state.health, now) then s.whitelist
        else None)
  }

  ghost predicate Gates(cfg: Config, s: IpState, d: Step, pkt: Packet, now: u64, breaker: bool) {
    var o := d.outcome;
    && (o.NotTarget? <==> !Targets(cfg, pkt))
    && (o.DroppedBadFlags? <==> Targets(cfg, pkt) && pkt.flags.Bogus())
    && (o.DroppedBanned? ==> Banned(s.health, now))
    && (!BeforeTrust(o) ==> !Banned(s.health, now))
    && (o.DroppedNoSyn? ==> !pkt.flags.syn && s.synSeen.None? && s.established.None?)
    && (PastGates(o) && !pkt.flags.syn ==> s.synSeen.Some? || s.established.Some?)
    && (PastGates(o) && pkt.flags.syn ==> breaker)
    && (o.DroppedGlobal? ==> pkt.flags.syn && !breaker)
    && (o.DroppedConnRate? || o.DroppedTooManyOpen? || o.TrustedTooManyOpen? ==> pkt.flags.syn)
    && !o.NoPacket?
    && d.state.synSeen == if pkt.flags.syn && PastGates(o) then Some(now) else s.synSeen
  }

  ghost predicate Moves(cfg: Config, s: IpState, d: Step, pkt: Packet, now: u64, breaker: bool) {
    && BucketMoves(cfg, s, d, pkt, now)
    && SynMeter(cfg, s, d, pkt, now)
    && Marks(s, d, pkt, now)
    && Reads(s, d, pkt)
    && TrustMoves(cfg, s, d, now)
    && Gates(cfg, s, d, pkt, now, breaker)
    && d.state.history == Account(s.history, d.outcome, now)
  }

  // ---- The program has these effects ----

  /** Past the gates: the summary of lines 398-477. */
  ghost predicate PayloadMoves(cfg: Config, s: IpState, d: Step, pkt: Packet, now: u64) {
    && PastGates(d.outcome)
    && BucketMoves(cfg, s, d, pkt, now) && Marks(s, d, pkt, now) && Reads(s, d, pkt)
    && d.state.syn == s.syn && d.state.synSeen == s.synSeen && d.state.history == s.history
    && d.state.whitelist == if d.outcome.LoginPromoted? then Some(now) else s.whitelist
  }

  lemma RouteMoves(cfg: Config, s: IpState, hs: Class, pkt: Packet, now: u64)
    requires pkt.HeadersIntact() && pkt.HasPayload()
    requires hs == Malformed ==> s.established.None?
    ensures PayloadMoves(cfg, s, RouteStep(cfg, MarkFirstData(s, now), hs, pkt, now), pkt, now)
  {
    var m := MarkFirstData(s, now);
    var d := RouteStep(cfg, m, hs, pkt, now);
    match hs
    case Unmatched => assert d == PlayStep(cfg, m, pkt, now);
    case Malformed =>
    case Status => assert d == StatusStep(cfg, m, now);
    case Login => assert d == LoginStep(cfg, m, now);
  }

  lemma PayloadStepMoves(cfg: Config, s: IpState, pkt: Packet, now: u64)
    ensures PayloadMoves(cfg, s, PayloadStep(cfg, s, pkt, now), pkt, now)
  {
    if pkt.HeadersIntact() && pkt.HasPayload() {
      RouteMoves(cfg, s, SegmentClass(s, pkt), pkt, now);
    }
  }

  lemma TrustedMoves(cfg: Config, s: IpState, pkt: Packet, now: u64, breaker: bool)
    requires Targets(cfg, pkt) && !pkt.flags.Bogus() && !Banned(s.health, now) && Trusted(cfg, s, now)
    ensures var d := TrustedStep(cfg, s, pkt, now);
            Moves(cfg, s, d.(state := d.state.(history := Account(s.history, d.outcome, now))), pkt, now, breaker)
  {
  }

  /** Behind an admitted SYN or a known source, the payload effects are the packet's. */
  lemma PastGatesMoves(cfg: Config, s: IpState, u: IpState, d: Step, pkt: Packet, now: u64, breaker: bool)
    requires Targets(cfg, pkt) && !pkt.flags.Bogus() && !Banned(s.health, now) && !Trusted(cfg, s, now)
    requires PayloadMoves(cfg, u, d, pkt, now)
    requires pkt.flags.syn ==>
               breaker && SynTake(cfg, s, now).1
               && u == s.(whitelist := None, syn := SynTake(cfg, s, now).0, synSeen := Some(now))
    requires !pkt.flags.syn ==> u == s.(whitelist := None) && (s.synSeen.Some? || s.established.Some?)
    ensures Moves(cfg, s, d.(state := d.state.(history := Account(s.history, d.outcome, now))), pkt, now, breaker)
  {
  }

  lemma UntrustedMoves(cfg: Config, s: IpState, pkt: Packet, now: u64, breaker: bool)
    requires Targets(cfg, pkt) && !pkt.flags.Bogus() && !Banned(s.health, now) && !Trusted(cfg, s, now)
    ensures var d := UntrustedStep(cfg, s.(whitelist := None), pkt, now, breaker);
            Moves(cfg, s, d.(state := d.state.(history := Account(s.history, d.outcome, now))), pkt, now, breaker)
  {
    var d := UntrustedStep(cfg, s.(whitelist := None), pkt, now, breaker);
    if PastGates(d.outcome) {
      var u := s.(whitelist := None);
      if pkt.flags.syn {
        u := u.(syn := SynTake(cfg, s, now).0, synSeen := Some(now));
      }
      PayloadStepMoves(cfg, u, pkt, now);
      PastGatesMoves(cfg, s, u, d, pkt, now, breaker);
    }
  }

  /** Every packet has the effects above. */
  lemma PacketMoves(cfg: Config, s: IpState, pkt: Packet, now: u64, breaker: bool)
    ensures Moves(cfg, s, PacketStep(cfg, s, pkt, now, breaker), pkt, now, breaker)
  {
    if Targets(cfg, pkt) && !pkt.flags.Bogus() && !Banned(s.health, now) {
      if Trusted(cfg, s, now) {
        TrustedMoves(cfg, s, pkt, now, breaker);
      } else {
        UntrustedMoves(cfg, s, pkt, now, breaker);
      }
    }
  }

  // ---- What the payload said ----

  /** An outcome that takes the payload for a handshake is right about its class. */
  ghost predicate Parsed(d: Step, pkt: Packet) {
    var o := d.outcome;
    && (o.LoginPromoted? || o.LoginOverRate? || o.LoginNoEst? ==> pkt.HasPayload() && pkt.HandshakeClass() == Login)
    && (o.StatusPass? || o.StatusOverRate? || o.StatusNoEst? ==> pkt.HasPayload() && pkt.HandshakeClass() == Status)
    && (o.DroppedMalformed? ==> pkt.HasPayload() && pkt.HandshakeClass() == Malformed)
  }

  /** The class a routed segment was routed by. */
  lemma RoutedBy(cfg: Config, s: IpState, hs: Class, pkt: Packet, now: u64)
    ensures var o := RouteStep(cfg, s, hs, pkt, now).outcome;
            && (o.LoginPromoted? || o.LoginOverRate? || o.LoginNoEst? ==> hs == Login)
            && (o.StatusPass? || o.StatusOverRate? || o.StatusNoEst? ==> hs == Status)
            && (o.DroppedMalformed? ==> hs == Malformed)
  {
  }

  lemma PayloadParses(cfg: Config, s: IpState, pkt: Packet, now: u64)
    ensures Parsed(PayloadStep(cfg, s, pkt, now), pkt)
  {
    if pkt.HeadersIntact() && pkt.HasPayload() {
      RoutedBy(cfg, MarkFirstData(s, now), SegmentClass(s, pkt), pkt, now);
    }
  }

  lemma UntrustedParses(cfg: Config, s: IpState, pkt: Packet, now: u64, breaker: bool)
    ensures Parsed(UntrustedStep(cfg, s, pkt, now, breaker), pkt)
  {
    PayloadParses(cfg, s, pkt, now);
    PayloadParses(cfg, s.(syn := SynTake(cfg, s, now).0, synSeen := Some(now)), pkt, now);
  }

  lemma PacketParses(cfg: Config, s: IpState, pkt: Packet, now: u64, breaker: bool)
    ensures Parsed(PacketStep(cfg, s, pkt, now, breaker), pkt)
  {
    UntrustedParses(cfg, s.(whitelist := None), pkt, now, breaker);
  }

  // ---- Socket events ----

  /** An establishment, the last close of a source, another close, or nothing. */
  ghost predicate SocketMoves(s: IpState, d: IpState, op: SocketOp, now: u64) {
    if op.PassiveEstablished? then
      d == s.(established := Some(now), openCount := Some(Add64(if s.openCount.Some? then s.openCount.value else 0, 1)))
    else if op.StateChange? && CountsAsClose(op.before, op.after) && s.openCount.Some? && s.openCount.value > 0 then
      if s.openCount.value == 1 then
        d == s.(openCount := Some(0), established := None, whitelist := None, firstData := None)
      else
        d == s.(openCount := Some(s.openCount.value - 1))
    else d == s
  }

  lemma SocketStepMoves(s: IpState, op: SocketOp, now: u64)
    ensures SocketMoves(s, SocketStep(s, op, now), op, now)
  {
  }
}
