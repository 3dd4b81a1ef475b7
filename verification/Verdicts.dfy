/** What becomes of a packet, told without the program: by rules, each on the packet and
    the records of its source alone, whatever order the program asks its questions in. */
module Verdicts {
  import opened Words
  import opened Maps
  import opened Records
  import opened Buckets
  import opened Handshakes
  import opened HandshakeGrammar
  import opened Policy
  import opened Effects

  /** The payload bytes of a packet that its IP header declares and its frame holds. */
  function PayloadOf(pkt: Packet): seq<u8> {
    var start: nat, end: nat := 14 + 4 * pkt.ihl + 4 * pkt.doff, 14 + pkt.ipTot;
    if end <= start || |pkt.frame| <= start then []
    else if |pkt.frame| < end then pkt.frame[start..]
    else pkt.frame[start..end]
  }

  /** What a payload says by the grammar of the handshake. */
  ghost predicate Greeting(payload: seq<u8>, c: Class) {
    if IsLegacyPing(payload) then c == Status else Opens(payload, c)
  }

  function One(b: bool): nat {
    if b then 1 else 0
  }

  /** A packet as it arrives, with the records of its source and the breaker's answer. */
  datatype Arrival = Arrival(cfg: Config, src: IpState, pkt: Packet, now: u64, breaker: bool) {
    predicate ForServer() {
      pkt.parsed && pkt.dport == cfg.targetPort
    }

    /** Some flag, at most one of SYN, FIN and RST, and no FIN, PSH and URG without an ACK. */
    predicate LegalFlags() {
      var f := pkt.flags;
      && (f.syn || f.ack || f.fin || f.rst || f.psh || f.urg)
      && One(f.syn) + One(f.fin) + One(f.rst) <= 1
      && (f.fin && f.psh && f.urg ==> f.ack)
    }

    predicate Banned() {
      src.health.Some? && now < src.health.value.blacklistUntil
    }

    predicate Heeded() {
      ForServer() && LegalFlags() && !Banned()
    }

    /** The age of a stamp is a word; Trust.TrustInRuns says what that is in runs. */
    predicate Trusted() {
      src.whitelist.Some? && (cfg.whitelistTtl == 0 || Sub64(now, src.whitelist.value) <= cfg.whitelistTtl)
    }

    function Connections(): nat {
      if src.openCount.Some? then src.openCount.value else 0
    }

    predicate Full() {
      0 < cfg.maxOpenPerIp <= Connections()
    }

    // The answers of the source's buckets, were they asked.

    predicate WithinConn() {
      ConnTake(cfg, src.conn, pkt.ipTot, now).1
    }

    predicate WithinSyn() {
      cfg.connNewPeriod > 0 && cfg.connNewBurst > 0 ==>
        Serve(Limit(cfg.connNewPeriod, cfg.connNewBurst), src.syn, Request(now, 1)).ok
    }

    predicate WithinStatus() {
      Serve(Limit(cfg.statusPeriod, cfg.statusBurst), src.status, Request(now, 1)).ok
    }

    predicate WithinLogin() {
      Serve(Limit(cfg.loginPeriod, cfg.loginBurst), src.login, Request(now, 1)).ok
    }

    /** A SYN past every gate, or another packet of a source that has been seen. */
    predicate Admitted() {
      && Heeded() && !Trusted()
      && if pkt.flags.syn then !Full() && WithinSyn() && breaker else src.synSeen.Some? || src.established.Some?
    }

    /** The TCP header is of legal size and lies inside the frame. */
    predicate Intact() {
      pkt.doff >= 5 && 14 + 4 * pkt.ihl + 4 * pkt.doff <= |pkt.frame|
    }

    predicate HasWords() {
      4 * pkt.ihl + 4 * pkt.doff < pkt.ipTot
    }

    predicate Speaks() {
      Admitted() && Intact() && HasWords()
    }

    /** Nothing tells that the connection has spoken before. */
    predicate FirstWords() {
      src.established.None? || src.firstData.None? || Connections() > 1
    }

    /** The packet's words are taken for a handshake of class c. */
    ghost predicate Greets(c: Class) {
      && Speaks() && FirstWords() && Greeting(PayloadOf(pkt), c)
      && (c == Malformed ==> src.established.None?)
    }

    /** ... or for none. */
    ghost predicate Plays() {
      Speaks() && !Greets(Status) && !Greets(Login) && !Greets(Malformed)
    }

    /** The end of the packet's journey, by rule. */
    ghost predicate Ends(o: Outcome) {
      match o
      case NoPacket => false
      case NotTarget => !ForServer()
      case DroppedBadFlags => ForServer() && !LegalFlags()
      case DroppedBanned => ForServer() && LegalFlags() && Banned()
      case TrustedOverRate => Heeded() && Trusted() && !WithinConn()
      case TrustedTooManyOpen => Heeded() && Trusted() && WithinConn() && pkt.flags.syn && Full()
      case TrustedPass => Heeded() && Trusted() && WithinConn() && !(pkt.flags.syn && Full())
      case DroppedNoSyn =>
        Heeded() && !Trusted() && !pkt.flags.syn && src.synSeen.None? && src.established.None?
      case DroppedTooManyOpen => Heeded() && !Trusted() && pkt.flags.syn && Full()
      case DroppedConnRate => Heeded() && !Trusted() && pkt.flags.syn && !Full() && !WithinSyn()
      case DroppedGlobal => Heeded() && !Trusted() && pkt.flags.syn && !Full() && WithinSyn() && !breaker
      case BadHeaderPass => Admitted() && !Intact()
      case NoPayloadPass => Admitted() && Intact() && !HasWords()
      case UntrackedPass => Plays() && src.established.None?
      case PlayPass => Plays() && src.established.Some? && WithinConn()
      case PlayOverRate => Plays() && src.established.Some? && !WithinConn()
      case DroppedMalformed => Greets(Malformed)
      case StatusNoEst => Greets(Status) && src.established.None?
      case StatusPass => Greets(Status) && src.established.Some? && WithinStatus()
      case StatusOverRate => Greets(Status) && src.established.Some? && !WithinStatus()
      case LoginNoEst => Greets(Login) && src.established.None?
      case LoginPromoted => Greets(Login) && src.established.Some? && WithinLogin()
      case LoginOverRate => Greets(Login) && src.established.Some? && !WithinLogin()
    }

    /** The packet offends against the rule behind a drop reason. */
    ghost predicate Offends(r: Reason) {
      match r
      case BadFlags => ForServer() && !LegalFlags()
      case Unhealthy => ForServer() && LegalFlags() && Banned()
      case TooManyOpen => Heeded() && pkt.flags.syn && Full() && (Trusted() ==> WithinConn())
      case NoSyn => Heeded() && !Trusted() && !pkt.flags.syn && src.synSeen.None? && src.established.None?
      case ConnRate => Heeded() && !Trusted() && pkt.flags.syn && !Full() && !WithinSyn()
      case GlobalRatelimit => Heeded() && !Trusted() && pkt.flags.syn && !Full() && WithinSyn() && !breaker
      case ConnRatelimit => !WithinConn() && ((Heeded() && Trusted()) || (Plays() && src.established.Some?))
      case MalformedHandshake => Greets(Malformed)
      case StatusRatelimit => Greets(Status) && src.established.Some? && !WithinStatus()
      case LoginRatelimit => Greets(Login) && src.established.Some? && !WithinLogin()
    }

    /** What the program does with it. */
    function Treated(): Step {
      PacketStep(cfg, src, pkt, now, breaker)
    }
  }

  // ---- The program follows the rules ----

  lemma PayloadIsSeen(pkt: Packet)
    requires pkt.HasPayload()
    ensures PayloadOf(pkt) == Seen(pkt.frame, 14 + pkt.Headers(), pkt.ipTot - pkt.Headers())
  {
  }

  lemma GreetingIsClass(pkt: Packet, c: Class)
    requires pkt.HasPayload() && c != Unmatched
    ensures pkt.HandshakeClass() == c <==> Greeting(PayloadOf(pkt), c)
  {
    PayloadIsSeen(pkt);
    ClassifierIsGrammar(pkt.frame, 14 + pkt.Headers(), pkt.ipTot - pkt.Headers(), c);
  }

  /** The class by which the program routes a segment, in terms of the rules. */
  lemma SegmentGreets(a: Arrival)
    requires a.Speaks()
    ensures SegmentClass(a.src, a.pkt) == Unmatched <==> a.Plays()
    ensures forall c: Class | c != Unmatched :: SegmentClass(a.src, a.pkt) == c <==> a.Greets(c)
  {
    forall c: Class | c != Unmatched ensures SegmentClass(a.src, a.pkt) == c <==> a.Greets(c) {
      GreetingIsClass(a.pkt, c);
    }
  }

  /** The segment of an admitted packet ends by rule; u is the source as the gates left it. */
  lemma RoutedByRule(a: Arrival, u: IpState)
    requires a.Speaks()
    requires u == a.src.(whitelist := None, syn := u.syn, synSeen := u.synSeen)
    ensures a.Ends(PayloadStep(a.cfg, u, a.pkt, a.now).outcome)
  {
    SegmentGreets(a);
    var hs := SegmentClass(u, a.pkt);
    assert hs == SegmentClass(a.src, a.pkt);
    var m := MarkFirstData(u, a.now);
    match hs
    case Unmatched => assert a.Plays();
    case Malformed => assert a.Greets(Malformed);
    case Status => assert a.Greets(Status);
    case Login => assert a.Greets(Login);
  }

  lemma AdmittedByRule(a: Arrival, u: IpState)
    requires a.Admitted()
    requires u == a.src.(whitelist := None, syn := u.syn, synSeen := u.synSeen)
    ensures a.Ends(PayloadStep(a.cfg, u, a.pkt, a.now).outcome)
  {
    if a.Intact() && a.HasWords() { RoutedByRule(a, u); }
  }

  lemma UntrustedByRule(a: Arrival)
    requires a.Heeded() && !a.Trusted()
    ensures a.Ends(UntrustedStep(a.cfg, a.src.(whitelist := None), a.pkt, a.now, a.breaker).outcome)
  {
    if a.Admitted() {
      var u := a.src.(whitelist := None);
      AdmittedByRule(a, if a.pkt.flags.syn then u.(syn := SynTake(a.cfg, u, a.now).0, synSeen := Some(a.now)) else u);
    }
  }

  lemma TrustedByRule(a: Arrival)
    requires a.Heeded() && a.Trusted()
    ensures a.Ends(TrustedStep(a.cfg, a.src, a.pkt, a.now).outcome)
  {
  }

  lemma TreatedByRule(a: Arrival)
    ensures a.Ends(a.Treated().outcome)
  {
    assert a.pkt.flags.Bogus() <==> !a.LegalFlags();
    if a.Heeded() {
      if a.Trusted() { TrustedByRule(a); } else { UntrustedByRule(a); }
    }
  }

  /** The rules leave no packet two ends. */
  lemma OneEnd(a: Arrival, o: Outcome, p: Outcome)
    requires a.Ends(o) && a.Ends(p)
    ensures o == p
  {
    if a.Speaks() {
      SegmentGreets(a);
    }
  }

  /** Every packet ends as the rules say, and only so. */
  lemma EndsExactly(a: Arrival, o: Outcome)
    ensures a.Treated().outcome == o <==> a.Ends(o)
  {
    TreatedByRule(a);
    if a.Ends(o) { OneEnd(a, o, a.Treated().outcome); }
  }

  // ---- Drops ----

  lemma EndOfOffence(a: Arrival, r: Reason) returns (o: Outcome)
    requires a.Offends(r)
    ensures a.Ends(o) && o.DropReason() == Some(r)
  {
    o := match r
      case BadFlags => DroppedBadFlags
      case Unhealthy => DroppedBanned
      case TooManyOpen => if a.Trusted() then TrustedTooManyOpen else DroppedTooManyOpen
      case NoSyn => DroppedNoSyn
      case ConnRate => DroppedConnRate
      case GlobalRatelimit => DroppedGlobal
      case ConnRatelimit => if a.Trusted() then TrustedOverRate else PlayOverRate
      case MalformedHandshake => DroppedMalformed
      case StatusRatelimit => StatusOverRate
      case LoginRatelimit => LoginOverRate;
  }

  lemma OffenceOfEnd(a: Arrival, o: Outcome)
    requires a.Ends(o) && o.DropReason().Some?
    ensures a.Offends(o.DropReason().value)
  {
  }

  /** A packet is dropped for a reason if and only if it offends against the rule behind it. */
  lemma DropsExactly(a: Arrival, r: Reason)
    ensures a.Treated().outcome.DropReason() == Some(r) <==> a.Offends(r)
  {
    TreatedByRule(a);
    if a.Offends(r) {
      var o := EndOfOffence(a, r);
      OneEnd(a, o, a.Treated().outcome);
    }
    if a.Treated().outcome.DropReason() == Some(r) {
      OffenceOfEnd(a, a.Treated().outcome);
    }
  }

  /** It passes if and only if it offends against none; so does every packet that is not for
      the server. */
  lemma PassesExactly(a: Arrival)
    ensures VerdictOf(a.Treated().outcome) == XdpPass <==> forall r: Reason :: !a.Offends(r)
    ensures !a.ForServer() ==> VerdictOf(a.Treated().outcome) == XdpPass
  {
    forall r: Reason ensures a.Treated().outcome.DropReason() == Some(r) <==> a.Offends(r) {
      DropsExactly(a, r);
    }
    var d := a.Treated().outcome.DropReason();
    if d.Some? { assert a.Offends(d.value); }
  }

  /** A segment that is no handshake passes if and only if its source is not established or
      its connection buckets admit it. */
  lemma SegmentPassesIff(a: Arrival)
    requires a.Plays()
    ensures VerdictOf(a.Treated().outcome) == XdpPass <==> a.src.established.None? || a.WithinConn()
  {
    var o := if a.src.established.None? then UntrackedPass else if a.WithinConn() then PlayPass else PlayOverRate;
    assert a.Ends(o);
    EndsExactly(a, o);
  }

  // ---- Handshakes ----

  predicate HandledAs(o: Outcome, c: Class) {
    match c
    case Unmatched => o.UntrackedPass? || o.PlayPass? || o.PlayOverRate?
    case Status => o.StatusNoEst? || o.StatusPass? || o.StatusOverRate?
    case Login => o.LoginNoEst? || o.LoginPromoted? || o.LoginOverRate?
    case Malformed => o.DroppedMalformed?
  }

  /** Words that greet as c are handled as that exactly while they may be the first: the
      source is not established, has no first-data mark, or has more than one connection
      open. An established source is never taken for malformed. */
  lemma GreetingIsHandled(a: Arrival, c: Class)
    requires a.Speaks() && c != Unmatched && Greeting(PayloadOf(a.pkt), c)
    ensures HandledAs(a.Treated().outcome, c)
            <==> if c == Malformed then a.src.established.None?
                 else a.src.established.None? || a.src.firstData.None? || a.Connections() > 1
  {
    TreatedByRule(a);
    if a.Greets(c) {
      SegmentGreets(a);
    }
  }

  lemma PromotionMoves(s: IpState, d: Step, pkt: Packet, now: u64, cfg: Config, breaker: bool)
    requires Moves(cfg, s, d, pkt, now, breaker) && d.outcome.LoginPromoted? && s.firstData.None?
    ensures d.state.whitelist == Some(now) && d.state.firstData == Some(now)
  {
  }

  /** The first words of an established source, if they log in and the login bucket admits
      it, pass and have it trusted from now on. */
  lemma FirstLoginPromotes(a: Arrival)
    requires a.Speaks() && a.src.established.Some? && a.src.firstData.None?
    requires Greeting(PayloadOf(a.pkt), Login) && a.WithinLogin()
    ensures var d := a.Treated();
            && VerdictOf(d.outcome) == XdpPass && d.outcome.LoginPromoted?
            && d.state.whitelist == Some(a.now) && d.state.firstData == Some(a.now)
  {
    EndsExactly(a, LoginPromoted);
    PacketMoves(a.cfg, a.src, a.pkt, a.now, a.breaker);
    PromotionMoves(a.src, a.Treated(), a.pkt, a.now, a.cfg, a.breaker);
  }

  /** Nothing else promotes. */
  lemma PromotedHasGreeted(a: Arrival)
    requires a.Treated().outcome.LoginPromoted?
    ensures a.src.established.Some? && a.FirstWords() && Opens(PayloadOf(a.pkt), Login)
  {
    EndsExactly(a, LoginPromoted);
  }

  /** Reaching the payload is speaking. */
  lemma SpeakingIsReaching(a: Arrival)
    ensures a.Treated().outcome.ReachedPayload() <==> a.Speaks()
  {
    TreatedByRule(a);
  }
}
