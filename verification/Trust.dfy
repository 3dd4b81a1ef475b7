/** Where trust comes from, and what evidence any accounting and any pass rests on. Every
    theorem here survives arbitrary evictions. */
module Trust {
  import opened Words
  import opened Maps
  import opened Handshakes
  import opened HandshakeGrammar
  import opened Policy
  import opened Effects
  import opened Runs
  import opened Verdicts

  // ---- The trust chain ----

  predicate RenewsTrust(o: Outcome) {
    o.TrustedPass? || o.LoginPromoted?
  }

  /** Event i stands in a chain of trusted passes, each within the TTL of the one before
      (without a TTL, at any distance), that starts at a promotion of an established source. */
  ghost predicate Backed(cfg: Config, es: seq<Event>, i: nat)
    requires i < |es|
    decreases i
  {
    var o := OutcomeAt(cfg, UNKNOWN, es, i);
    || (o.LoginPromoted? && After(cfg, UNKNOWN, es[..i]).established.Some?)
    || (o.TrustedPass? && exists j | 0 <= j < i :: Backed(cfg, es, j) && WithinTtl(cfg, es[j].now, es[i].now))
  }

  predicate WithinTtl(cfg: Config, t: u64, now: u64) {
    t <= now && (cfg.whitelistTtl > 0 ==> now - t <= cfg.whitelistTtl)
  }

  /** The last event before n that renewed trust. */
  function LastRenewal(cfg: Config, es: seq<Event>, n: nat): Option<nat>
    requires n <= |es|
  {
    if n == 0 then None
    else if RenewsTrust(OutcomeAt(cfg, UNKNOWN, es, n - 1)) then Some(n - 1)
    else LastRenewal(cfg, es, n - 1)
  }

  lemma MovesTrust(cfg: Config, s: IpState, d: Step, pkt: Policy.Packet, now: u64, breaker: bool)
    requires Moves(cfg, s, d, pkt, now, breaker)
    ensures d.outcome.LoginPromoted? ==> s.established.Some?
    ensures d.outcome.TrustedPass? ==> Trusted(cfg, s, now)
    ensures RenewsTrust(d.outcome) ==> d.state.whitelist == Some(now)
    ensures !RenewsTrust(d.outcome) ==> d.state.whitelist == s.whitelist || d.state.whitelist == None
  {
  }

  lemma ActTrust(cfg: Config, s: IpState, e: Event)
    ensures var d := Act(cfg, s, e);
            && (d.outcome.LoginPromoted? ==> s.established.Some?)
            && (d.outcome.TrustedPass? ==> Trusted(cfg, s, e.now))
            && (RenewsTrust(d.outcome) ==> d.state.whitelist == Some(e.now))
            && (!RenewsTrust(d.outcome) ==> d.state.whitelist == s.whitelist || d.state.whitelist == None)
  {
    match e {
      case Packet(pkt, now, breaker) =>
        PacketMoves(cfg, s, pkt, now, breaker);
        MovesTrust(cfg, s, PacketStep(cfg, s, pkt, now, breaker), pkt, now, breaker);
      case Socket(op, now) => SocketStepMoves(s, op, now);
      case Evict(table, now) =>
    }
  }

  /** The same, at a position of a run. */
  lemma TrustAt(cfg: Config, es: seq<Event>, i: nat)
    requires i < |es|
    ensures var s, o := After(cfg, UNKNOWN, es[..i]), OutcomeAt(cfg, UNKNOWN, es, i);
            var after := After(cfg, UNKNOWN, es[..i + 1]).whitelist;
            && (o.LoginPromoted? ==> s.established.Some?)
            && (o.TrustedPass? ==> Trusted(cfg, s, es[i].now))
            && (RenewsTrust(o) ==> after == Some(es[i].now))
            && (!RenewsTrust(o) ==> after == s.whitelist || after == None)
  {
    AfterNext(cfg, UNKNOWN, es, i);
    ActTrust(cfg, After(cfg, UNKNOWN, es[..i]), es[i]);
  }

  /** A stored stamp is the time of the last renewal, which is backed. */
  lemma {:induction false} StampIsLastRenewal(cfg: Config, es: seq<Event>, n: nat)
    requires Clocked(es) && n <= |es| && After(cfg, UNKNOWN, es[..n]).whitelist.Some?
    ensures LastRenewal(cfg, es, n).Some?
    ensures var j := LastRenewal(cfg, es, n).value;
            j < n && es[j].now == After(cfg, UNKNOWN, es[..n]).whitelist.value && Backed(cfg, es, j)
    decreases n, 0
  {
    TrustAt(cfg, es, n - 1);
    if RenewsTrust(OutcomeAt(cfg, UNKNOWN, es, n - 1)) {
      RenewalIsBacked(cfg, es, n - 1);
    } else {
      StampIsLastRenewal(cfg, es, n - 1);
    }
  }

  lemma {:induction false} RenewalIsBacked(cfg: Config, es: seq<Event>, i: nat)
    requires Clocked(es) && i < |es| && RenewsTrust(OutcomeAt(cfg, UNKNOWN, es, i))
    ensures Backed(cfg, es, i)
    decreases i, 2
  {
    if OutcomeAt(cfg, UNKNOWN, es, i).TrustedPass? {
      TrustedPassIsBacked(cfg, es, i);
    } else {
      TrustAt(cfg, es, i);
    }
  }

  /** Every pass on the trusted path is backed. */
  lemma {:induction false} TrustedPassIsBacked(cfg: Config, es: seq<Event>, i: nat)
    requires Clocked(es) && i < |es| && OutcomeAt(cfg, UNKNOWN, es, i).TrustedPass?
    ensures Backed(cfg, es, i)
    decreases i, 1
  {
    TrustAt(cfg, es, i);
    StampIsLastRenewal(cfg, es, i);
    var j := LastRenewal(cfg, es, i).value;
    assert es[j].now <= es[i].now;
    assert WithinTtl(cfg, es[j].now, es[i].now);
  }

  function ArrivalOf(cfg: Config, s: IpState, e: Event): Arrival
    requires e.Packet?
  {
    Arrival(cfg, s, e.pkt, e.now, e.breaker)
  }

  /** A promotion is a login: the payload opens with a login frame, and the words may be the
      first of an established source. */
  lemma PromotionIsLogin(cfg: Config, s: IpState, e: Event)
    requires Act(cfg, s, e).outcome.LoginPromoted?
    ensures e.Packet? && Opens(PayloadOf(e.pkt), Login)
    ensures s.established.Some? && ArrivalOf(cfg, s, e).FirstWords()
  {
    if e.Packet? { PromotedHasGreeted(ArrivalOf(cfg, s, e)); }
  }

  /** After any run a source is trusted if and only if its stamp is no older than the TTL;
      without one, if it has a stamp. */
  lemma TrustInRuns(cfg: Config, es: seq<Event>, e: Event)
    requires Clocked(es + [e]) && e.Packet?
    ensures var s := After(cfg, UNKNOWN, es);
            ArrivalOf(cfg, s, e).Trusted() <==> s.whitelist.Some? && WithinTtl(cfg, s.whitelist.value, e.now)
  {
    if After(cfg, UNKNOWN, es).whitelist.Some? {
      var all := es + [e];
      assert all[..|es|] == es && all[|es|] == e;
      StampIsLastRenewal(cfg, all, |es|);
      assert all[LastRenewal(cfg, all, |es|).value].now <= all[|es|].now;
    }
  }

  // ---- Evidence ----

  predicate IsEstablishment(e: Event) {
    e.Socket? && e.op.PassiveEstablished?
  }

  /** A source nobody has established: no accounting, no trust, no ban. */
  ghost predicate Unaccounted(s: IpState) {
    && s.established.None? && s.whitelist.None? && s.firstData.None?
    && s.status.None? && s.login.None? && s.conn.None? && s.health.None?
  }

  lemma MovesUnaccounted(cfg: Config, s: IpState, d: Step, pkt: Policy.Packet, now: u64, breaker: bool)
    requires Moves(cfg, s, d, pkt, now, breaker) && Unaccounted(s)
    ensures Unaccounted(d.state)
  {
  }

  /** Without an establishment event nothing is ever charged to a source, trusts it or
      bans it, whatever packets carry its address. */
  lemma {:induction false} NoEvidenceNoAccounting(cfg: Config, es: seq<Event>)
    requires forall i | 0 <= i < |es| :: !IsEstablishment(es[i])
    ensures Unaccounted(After(cfg, UNKNOWN, es))
  {
    if es != [] {
      var n := |es| - 1;
      NoEvidenceNoAccounting(cfg, es[..n]);
      var u := After(cfg, UNKNOWN, es[..n]);
      match es[n] {
        case Packet(pkt, now, breaker) =>
          PacketMoves(cfg, u, pkt, now, breaker);
          MovesUnaccounted(cfg, u, PacketStep(cfg, u, pkt, now, breaker), pkt, now, breaker);
        case Socket(op, now) => SocketStepMoves(u, op, now);
        case Evict(table, now) =>
      }
    }
  }

  /** Event j is an establishment, or a SYN that got past every gate. */
  predicate GivesEvidence(cfg: Config, es: seq<Event>, j: nat)
    requires j < |es|
  {
    || IsEstablishment(es[j])
    || (es[j].Packet? && es[j].pkt.flags.syn && PastGates(OutcomeAt(cfg, UNKNOWN, es, j)))
  }

  ghost predicate Evidenced(cfg: Config, es: seq<Event>, n: nat)
    requires n <= |es|
  {
    exists j | 0 <= j < n :: GivesEvidence(cfg, es, j)
  }

  predicate Known(s: IpState) {
    s.established.Some? || s.synSeen.Some? || s.whitelist.Some?
  }

  lemma MovesKnown(cfg: Config, s: IpState, d: Step, pkt: Policy.Packet, now: u64, breaker: bool)
    requires Moves(cfg, s, d, pkt, now, breaker)
    ensures Known(d.state) ==> Known(s) || (pkt.flags.syn && PastGates(d.outcome))
    ensures Targets(cfg, pkt) && !pkt.flags.syn && !d.outcome.Drops() ==> Known(s)
  {
  }

  lemma ActKnown(cfg: Config, s: IpState, e: Event)
    requires Known(Act(cfg, s, e).state) && !Known(s)
    ensures IsEstablishment(e) || (e.Packet? && e.pkt.flags.syn && PastGates(Act(cfg, s, e).outcome))
  {
    match e {
      case Packet(pkt, now, breaker) =>
        PacketMoves(cfg, s, pkt, now, breaker);
        MovesKnown(cfg, s, PacketStep(cfg, s, pkt, now, breaker), pkt, now, breaker);
      case Socket(op, now) => SocketStepMoves(s, op, now);
      case Evict(table, now) =>
    }
  }

  lemma {:induction false} KnownIsEvidenced(cfg: Config, es: seq<Event>, n: nat)
    requires n <= |es| && Known(After(cfg, UNKNOWN, es[..n]))
    ensures Evidenced(cfg, es, n)
  {
    if n > 0 {
      var u := After(cfg, UNKNOWN, es[..n - 1]);
      AfterNext(cfg, UNKNOWN, es, n - 1);
      if Known(u) {
        KnownIsEvidenced(cfg, es, n - 1);
      } else {
        ActKnown(cfg, u, es[n - 1]);
        assert GivesEvidence(cfg, es, n - 1);
      }
    }
  }

  /** Every passed packet for the server that is no SYN follows an admitted SYN or an
      establishment of its source. */
  lemma PassesAreEvidenced(cfg: Config, es: seq<Event>, i: nat)
    requires i < |es| && es[i].Packet? && Targets(cfg, es[i].pkt) && !es[i].pkt.flags.syn
    requires !OutcomeAt(cfg, UNKNOWN, es, i).Drops()
    ensures Evidenced(cfg, es, i)
  {
    var u := After(cfg, UNKNOWN, es[..i]);
    var e := es[i];
    PacketMoves(cfg, u, e.pkt, e.now, e.breaker);
    MovesKnown(cfg, u, PacketStep(cfg, u, e.pkt, e.now, e.breaker), e.pkt, e.now, e.breaker);
    KnownIsEvidenced(cfg, es, i);
  }
}
