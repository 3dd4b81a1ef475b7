/** The other half of the throughput bounds: a source that keeps to its limits loses no
    packet to any of them, is charged with no anomaly, and is never banned. */
module Compliance {
  import opened Words
  import opened Maps
  import opened Handshakes
  import opened Buckets
  import opened BucketBounds
  import opened Policy
  import opened Effects
  import opened Runs
  import opened Meters
  import opened Records
  import opened Verdicts
  import EagerRuns

  /** The packet is of the kind the meter is about, as its bytes alone show. */
  predicate Concerns(cfg: Config, pkt: Policy.Packet, m: Meter) {
    && Targets(cfg, pkt)
    && match m
       case ByStatus => pkt.HasPayload() && pkt.HandshakeClass() == Status
       case ByLogin => pkt.HasPayload() && pkt.HandshakeClass() == Login
       case BySyn => pkt.flags.syn
       case ByConnPackets => true
       case ByConnBytes => true
  }

  function Offer(pkt: Policy.Packet, now: u64, m: Meter): Request {
    Request(now, if m == ByConnBytes then pkt.ipTot else 1)
  }

  /** Everything the source sends that concerns a meter, whether or not the meter is asked. */
  function Arrivals(cfg: Config, es: seq<Event>, m: Meter): seq<Request> {
    if es == [] then []
    else
      var before, e := es[..|es| - 1], es[|es| - 1];
      Arrivals(cfg, before, m)
      + if e.Packet? && Concerns(cfg, e.pkt, m) then [Offer(e.pkt, e.now, m)] else []
  }

  predicate Enabled(cfg: Config, m: Meter) {
    Metered(cfg, m) && (m == BySyn ==> cfg.NewOn())
  }

  /** What the source sends is spaced as every limit that is on allows. */
  ghost predicate Compliant(cfg: Config, es: seq<Event>) {
    forall m: Meter | Enabled(cfg, m) :: Spaced(LimitOf(cfg, m), Arrivals(cfg, es, m))
  }

  // ---- What is asked of a meter is among what concerns it ----

  lemma MovesConcern(cfg: Config, s: IpState, d: Step, pkt: Policy.Packet, now: u64, breaker: bool, m: Meter)
    requires Moves(cfg, s, d, pkt, now, breaker) && Parsed(d, pkt)
    requires AskedBy(cfg, s, d.outcome, pkt, now, m).Some?
    ensures Concerns(cfg, pkt, m) && AskedBy(cfg, s, d.outcome, pkt, now, m) == Some(Offer(pkt, now, m))
  {
  }

  lemma AskedConcerns(cfg: Config, s: IpState, e: Event, m: Meter)
    requires Asked(cfg, s, e, m).Some?
    ensures e.Packet? && Concerns(cfg, e.pkt, m) && Asked(cfg, s, e, m) == Some(Offer(e.pkt, e.now, m))
  {
    PacketMoves(cfg, s, e.pkt, e.now, e.breaker);
    PacketParses(cfg, s, e.pkt, e.now, e.breaker);
    MovesConcern(cfg, s, PacketStep(cfg, s, e.pkt, e.now, e.breaker), e.pkt, e.now, e.breaker, m);
  }

  lemma {:induction false} RequestsAreSpaced(cfg: Config, s: IpState, es: seq<Event>, m: Meter) returns (at: seq<nat>)
    requires Spaced(LimitOf(cfg, m), Arrivals(cfg, es, m))
    ensures Covered(Meters.Requests(cfg, s, es, m), Arrivals(cfg, es, m), at)
    ensures Spaced(LimitOf(cfg, m), Meters.Requests(cfg, s, es, m))
  {
    if es == [] {
      at := [];
    } else {
      var n := |es| - 1;
      var before, e := es[..n], es[n];
      var l := LimitOf(cfg, m);
      var all, rs := Arrivals(cfg, before, m), Meters.Requests(cfg, s, before, m);
      var r := Asked(cfg, After(cfg, s, before), e, m);
      if r.Some? { AskedConcerns(cfg, After(cfg, s, before), e, m); }
      if e.Packet? && Concerns(cfg, e.pkt, m) {
        var a := Offer(e.pkt, e.now, m);
        SpacedPrefix(l, all, a);
        at := RequestsAreSpaced(cfg, s, before, m);
        if r.Some? {
          SpacedTake(l, rs, all, at, a);
          CoveredTake(rs, all, at, a);
          at := at + [|all|];
        } else {
          CoveredSkip(rs, all, at, a);
          assert rs + [] == rs;
        }
      } else {
        assert all + [] == all && rs + [] == rs;
        at := RequestsAreSpaced(cfg, s, before, m);
      }
    }
  }

  // ---- A packet dropped for a rate was refused by a meter ----

  predicate OverLimit(o: Outcome) {
    OverRate(o) || o.StatusOverRate? || o.LoginOverRate? || o.DroppedConnRate?
  }

  /** The meter that refused it. */
  function RefusedBy(cfg: Config, s: IpState, o: Outcome, now: u64): Meter {
    if o.StatusOverRate? then ByStatus
    else if o.LoginOverRate? then ByLogin
    else if o.DroppedConnRate? then BySyn
    else if PaysPacket(cfg, s, now) then ByConnBytes
    else ByConnPackets
  }

  lemma MovesRefused(cfg: Config, s: IpState, d: Step, pkt: Policy.Packet, now: u64, breaker: bool)
    requires Moves(cfg, s, d, pkt, now, breaker) && OverLimit(d.outcome)
    ensures var m := RefusedBy(cfg, s, d.outcome, now);
            var r := AskedBy(cfg, s, d.outcome, pkt, now, m);
            Enabled(cfg, m) && r.Some? && !Serve(LimitOf(cfg, m), BucketOf(s, m), r.value).ok
  {
  }

  lemma ActRefused(cfg: Config, s: IpState, e: Event)
    requires OverLimit(Act(cfg, s, e).outcome)
    ensures var m := RefusedBy(cfg, s, Act(cfg, s, e).outcome, e.now);
            var r := Asked(cfg, s, e, m);
            Enabled(cfg, m) && r.Some? && !Serve(LimitOf(cfg, m), BucketOf(s, m), r.value).ok
  {
    PacketMoves(cfg, s, e.pkt, e.now, e.breaker);
    MovesRefused(cfg, s, PacketStep(cfg, s, e.pkt, e.now, e.breaker), e.pkt, e.now, e.breaker);
  }

  /** A meter whose arrivals are spaced refuses no request of the run. */
  lemma SpacedMeterAdmits(cfg: Config, es: seq<Event>, m: Meter)
    requires Bounded(cfg) && Clocked(es) && es != [] && Spaced(LimitOf(cfg, m), Arrivals(cfg, es, m))
    ensures false !in EagerRuns.Decided(cfg, UNKNOWN, es, m)
  {
    var at := RequestsAreSpaced(cfg, UNKNOWN, es, m);
    RequestsInOrder(cfg, UNKNOWN, es, m);
    MeterIsOk(cfg, UNKNOWN, 0, m);
    NoFalseDrop(LimitOf(cfg, m), Meters.Requests(cfg, UNKNOWN, es, m));
  }

  lemma CompliantPrefix(cfg: Config, es: seq<Event>, e: Event)
    requires Compliant(cfg, es + [e])
    ensures Compliant(cfg, es)
  {
    assert (es + [e])[..|es|] == es;
    forall m: Meter | Enabled(cfg, m) ensures Spaced(LimitOf(cfg, m), Arrivals(cfg, es, m)) {
      assert Spaced(LimitOf(cfg, m), Arrivals(cfg, es + [e], m));
      if e.Packet? && Concerns(cfg, e.pkt, m) {
        SpacedPrefix(LimitOf(cfg, m), Arrivals(cfg, es, m), Offer(e.pkt, e.now, m));
      } else {
        assert Arrivals(cfg, es, m) + [] == Arrivals(cfg, es, m);
      }
    }
  }

  lemma LastIsWithinLimits(cfg: Config, es: seq<Event>)
    requires Bounded(cfg) && Clocked(es) && NoEvictions(es) && es != [] && Compliant(cfg, es)
    ensures !OverLimit(Act(cfg, After(cfg, UNKNOWN, es[..|es| - 1]), es[|es| - 1]).outcome)
  {
    var n := |es| - 1;
    var u := After(cfg, UNKNOWN, es[..n]);
    var o := Act(cfg, u, es[n]).outcome;
    if OverLimit(o) {
      var m := RefusedBy(cfg, u, o, es[n].now);
      ActRefused(cfg, u, es[n]);
      SpacedMeterAdmits(cfg, es, m);
      EagerRuns.DecidedNext(cfg, UNKNOWN, es, m);
      assert false;
    }
  }

  /** The packet is dropped by a rule other than a rate limit of its source, or a ban: it has
      illegal flags, follows no SYN, is a SYN of a source with too many connections or one
      the breaker refuses, or is a malformed handshake. */
  ghost predicate Excused(a: Arrival) {
    a.Offends(BadFlags) || a.Offends(NoSyn) || a.Offends(TooManyOpen) || a.Offends(GlobalRatelimit)
    || a.Offends(MalformedHandshake)
  }

  ghost predicate Lost(cfg: Config, s: IpState, e: Event) {
    && e.Packet? && VerdictOf(Act(cfg, s, e).outcome) == XdpDrop
    && !Excused(Arrival(cfg, s, e.pkt, e.now, e.breaker))
  }

  /** How many packets of a run are dropped by no such rule. */
  ghost function Losses(cfg: Config, s: IpState, es: seq<Event>): nat {
    if es == [] then 0
    else
      var before := es[..|es| - 1];
      Losses(cfg, s, before) + if Lost(cfg, After(cfg, s, before), es[|es| - 1]) then 1 else 0
  }

  lemma LossIsARate(cfg: Config, s: IpState, e: Event)
    requires Lost(cfg, s, e)
    ensures OverLimit(Act(cfg, s, e).outcome) || Act(cfg, s, e).outcome.DroppedBanned?
  {
    var a := Arrival(cfg, s, e.pkt, e.now, e.breaker);
    var o := Act(cfg, s, e).outcome;
    DropsExactly(a, o.DropReason().value);
  }

  lemma ActHealthy(cfg: Config, s: IpState, e: Event)
    requires s.health.None? && !e.Evict? && !OverLimit(Act(cfg, s, e).outcome)
    ensures Act(cfg, s, e).state.health.None? && !Act(cfg, s, e).outcome.DroppedBanned?
  {
    match e
    case Packet(pkt, now, breaker) => PacketMoves(cfg, s, pkt, now, breaker);
    case Socket(op, now) => SocketStepMoves(s, op, now);
  }

  /** Over every run without evictions of a source that sends within every limit: not one
      packet is lost, whatever paths they take, but to the rules that are about no rate of
      its own; and no anomaly is recorded. */
  lemma {:induction false} CompliantLosesNothing(cfg: Config, es: seq<Event>)
    requires Bounded(cfg) && Clocked(es) && NoEvictions(es) && Compliant(cfg, es)
    ensures Losses(cfg, UNKNOWN, es) == 0
    ensures After(cfg, UNKNOWN, es).health.None?
  {
    if es != [] {
      var n := |es| - 1;
      assert es == es[..n] + [es[n]];
      CompliantPrefix(cfg, es[..n], es[n]);
      CompliantLosesNothing(cfg, es[..n]);
      LastIsWithinLimits(cfg, es);
      var u := After(cfg, UNKNOWN, es[..n]);
      ActHealthy(cfg, u, es[n]);
      if Lost(cfg, u, es[n]) { LossIsARate(cfg, u, es[n]); }
    }
  }
}
