/** The verdicts of a run against buckets that tick with the clock: whatever path its
    packets take, each meter of a source answers as an eager bucket would. */
module EagerRuns {
  import opened Words
  import opened Maps
  import opened Buckets
  import opened Policy
  import opened Effects
  import opened Runs
  import opened Meters

  /** The verdict shows the meter's answer. With a byte limit on, the packet bucket's answer
      alone decides nothing. */
  predicate Shows(cfg: Config, m: Meter) {
    Metered(cfg, m) && (m == ByConnPackets ==> !cfg.ByteOn())
  }

  /** The answer a verdict shows to a request made of the meter. */
  predicate Admits(o: Outcome, m: Meter) {
    match m
    case ByStatus => o.StatusPass?
    case ByLogin => o.LoginPromoted?
    case BySyn => !o.DroppedConnRate?
    case ByConnPackets => !OverRate(o)
    case ByConnBytes => !OverRate(o)
  }

  /** The answers the verdicts of a run show, one for each request of the meter. */
  function Answers(cfg: Config, s: IpState, es: seq<Event>, m: Meter): seq<bool> {
    if es == [] then []
    else
      var before, e := es[..|es| - 1], es[|es| - 1];
      var u := After(cfg, s, before);
      Answers(cfg, s, before, m) + if Asked(cfg, u, e, m).Some? then [Admits(Act(cfg, u, e).outcome, m)] else []
  }

  lemma MovesAnswer(cfg: Config, s: IpState, d: Step, pkt: Policy.Packet, now: u64, breaker: bool, m: Meter)
    requires Moves(cfg, s, d, pkt, now, breaker) && Shows(cfg, m)
    requires AskedBy(cfg, s, d.outcome, pkt, now, m).Some?
    ensures Admits(d.outcome, m)
            == Serve(LimitOf(cfg, m), BucketOf(s, m), AskedBy(cfg, s, d.outcome, pkt, now, m).value).ok
  {
  }

  lemma ActAnswers(cfg: Config, s: IpState, e: Event, m: Meter)
    requires Shows(cfg, m) && Asked(cfg, s, e, m).Some?
    ensures Admits(Act(cfg, s, e).outcome, m) == Serve(LimitOf(cfg, m), BucketOf(s, m), Asked(cfg, s, e, m).value).ok
  {
    PacketMoves(cfg, s, e.pkt, e.now, e.breaker);
    MovesAnswer(cfg, s, PacketStep(cfg, s, e.pkt, e.now, e.breaker), e.pkt, e.now, e.breaker, m);
  }

  lemma {:induction false} AnswersAreDecisions(cfg: Config, s: IpState, es: seq<Event>, m: Meter)
    requires Shows(cfg, m) && NoEvictions(es)
    ensures Answers(cfg, s, es, m) == LazyDecisions(LimitOf(cfg, m), BucketOf(s, m), Meters.Requests(cfg, s, es, m))
  {
    if es != [] {
      var n := |es| - 1;
      var before := es[..n];
      AnswersAreDecisions(cfg, s, before, m);
      MeterOfRun(cfg, s, before, m);
      var u := After(cfg, s, before);
      var rs, r := Meters.Requests(cfg, s, before, m), Asked(cfg, u, es[n], m);
      if r.Some? {
        ActAnswers(cfg, u, es[n], m);
        assert (rs + [r.value])[..|rs|] == rs;
      } else {
        assert rs + [] == rs;
        assert Answers(cfg, s, before, m) + [] == Answers(cfg, s, before, m);
      }
    }
  }

  /** Over every run without evictions, the verdicts show the decisions of a bucket that is
      created by the first request and gains a token at every tick from then on. */
  lemma RunsRefineEager(cfg: Config, es: seq<Event>, m: Meter)
    requires Bounded(cfg) && Clocked(es) && NoEvictions(es) && Shows(cfg, m)
    ensures Answers(cfg, UNKNOWN, es, m)
            == EagerDecisions(LimitOf(cfg, m), None, Meters.Requests(cfg, UNKNOWN, es, m))
  {
    AnswersAreDecisions(cfg, UNKNOWN, es, m);
    if es != [] {
      RequestsInOrder(cfg, UNKNOWN, es, m);
    }
    PerIpBucketTicksFromFirstRequest(LimitOf(cfg, m), Meters.Requests(cfg, UNKNOWN, es, m));
  }

  // ---- Both connection buckets at once ----

  /** The charged packets of a run, each with whether it stayed within the rate. */
  function Charges(cfg: Config, s: IpState, es: seq<Event>): seq<bool> {
    if es == [] then []
    else
      var before, e := es[..|es| - 1], es[|es| - 1];
      var o := Act(cfg, After(cfg, s, before), e).outcome;
      Charges(cfg, s, before) + if AskedConn(o) then [!OverRate(o)] else []
  }

  /** Two meters in a row: the second is asked only where the first admits. */
  function InTurn(first: seq<bool>, second: seq<bool>): seq<bool> {
    if first == [] then []
    else if !first[|first| - 1] then InTurn(first[..|first| - 1], second) + [false]
    else if second == [] then InTurn(first[..|first| - 1], []) + [true]
    else InTurn(first[..|first| - 1], second[..|second| - 1]) + [second[|second| - 1]]
  }

  /** One charged packet: it is within the rate exactly if the packet bucket admits it and
      the byte bucket, asked only then, does. */
  ghost predicate Joint(cfg: Config, s: IpState, o: Outcome, pkt: Policy.Packet, now: u64) {
    var p, b := AskedBy(cfg, s, o, pkt, now, ByConnPackets), AskedBy(cfg, s, o, pkt, now, ByConnBytes);
    && (AskedConn(o) <==> p.Some?)
    && (b.Some? <==> p.Some? && Serve(cfg.PktLimit(), BucketOf(s, ByConnPackets), p.value).ok)
    && (p.Some? ==> (!OverRate(o) <==> b.Some? && Serve(cfg.ByteLimit(), BucketOf(s, ByConnBytes), b.value).ok))
  }

  lemma MovesJoint(cfg: Config, s: IpState, d: Step, pkt: Policy.Packet, now: u64, breaker: bool)
    requires Moves(cfg, s, d, pkt, now, breaker) && cfg.PktOn() && cfg.ByteOn()
    ensures Joint(cfg, s, d.outcome, pkt, now)
  {
  }

  lemma InTurnSnoc(first: seq<bool>, second: seq<bool>, ok: bool)
    ensures InTurn(first + [false], second) == InTurn(first, second) + [false]
    ensures InTurn(first + [true], second + [ok]) == InTurn(first, second) + [ok]
  {
    assert (first + [false])[..|first|] == first && (first + [true])[..|first|] == first;
    assert (second + [ok])[..|second|] == second;
  }

  lemma ActJoint(cfg: Config, s: IpState, e: Event)
    requires cfg.PktOn() && cfg.ByteOn()
    ensures var o := Act(cfg, s, e).outcome;
            var p, b := Asked(cfg, s, e, ByConnPackets), Asked(cfg, s, e, ByConnBytes);
            && (AskedConn(o) <==> p.Some?)
            && (b.Some? <==> p.Some? && Serve(cfg.PktLimit(), BucketOf(s, ByConnPackets), p.value).ok)
            && (p.Some? ==> (!OverRate(o) <==> b.Some? && Serve(cfg.ByteLimit(), BucketOf(s, ByConnBytes), b.value).ok))
  {
    match e
    case Packet(pkt, now, breaker) =>
      PacketMoves(cfg, s, pkt, now, breaker);
      MovesJoint(cfg, s, PacketStep(cfg, s, pkt, now, breaker), pkt, now, breaker);
    case _ =>
  }

  /** Charges, packet decisions and byte decisions of a run, all lazy. */
  lemma {:induction false} ChargesInTurn(cfg: Config, s: IpState, es: seq<Event>)
    requires cfg.PktOn() && cfg.ByteOn() && NoEvictions(es)
    ensures Charges(cfg, s, es) == InTurn(Decided(cfg, s, es, ByConnPackets), Decided(cfg, s, es, ByConnBytes))
  {
    if es != [] {
      var n := |es| - 1;
      var before, e := es[..n], es[n];
      ChargesInTurn(cfg, s, before);
      var u := After(cfg, s, before);
      ActJoint(cfg, u, e);
      DecidedNext(cfg, s, es, ByConnPackets);
      DecidedNext(cfg, s, es, ByConnBytes);
      var ps, bs := Decided(cfg, s, before, ByConnPackets), Decided(cfg, s, before, ByConnBytes);
      var b := Asked(cfg, u, e, ByConnBytes);
      InTurnSnoc(ps, bs, b.Some? && Serve(cfg.ByteLimit(), BucketOf(u, ByConnBytes), b.value).ok);
    }
  }

  /** The decisions of one lazy meter over a run. */
  function Decided(cfg: Config, s: IpState, es: seq<Event>, m: Meter): seq<bool> {
    LazyDecisions(LimitOf(cfg, m), BucketOf(s, m), Meters.Requests(cfg, s, es, m))
  }

  lemma DecidedNext(cfg: Config, s: IpState, es: seq<Event>, m: Meter)
    requires es != [] && Metered(cfg, m) && NoEvictions(es)
    ensures var before := es[..|es| - 1];
            var u := After(cfg, s, before);
            var r := Asked(cfg, u, es[|es| - 1], m);
            if r.Some? then
              Decided(cfg, s, es, m)
              == Decided(cfg, s, before, m) + [Serve(LimitOf(cfg, m), BucketOf(u, m), r.value).ok]
            else Decided(cfg, s, es, m) == Decided(cfg, s, before, m)
  {
    var before := es[..|es| - 1];
    var r := Asked(cfg, After(cfg, s, before), es[|es| - 1], m);
    MeterOfRun(cfg, s, before, m);
    var rs := Meters.Requests(cfg, s, before, m);
    if r.Some? {
      SnocDecides(LimitOf(cfg, m), BucketOf(s, m), rs, r.value);
    } else {
      assert rs + [] == rs;
    }
  }

  /** With both connection limits on: over every run without evictions, a charged packet
      stays within the rate exactly if the packet bucket that ticks with the clock admits
      it and then the byte bucket that ticks with the clock does. */
  lemma ChargesRefineEager(cfg: Config, es: seq<Event>)
    requires Bounded(cfg) && Clocked(es) && NoEvictions(es) && cfg.PktOn() && cfg.ByteOn()
    ensures Charges(cfg, UNKNOWN, es)
            == InTurn(EagerDecisions(cfg.PktLimit(), None, Meters.Requests(cfg, UNKNOWN, es, ByConnPackets)),
                      EagerDecisions(cfg.ByteLimit(), None, Meters.Requests(cfg, UNKNOWN, es, ByConnBytes)))
  {
    ChargesInTurn(cfg, UNKNOWN, es);
    if es != [] {
      RequestsInOrder(cfg, UNKNOWN, es, ByConnPackets);
      RequestsInOrder(cfg, UNKNOWN, es, ByConnBytes);
    }
    PerIpBucketTicksFromFirstRequest(cfg.PktLimit(), Meters.Requests(cfg, UNKNOWN, es, ByConnPackets));
    PerIpBucketTicksFromFirstRequest(cfg.ByteLimit(), Meters.Requests(cfg, UNKNOWN, es, ByConnBytes));
  }
}
