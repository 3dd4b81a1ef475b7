/** Composite throughput: what an established source can get through in payload-bearing
    packets, whatever mix of trusted, untrusted and handshake paths they take. */
module Throughput {
  import opened Words
  import opened Maps
  import opened Buckets
  import opened BucketBounds
  import opened Policy
  import opened Effects
  import opened Runs
  import opened Meters

  /** A packet for the server with intact headers and payload, from an established source. */
  predicate CarriesPayload(cfg: Config, s: IpState, e: Event) {
    e.Packet? && Targets(cfg, e.pkt) && e.pkt.HeadersIntact() && e.pkt.HasPayload() && s.established.Some?
  }

  /** How many such packets of a run are passed. */
  function Passed(cfg: Config, s: IpState, es: seq<Event>): nat {
    if es == [] then 0
    else
      var before, e := es[..|es| - 1], es[|es| - 1];
      var u := After(cfg, s, before);
      Passed(cfg, s, before) + if CarriesPayload(cfg, u, e) && !Act(cfg, u, e).outcome.Drops() then 1 else 0
  }

  predicate PaidSomewhere(o: Outcome) {
    PaidAt(ByConnPackets, o) || PaidAt(ByStatus, o) || PaidAt(ByLogin, o)
  }

  lemma MovesPaid(cfg: Config, s: IpState, d: Step, pkt: Policy.Packet, now: u64, breaker: bool)
    requires Moves(cfg, s, d, pkt, now, breaker)
    requires Targets(cfg, pkt) && pkt.HeadersIntact() && pkt.HasPayload() && s.established.Some?
    ensures d.outcome.Drops() || PaidSomewhere(d.outcome)
  {
  }

  lemma ActPaid(cfg: Config, s: IpState, e: Event)
    requires CarriesPayload(cfg, s, e)
    ensures Act(cfg, s, e).outcome.Drops() || PaidSomewhere(Act(cfg, s, e).outcome)
  {
    PacketMoves(cfg, s, e.pkt, e.now, e.breaker);
    MovesPaid(cfg, s, PacketStep(cfg, s, e.pkt, e.now, e.breaker), e.pkt, e.now, e.breaker);
  }

  lemma {:induction false} PassedIsTallied(cfg: Config, s: IpState, es: seq<Event>)
    ensures Passed(cfg, s, es)
            <= Tally(cfg, s, es, o => PaidAt(ByConnPackets, o)) + Tally(cfg, s, es, o => PaidAt(ByStatus, o))
               + Tally(cfg, s, es, o => PaidAt(ByLogin, o))
  {
    if es != [] {
      var n := |es| - 1;
      PassedIsTallied(cfg, s, es[..n]);
      var u := After(cfg, s, es[..n]);
      if CarriesPayload(cfg, u, es[n]) {
        ActPaid(cfg, u, es[n]);
      }
    }
  }

  /** In any window of any run without evictions, an established source gets at most the
      packet-cap, status and login bounds through, added up. */
  lemma ThroughputBound(cfg: Config, pre: seq<Event>, win: seq<Event>)
    requires Bounded(cfg) && cfg.PktOn() && Clocked(pre + win) && NoEvictions(win) && win != []
    ensures win[0].now <= win[|win| - 1].now
    ensures var s, length := After(cfg, UNKNOWN, pre), win[|win| - 1].now - win[0].now;
            Passed(cfg, s, win)
            <= UnitBound(cfg.PktLimit(), BucketOf(s, ByConnPackets), length)
               + UnitBound(cfg.StatusLimit(), s.status, length) + UnitBound(cfg.LoginLimit(), s.login, length)
  {
    var s := After(cfg, UNKNOWN, pre);
    PassedIsTallied(cfg, s, win);
    TallyIsPaid(cfg, s, win, ByConnPackets);
    TallyIsPaid(cfg, s, win, ByStatus);
    TallyIsPaid(cfg, s, win, ByLogin);
    UnitWindow(cfg, pre, win, ByConnPackets);
    UnitWindow(cfg, pre, win, ByStatus);
    UnitWindow(cfg, pre, win, ByLogin);
  }

  /** How often a run promotes its source to the whitelist. */
  function Promotions(cfg: Config, s: IpState, es: seq<Event>): nat {
    Tally(cfg, s, es, o => PaidAt(ByLogin, o))
  }

  /** Promotions to the whitelist obey the login bucket alone. */
  lemma PromotionBound(cfg: Config, pre: seq<Event>, win: seq<Event>)
    requires Bounded(cfg) && Clocked(pre + win) && NoEvictions(win) && win != []
    ensures win[0].now <= win[|win| - 1].now
    ensures var s := After(cfg, UNKNOWN, pre);
            Promotions(cfg, s, win) <= UnitBound(cfg.LoginLimit(), s.login, win[|win| - 1].now - win[0].now)
  {
    TallyIsPaid(cfg, After(cfg, UNKNOWN, pre), win, ByLogin);
    UnitWindow(cfg, pre, win, ByLogin);
  }

  // ---- New connections ----

  /** A SYN that got past every gate. */
  predicate AdmitsSyn(cfg: Config, s: IpState, e: Event) {
    e.Packet? && e.pkt.flags.syn && PastGates(Act(cfg, s, e).outcome)
  }

  function SynsAdmitted(cfg: Config, s: IpState, es: seq<Event>): nat {
    if es == [] then 0
    else
      var before, e := es[..|es| - 1], es[|es| - 1];
      SynsAdmitted(cfg, s, before) + if AdmitsSyn(cfg, After(cfg, s, before), e) then 1 else 0
  }

  lemma MovesPaysSyn(cfg: Config, s: IpState, d: Step, pkt: Policy.Packet, now: u64, breaker: bool)
    requires Moves(cfg, s, d, pkt, now, breaker) && cfg.NewOn() && pkt.flags.syn && PastGates(d.outcome)
    ensures AskedBy(cfg, s, d.outcome, pkt, now, BySyn) == Some(Request(now, 1))
    ensures Serve(cfg.NewLimit(), s.syn, Request(now, 1)).ok
  {
  }

  lemma ActPaysSyn(cfg: Config, s: IpState, e: Event)
    requires cfg.NewOn() && AdmitsSyn(cfg, s, e)
    ensures Asked(cfg, s, e, BySyn) == Some(Request(e.now, 1)) && Serve(cfg.NewLimit(), s.syn, Request(e.now, 1)).ok
  {
    PacketMoves(cfg, s, e.pkt, e.now, e.breaker);
    MovesPaysSyn(cfg, s, PacketStep(cfg, s, e.pkt, e.now, e.breaker), e.pkt, e.now, e.breaker);
  }

  lemma {:induction false} SynsArePaid(cfg: Config, s: IpState, es: seq<Event>)
    requires cfg.NewOn() && NoEvictions(es)
    ensures SynsAdmitted(cfg, s, es) <= SpentIn(cfg, s, es, BySyn)
  {
    if es != [] {
      var n := |es| - 1;
      var before := es[..n];
      SynsArePaid(cfg, s, before);
      MeterOfRun(cfg, s, before, BySyn);
      var u := After(cfg, s, before);
      var rs, r := Meters.Requests(cfg, s, before, BySyn), Asked(cfg, u, es[n], BySyn);
      if AdmitsSyn(cfg, u, es[n]) {
        ActPaysSyn(cfg, u, es[n]);
      }
      if r.Some? {
        assert (rs + [r.value])[..|rs|] == rs;
      } else {
        assert rs + [] == rs;
      }
    }
  }

  /** In any window of any run without evictions, a source gets at most the new-connection
      burst of untrusted SYNs through, plus one for every period begun. */
  lemma SynBound(cfg: Config, pre: seq<Event>, win: seq<Event>)
    requires Bounded(cfg) && cfg.NewOn() && Clocked(pre + win) && NoEvictions(win) && win != []
    ensures win[0].now <= win[|win| - 1].now
    ensures var s := After(cfg, UNKNOWN, pre);
            SynsAdmitted(cfg, s, win) <= UnitBound(cfg.NewLimit(), s.syn, win[|win| - 1].now - win[0].now)
  {
    SynsArePaid(cfg, After(cfg, UNKNOWN, pre), win);
    UnitWindow(cfg, pre, win, BySyn);
  }

  // ---- Bytes ----

  /** IP bytes of the packets a run passes and charges to the connection limits. */
  function BytesPassed(cfg: Config, s: IpState, es: seq<Event>): nat {
    if es == [] then 0
    else
      var before, e := es[..|es| - 1], es[|es| - 1];
      BytesPassed(cfg, s, before) + BytesAt(cfg, After(cfg, s, before), e)
  }

  function BytesAt(cfg: Config, s: IpState, e: Event): nat {
    if e.Packet? && PaidConn(Act(cfg, s, e).outcome) then e.pkt.ipTot else 0
  }

  lemma MovesPaysBytes(cfg: Config, s: IpState, d: Step, pkt: Policy.Packet, now: u64, breaker: bool)
    requires Moves(cfg, s, d, pkt, now, breaker) && cfg.ByteOn() && PaidConn(d.outcome)
    ensures AskedBy(cfg, s, d.outcome, pkt, now, ByConnBytes) == Some(Request(now, pkt.ipTot))
    ensures Serve(cfg.ByteLimit(), BucketOf(s, ByConnBytes), Request(now, pkt.ipTot)).ok
  {
  }

  /** What a step spends at the byte bucket covers the bytes it passes. */
  lemma ActPaysBytes(cfg: Config, s: IpState, e: Event)
    requires cfg.ByteOn()
    ensures var r := Asked(cfg, s, e, ByConnBytes);
            BytesAt(cfg, s, e)
            <= if r.Some? && Serve(cfg.ByteLimit(), BucketOf(s, ByConnBytes), r.value).ok then r.value.cost else 0
  {
    if BytesAt(cfg, s, e) > 0 {
      PacketMoves(cfg, s, e.pkt, e.now, e.breaker);
      MovesPaysBytes(cfg, s, PacketStep(cfg, s, e.pkt, e.now, e.breaker), e.pkt, e.now, e.breaker);
    }
  }

  lemma {:induction false} BytesArePaid(cfg: Config, s: IpState, es: seq<Event>)
    requires cfg.ByteOn() && NoEvictions(es)
    ensures BytesPassed(cfg, s, es) <= SpentIn(cfg, s, es, ByConnBytes)
  {
    if es != [] {
      var n := |es| - 1;
      var before := es[..n];
      BytesArePaid(cfg, s, before);
      MeterOfRun(cfg, s, before, ByConnBytes);
      var u := After(cfg, s, before);
      ActPaysBytes(cfg, u, es[n]);
      var rs, r := Meters.Requests(cfg, s, before, ByConnBytes), Asked(cfg, u, es[n], ByConnBytes);
      if r.Some? {
        assert (rs + [r.value])[..|rs|] == rs;
      } else {
        assert rs + [] == rs;
      }
    }
  }

  /** The largest IP packet. */
  const MTU_LIMIT := 0xFFFF

  lemma {:induction false} RequestsFit(cfg: Config, s: IpState, es: seq<Event>)
    ensures forall i | 0 <= i < |Meters.Requests(cfg, s, es, ByConnBytes)| ::
              Meters.Requests(cfg, s, es, ByConnBytes)[i].cost <= MTU_LIMIT
  {
    if es != [] { RequestsFit(cfg, s, es[..|es| - 1]); }
  }

  /** What the byte bucket can hand out at once: its burst, or the whole packet that creates
      the record. */
  function ByteCapacity(cfg: Config, s: IpState): nat {
    if s.conn.Some? then cfg.connByteBurst else Max(cfg.connByteBurst, MTU_LIMIT)
  }

  lemma RequestsBound(l: Limit, b: Option<Bucket>, rs: seq<Request>, first: u64, last: u64)
    requires InOrder(rs, ByConnBytes, first, last) && l.burst < TWO63 && first <= last && OptionOk(l, b, first)
    requires rs != [] ==> rs[0].cost <= MTU_LIMIT
    ensures Spent(l, b, rs)
            <= (if b.Some? then l.burst else Max(l.burst, MTU_LIMIT)) + TicksAtMost(l, last - first)
  {
    if rs != [] {
      OptionLater(l, b, first, rs[0].at);
      WindowBound(l, b, rs);
      TicksAtMostMono(l, rs[|rs| - 1].at - rs[0].at, last - first);
    }
  }

  lemma ByteWindow(cfg: Config, s: IpState, t: u64, win: seq<Event>)
    requires Bounded(cfg) && Sane(cfg, s, t) && Clocked(win) && win != [] && t <= win[0].now
    ensures win[0].now <= win[|win| - 1].now
    ensures SpentIn(cfg, s, win, ByConnBytes)
            <= ByteCapacity(cfg, s) + TicksAtMost(cfg.ByteLimit(), win[|win| - 1].now - win[0].now)
  {
    RequestsInOrder(cfg, s, win, ByConnBytes);
    RequestsFit(cfg, s, win);
    MeterIsOk(cfg, s, t, ByConnBytes);
    OptionLater(cfg.ByteLimit(), BucketOf(s, ByConnBytes), t, win[0].now);
    RequestsBound(cfg.ByteLimit(), BucketOf(s, ByConnBytes), Meters.Requests(cfg, s, win, ByConnBytes),
                  win[0].now, win[|win| - 1].now);
  }

  /** In any window of any run without evictions, the bytes passed to an established or
      trusted source are at most the byte burst plus one for every period begun. Only a
      window that creates the source's record can pass one packet larger than the burst. */
  lemma ByteBound(cfg: Config, pre: seq<Event>, win: seq<Event>)
    requires Bounded(cfg) && cfg.ByteOn() && Clocked(pre + win) && NoEvictions(win) && win != []
    ensures win[0].now <= win[|win| - 1].now
    ensures BytesPassed(cfg, After(cfg, UNKNOWN, pre), win)
            <= ByteCapacity(cfg, After(cfg, UNKNOWN, pre))
               + TicksAtMost(cfg.ByteLimit(), win[|win| - 1].now - win[0].now)
  {
    var s := After(cfg, UNKNOWN, pre);
    WindowIsClocked(pre, win);
    AfterSane(cfg, UNKNOWN, 0, pre);
    BytesArePaid(cfg, s, win);
    ByteWindow(cfg, s, if pre == [] then 0 else pre[|pre| - 1].now, win);
  }
}
