/** The buckets of one source over a run: each is the lazy bucket of module Buckets, fed
    with the requests the run makes of it. Admission bounds over every window follow. */
module Meters {
  import opened Words
  import opened Maps
  import opened Buckets
  import opened BucketBounds
  import opened Division
  import opened Policy
  import opened Effects
  import opened Runs

  datatype Meter = ByStatus | ByLogin | BySyn | ByConnPackets | ByConnBytes

  function LimitOf(cfg: Config, m: Meter): Limit {
    match m
    case ByStatus => Limit(cfg.statusPeriod, cfg.statusBurst)
    case ByLogin => Limit(cfg.loginPeriod, cfg.loginBurst)
    case BySyn => Limit(cfg.connNewPeriod, cfg.connNewBurst)
    case ByConnPackets => Limit(cfg.connPktPeriod, cfg.connPktBurst)
    case ByConnBytes => Limit(cfg.connBytePeriod, cfg.connByteBurst)
  }

  function BucketOf(s: IpState, m: Meter): Option<Bucket> {
    match m
    case ByStatus => s.status
    case ByLogin => s.login
    case BySyn => s.syn
    case ByConnPackets => if s.conn.Some? then Some(PktBucket(s.conn.value)) else None
    case ByConnBytes => if s.conn.Some? then Some(ByteBucket(s.conn.value)) else None
  }

  /** The connection limits are separate switches; a bucket that is off is never asked. */
  predicate Metered(cfg: Config, m: Meter) {
    match m
    case ByConnPackets => cfg.PktOn()
    case ByConnBytes => cfg.ByteOn()
    case _ => true
  }

  /** The packet bucket lets the byte bucket be asked. */
  predicate PaysPacket(cfg: Config, s: IpState, now: u64) {
    s.conn.None? || !cfg.PktOn() || Spend(cfg.PktLimit(), PktBucket(s.conn.value), Request(now, 1)).ok
  }

  /** The request a packet with outcome o makes of a meter. */
  function AskedBy(cfg: Config, s: IpState, o: Outcome, pkt: Policy.Packet, now: u64, m: Meter): Option<Request> {
    match m
    case ByStatus => if o.StatusPass? || o.StatusOverRate? then Some(Request(now, 1)) else None
    case ByLogin => if o.LoginPromoted? || o.LoginOverRate? then Some(Request(now, 1)) else None
    case BySyn => if AskedSyn(cfg, o, pkt.flags.syn) then Some(Request(now, 1)) else None
    case ByConnPackets => if AskedConn(o) then Some(Request(now, 1)) else None
    case ByConnBytes => if AskedConn(o) && PaysPacket(cfg, s, now) then Some(Request(now, pkt.ipTot)) else None
  }

  function Asked(cfg: Config, s: IpState, e: Event, m: Meter): Option<Request> {
    match e
    case Packet(pkt, now, breaker) => AskedBy(cfg, s, Act(cfg, s, e).outcome, pkt, now, m)
    case _ => None
  }

  /** The requests a run makes of a meter, in order. */
  function Requests(cfg: Config, s: IpState, es: seq<Event>, m: Meter): seq<Request> {
    if es == [] then []
    else
      var before, e := es[..|es| - 1], es[|es| - 1];
      var r := Asked(cfg, After(cfg, s, before), e, m);
      Requests(cfg, s, before, m) + if r.Some? then [r.value] else []
  }

  // ---- The bucket of a run is the lazy bucket of its requests ----

  ghost predicate MeterStep(cfg: Config, s: IpState, after: IpState, r: Option<Request>, m: Meter) {
    BucketOf(after, m)
    == if r.Some? then Some(Serve(LimitOf(cfg, m), BucketOf(s, m), r.value).bucket) else BucketOf(s, m)
  }

  lemma MovesMeter(cfg: Config, s: IpState, d: Step, pkt: Policy.Packet, now: u64, breaker: bool, m: Meter)
    requires Moves(cfg, s, d, pkt, now, breaker) && Metered(cfg, m)
    ensures MeterStep(cfg, s, d.state, AskedBy(cfg, s, d.outcome, pkt, now, m), m)
  {
  }

  lemma SocketMeter(cfg: Config, s: IpState, d: IpState, op: SocketOp, now: u64, m: Meter)
    requires SocketMoves(s, d, op, now)
    ensures MeterStep(cfg, s, d, None, m)
  {
  }

  lemma ActMeter(cfg: Config, s: IpState, e: Event, m: Meter)
    requires Metered(cfg, m) && !e.Evict?
    ensures MeterStep(cfg, s, Act(cfg, s, e).state, Asked(cfg, s, e, m), m)
  {
    match e {
      case Packet(pkt, now, breaker) =>
        PacketMoves(cfg, s, pkt, now, breaker);
        MovesMeter(cfg, s, PacketStep(cfg, s, pkt, now, breaker), pkt, now, breaker, m);
      case Socket(op, now) =>
        SocketStepMoves(s, op, now);
        SocketMeter(cfg, s, SocketStep(s, op, now), op, now, m);
    }
  }

  lemma {:induction false} MeterOfRun(cfg: Config, s: IpState, es: seq<Event>, m: Meter)
    requires Metered(cfg, m) && NoEvictions(es)
    ensures BucketOf(After(cfg, s, es), m) == LazyAfter(LimitOf(cfg, m), BucketOf(s, m), Requests(cfg, s, es, m))
  {
    if es != [] {
      var n := |es| - 1;
      var before := es[..n];
      MeterOfRun(cfg, s, before, m);
      var u := After(cfg, s, before);
      ActMeter(cfg, u, es[n], m);
      var rs, r := Requests(cfg, s, before, m), Asked(cfg, u, es[n], m);
      if r.Some? {
        assert (rs + [r.value])[..|rs|] == rs;
      } else {
        assert rs + [] == rs;
      }
    }
  }

  lemma AskedNow(cfg: Config, s: IpState, e: Event, m: Meter)
    requires Asked(cfg, s, e, m).Some?
    ensures var r := Asked(cfg, s, e, m).value;
            r.at == e.now && (m != ByConnBytes ==> r.cost == 1)
  {
  }

  /** Requests in order, of unit cost where the meter is, none before `first` nor after `last`. */
  ghost predicate InOrder(rs: seq<Request>, m: Meter, first: int, last: int) {
    && Ordered(rs)
    && (m != ByConnBytes ==> forall i | 0 <= i < |rs| :: rs[i].cost == 1)
    && (rs != [] ==> first <= rs[0].at && rs[|rs| - 1].at <= last)
  }

  lemma InOrderSnoc(rs: seq<Request>, r: Option<Request>, m: Meter, first: int, t: int, last: int)
    requires InOrder(rs, m, first, t) && t <= last && first <= last < TWO63
    requires r.Some? ==> r.value.at == last && (m != ByConnBytes ==> r.value.cost == 1)
    ensures InOrder(rs + if r.Some? then [r.value] else [], m, first, last)
  {
  }

  lemma {:induction false} RequestsInOrder(cfg: Config, s: IpState, es: seq<Event>, m: Meter)
    requires Clocked(es) && es != []
    ensures InOrder(Requests(cfg, s, es, m), m, es[0].now, es[|es| - 1].now)
  {
    var n := |es| - 1;
    var before := es[..n];
    var u := After(cfg, s, before);
    var r := Asked(cfg, u, es[n], m);
    if r.Some? {
      AskedNow(cfg, u, es[n], m);
    }
    if n == 0 {
      InOrderSnoc([], r, m, es[0].now, es[0].now, es[0].now);
    } else {
      RequestsInOrder(cfg, s, before, m);
      InOrderSnoc(Requests(cfg, s, before, m), r, m, es[0].now, es[n - 1].now, es[n].now);
    }
  }

  /** Cost a window of a run spends at a meter. */
  function SpentIn(cfg: Config, s: IpState, es: seq<Event>, m: Meter): nat {
    Spent(LimitOf(cfg, m), BucketOf(s, m), Requests(cfg, s, es, m))
  }

  /** What a unit-cost meter admits at most in a window of the given length: its burst and
      the periods begun. Only a window that creates the bucket admits one on a zero burst. */
  function UnitBound(l: Limit, b: Option<Bucket>, length: nat): nat {
    (if b.Some? then l.burst else Max(l.burst, 1)) + TicksAtMost(l, length)
  }

  lemma TicksAtMostMono(l: Limit, a: nat, b: nat)
    requires a <= b
    ensures TicksAtMost(l, a) <= TicksAtMost(l, b)
  {
    if l.period > 0 { DivMono(a + l.period - 1, b + l.period - 1, l.period); }
  }

  lemma MeterIsOk(cfg: Config, s: IpState, t: u64, m: Meter)
    requires Bounded(cfg) && Sane(cfg, s, t)
    ensures OptionOk(LimitOf(cfg, m), BucketOf(s, m), t) && LimitOf(cfg, m).burst < TWO63
  {
  }

  lemma OptionLater(l: Limit, b: Option<Bucket>, t: u64, now: u64)
    requires OptionOk(l, b, t) && t <= now < TWO63
    ensures OptionOk(l, b, now)
  {
  }

  lemma UnitRequestsBound(l: Limit, b: Option<Bucket>, rs: seq<Request>, m: Meter, first: u64, last: u64)
    requires InOrder(rs, m, first, last) && m != ByConnBytes && l.burst < TWO63 && first <= last
    requires OptionOk(l, b, first)
    ensures Spent(l, b, rs) <= UnitBound(l, b, last - first)
  {
    if rs != [] {
      OptionLater(l, b, first, rs[0].at);
      WindowBound(l, b, rs);
      TicksAtMostMono(l, rs[|rs| - 1].at - rs[0].at, last - first);
    }
  }

  lemma WindowSpends(cfg: Config, s: IpState, t: u64, win: seq<Event>, m: Meter)
    requires Bounded(cfg) && Sane(cfg, s, t) && Clocked(win) && win != [] && t <= win[0].now && m != ByConnBytes
    ensures SpentIn(cfg, s, win, m)
            <= UnitBound(LimitOf(cfg, m), BucketOf(s, m), win[|win| - 1].now - win[0].now)
  {
    RequestsInOrder(cfg, s, win, m);
    MeterIsOk(cfg, s, t, m);
    OptionLater(LimitOf(cfg, m), BucketOf(s, m), t, win[0].now);
    UnitRequestsBound(LimitOf(cfg, m), BucketOf(s, m), Requests(cfg, s, win, m), m, win[0].now, win[|win| - 1].now);
  }

  /** Any window of any run: a unit-cost meter admits at most its burst plus one for every
      period begun, and one on a zero burst only where it creates its bucket. */
  lemma UnitWindow(cfg: Config, pre: seq<Event>, win: seq<Event>, m: Meter)
    requires Bounded(cfg) && Clocked(pre + win) && m != ByConnBytes && win != []
    ensures win[0].now <= win[|win| - 1].now
    ensures var s := After(cfg, UNKNOWN, pre);
            SpentIn(cfg, s, win, m)
            <= UnitBound(LimitOf(cfg, m), BucketOf(s, m), win[|win| - 1].now - win[0].now)
  {
    WindowIsClocked(pre, win);
    AfterSane(cfg, UNKNOWN, 0, pre);
    WindowSpends(cfg, After(cfg, UNKNOWN, pre), if pre == [] then 0 else pre[|pre| - 1].now, win, m);
  }

  lemma WindowIsClocked(pre: seq<Event>, win: seq<Event>)
    requires Clocked(pre + win)
    ensures Clocked(pre) && Clocked(win)
    ensures pre != [] && win != [] ==> pre[|pre| - 1].now <= win[0].now
  {
    var es := pre + win;
    assert forall i | 0 <= i < |pre| :: pre[i] == es[i];
    assert forall i | 0 <= i < |win| :: win[i] == es[|pre| + i];
  }

  // ---- Counting outcomes ----

  function Tally(cfg: Config, s: IpState, es: seq<Event>, p: Outcome -> bool): nat {
    if es == [] then 0
    else
      var before, e := es[..|es| - 1], es[|es| - 1];
      Tally(cfg, s, before, p) + if p(Act(cfg, After(cfg, s, before), e).outcome) then 1 else 0
  }

  predicate IsStatusPass(o: Outcome) { o.StatusPass? }
  predicate IsPromotion(o: Outcome) { o.LoginPromoted? }
  predicate PaidConn(o: Outcome) { o.TrustedPass? || o.PlayPass? }

  /** One pass is paid for by one token of its meter. */
  predicate PaidAt(m: Meter, o: Outcome) {
    match m
    case ByStatus => IsStatusPass(o)
    case ByLogin => IsPromotion(o)
    case ByConnPackets => PaidConn(o)
    case _ => false
  }

  lemma MovesPays(cfg: Config, s: IpState, d: Step, pkt: Policy.Packet, now: u64, breaker: bool, m: Meter)
    requires Moves(cfg, s, d, pkt, now, breaker) && Metered(cfg, m) && PaidAt(m, d.outcome)
    ensures AskedBy(cfg, s, d.outcome, pkt, now, m) == Some(Request(now, 1))
    ensures Serve(LimitOf(cfg, m), BucketOf(s, m), Request(now, 1)).ok
  {
  }

  lemma ActPays(cfg: Config, s: IpState, e: Event, m: Meter)
    requires Metered(cfg, m) && PaidAt(m, Act(cfg, s, e).outcome)
    ensures Asked(cfg, s, e, m) == Some(Request(e.now, 1))
    ensures Serve(LimitOf(cfg, m), BucketOf(s, m), Request(e.now, 1)).ok
  {
    match e {
      case Packet(pkt, now, breaker) =>
        PacketMoves(cfg, s, pkt, now, breaker);
        MovesPays(cfg, s, PacketStep(cfg, s, pkt, now, breaker), pkt, now, breaker, m);
      case _ =>
    }
  }

  lemma {:induction false} TallyIsPaid(cfg: Config, s: IpState, es: seq<Event>, m: Meter)
    requires Metered(cfg, m) && NoEvictions(es)
    ensures Tally(cfg, s, es, o => PaidAt(m, o)) <= SpentIn(cfg, s, es, m)
  {
    if es != [] {
      var n := |es| - 1;
      var before := es[..n];
      TallyIsPaid(cfg, s, before, m);
      MeterOfRun(cfg, s, before, m);
      var u := After(cfg, s, before);
      var rs, r := Requests(cfg, s, before, m), Asked(cfg, u, es[n], m);
      if PaidAt(m, Act(cfg, u, es[n]).outcome) {
        ActPays(cfg, u, es[n], m);
      }
      if r.Some? {
        assert (rs + [r.value])[..|rs|] == rs;
      } else {
        assert rs + [] == rs;
      }
    }
  }
}
