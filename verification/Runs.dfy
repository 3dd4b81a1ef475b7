/** Runs of one source address: every sequence of packets, socket events and evictions
    from the unknown state, the breaker answering as it may. */
module Runs {
  import opened Words
  import opened Maps
  import opened Records
  import opened Buckets
  import opened Policy
  import opened Effects

  datatype Event =
    | Packet(pkt: Policy.Packet, now: u64, breaker: bool)
    | Socket(op: SocketOp, now: u64)
    | Evict(table: Table, now: u64)

  function Act(cfg: Config, s: IpState, e: Event): Step {
    match e
    case Packet(pkt, now, breaker) => PacketStep(cfg, s, pkt, now, breaker)
    case Socket(op, now) => Step(SocketStep(s, op, now), NoPacket)
    case Evict(table, now) => Step(Forget(s, table), NoPacket)
  }

  function After(cfg: Config, s: IpState, es: seq<Event>): IpState {
    if es == [] then s else Act(cfg, After(cfg, s, es[..|es| - 1]), es[|es| - 1]).state
  }

  /** The step event i of a run takes. */
  function StepAt(cfg: Config, s: IpState, es: seq<Event>, i: nat): Step
    requires i < |es|
  {
    Act(cfg, After(cfg, s, es[..i]), es[i])
  }

  function OutcomeAt(cfg: Config, s: IpState, es: seq<Event>, i: nat): Outcome
    requires i < |es|
  {
    StepAt(cfg, s, es, i).outcome
  }

  lemma AfterNext(cfg: Config, s: IpState, es: seq<Event>, i: nat)
    requires i < |es|
    ensures After(cfg, s, es[..i + 1]) == StepAt(cfg, s, es, i).state
  {
    assert es[..i + 1][..i] == es[..i];
  }

  lemma {:induction false} AfterConcat(cfg: Config, s: IpState, a: seq<Event>, b: seq<Event>)
    ensures After(cfg, s, a + b) == After(cfg, After(cfg, s, a), b)
  {
    if b == [] {
      assert a + b == a;
    } else {
      AfterConcat(cfg, s, a, b[..|b| - 1]);
      assert (a + b)[..|a + b| - 1] == a + b[..|b| - 1];
    }
  }

  /** Events in clock order, before the clock's top bit is ever set. */
  ghost predicate Clocked(es: seq<Event>) {
    && (forall i | 0 <= i < |es| :: es[i].now < TWO63)
    && (forall i, j | 0 <= i <= j < |es| :: es[i].now <= es[j].now)
  }

  ghost predicate NoEvictions(es: seq<Event>) {
    forall i | 0 <= i < |es| :: !es[i].Evict?
  }

  // ---- Arithmetic safety ----

  /** Bursts and the ban length leave the top bit of a word free. */
  ghost predicate Bounded(cfg: Config) {
    && cfg.statusBurst < TWO63 && cfg.loginBurst < TWO63 && cfg.globalBurst < TWO63
    && cfg.connPktBurst < TWO63 && cfg.connByteBurst < TWO63 && cfg.connNewBurst < TWO63
    && cfg.healthBlacklist < TWO63
  }

  ghost predicate Past(stamp: Option<u64>, now: u64) {
    stamp.Some? ==> stamp.value <= now
  }

  ghost predicate ConnOk(cfg: Config, c: Option<ConnLimit>, now: u64) {
    c.Some? ==> BucketOk(cfg.PktLimit(), PktBucket(c.value), now) && BucketOk(cfg.ByteLimit(), ByteBucket(c.value), now)
  }

  /** Every stored time is past, every token count within its burst. */
  ghost predicate Sane(cfg: Config, s: IpState, now: u64) {
    && Past(s.established, now) && Past(s.synSeen, now) && Past(s.firstData, now) && Past(s.whitelist, now)
    && OptionOk(cfg.StatusLimit(), s.status, now)
    && OptionOk(cfg.LoginLimit(), s.login, now)
    && OptionOk(cfg.NewLimit(), s.syn, now)
    && ConnOk(cfg, s.conn, now)
    && (s.health.Some? ==> s.health.value.windowStart <= now)
    && (s.history.Some? ==> s.history.value.first <= s.history.value.last <= now)
  }

  lemma ConnTakeSane(cfg: Config, c: Option<ConnLimit>, bytes: u16, now: u64)
    requires Bounded(cfg) && now < TWO63 && ConnOk(cfg, c, now)
    ensures ConnOk(cfg, ConnTake(cfg, c, bytes, now).0, now)
  {
    FreshKeeps(cfg.PktLimit(), Request(now, 1));
    FreshKeeps(cfg.ByteLimit(), Request(now, if cfg.ByteOn() then bytes else 0));
    if c.Some? {
      SpendKeeps(cfg.PktLimit(), PktBucket(c.value), Request(now, 1));
      SpendKeeps(cfg.ByteLimit(), ByteBucket(c.value), Request(now, bytes));
    }
  }

  lemma SaneLater(cfg: Config, s: IpState, t: u64, now: u64)
    requires Sane(cfg, s, t) && t <= now < TWO63
    ensures Sane(cfg, s, now)
  {
  }

  lemma MovesSane(cfg: Config, s: IpState, d: Step, pkt: Policy.Packet, now: u64, breaker: bool)
    requires Bounded(cfg) && now < TWO63 && Sane(cfg, s, now)
    requires Moves(cfg, s, d, pkt, now, breaker)
    ensures Sane(cfg, d.state, now)
  {
    ConnTakeSane(cfg, s.conn, pkt.ipTot, now);
    ServeKeeps(cfg.StatusLimit(), s.status, Request(now, 1));
    ServeKeeps(cfg.LoginLimit(), s.login, Request(now, 1));
    ServeKeeps(cfg.NewLimit(), s.syn, Request(now, 1));
  }

  lemma PacketSane(cfg: Config, s: IpState, pkt: Policy.Packet, now: u64, breaker: bool)
    requires Bounded(cfg) && now < TWO63 && Sane(cfg, s, now)
    ensures Sane(cfg, PacketStep(cfg, s, pkt, now, breaker).state, now)
  {
    PacketMoves(cfg, s, pkt, now, breaker);
    MovesSane(cfg, s, PacketStep(cfg, s, pkt, now, breaker), pkt, now, breaker);
  }

  lemma SocketSane(cfg: Config, s: IpState, op: SocketOp, now: u64)
    requires Sane(cfg, s, now)
    ensures Sane(cfg, SocketStep(s, op, now), now)
  {
    SocketStepMoves(s, op, now);
    SocketMovesSane(cfg, s, SocketStep(s, op, now), op, now);
  }

  lemma SocketMovesSane(cfg: Config, s: IpState, d: IpState, op: SocketOp, now: u64)
    requires Sane(cfg, s, now) && SocketMoves(s, d, op, now)
    ensures Sane(cfg, d, now)
  {
  }

  lemma ForgetSane(cfg: Config, s: IpState, table: Table, now: u64)
    requires Sane(cfg, s, now)
    ensures Sane(cfg, Forget(s, table), now)
  {
  }

  lemma ActSane(cfg: Config, s: IpState, t: u64, e: Event)
    requires Bounded(cfg) && Sane(cfg, s, t) && t <= e.now < TWO63
    ensures Sane(cfg, Act(cfg, s, e).state, e.now)
  {
    SaneLater(cfg, s, t, e.now);
    match e {
      case Packet(pkt, now, breaker) => PacketSane(cfg, s, pkt, now, breaker);
      case Socket(op, now) => SocketSane(cfg, s, op, now);
      case Evict(table, now) => ForgetSane(cfg, s, table, now);
    }
  }

  lemma {:induction false} AfterSane(cfg: Config, s: IpState, t: u64, es: seq<Event>)
    requires Bounded(cfg) && Clocked(es) && Sane(cfg, s, t) && (es != [] ==> t <= es[0].now)
    ensures Sane(cfg, After(cfg, s, es), if es == [] then t else es[|es| - 1].now)
  {
    if es != [] {
      var n := |es| - 1;
      AfterSane(cfg, s, t, es[..n]);
      ActSane(cfg, After(cfg, s, es[..n]), if n == 0 then t else es[n - 1].now, es[n]);
    }
  }

  /** No word operation that reads a stored time or token count can wrap. */
  ghost predicate Exact(cfg: Config, s: IpState, now: u64) {
    && (s.whitelist.Some? ==> Sub64(now, s.whitelist.value) == now - s.whitelist.value)
    && (s.health.Some? ==> Sub64(now, s.health.value.windowStart) == now - s.health.value.windowStart)
    && Add64(now, cfg.healthBlacklist) == now + cfg.healthBlacklist
    && (s.status.Some? ==> RefillExact(cfg.StatusLimit(), s.status.value, now))
    && (s.login.Some? ==> RefillExact(cfg.LoginLimit(), s.login.value, now))
    && (s.syn.Some? ==> RefillExact(cfg.NewLimit(), s.syn.value, now))
    && (s.conn.Some? ==> RefillExact(cfg.PktLimit(), PktBucket(s.conn.value), now)
                         && RefillExact(cfg.ByteLimit(), ByteBucket(s.conn.value), now))
  }

  ghost predicate RefillExact(l: Limit, b: Bucket, now: u64) {
    var k := Refill(l, b, now);
    && Sub64(now, b.last) == now - b.last
    && Add64(b.tokens, k) == b.tokens + k
    && Mul64(k, l.period) == k * l.period
    && Add64(b.last, k * l.period) == b.last + k * l.period <= now
  }

  lemma BucketIsExact(l: Limit, b: Bucket, now: u64)
    requires BucketOk(l, b, now)
    ensures RefillExact(l, b, now)
  {
    RefillIsExact(l, b, now);
  }

  /** In every reachable state the next step computes with mathematical integers. */
  lemma ArithmeticSafety(cfg: Config, es: seq<Event>, now: u64)
    requires Bounded(cfg) && Clocked(es) && now < TWO63 && (es != [] ==> es[|es| - 1].now <= now)
    ensures var s := After(cfg, UNKNOWN, es);
            Sane(cfg, s, now) && Exact(cfg, s, now)
  {
    AfterSane(cfg, UNKNOWN, 0, es);
    var s := After(cfg, UNKNOWN, es);
    SaneLater(cfg, s, if es == [] then 0 else es[|es| - 1].now, now);
    if s.status.Some? { BucketIsExact(cfg.StatusLimit(), s.status.value, now); }
    if s.login.Some? { BucketIsExact(cfg.LoginLimit(), s.login.value, now); }
    if s.syn.Some? { BucketIsExact(cfg.NewLimit(), s.syn.value, now); }
    if s.conn.Some? {
      BucketIsExact(cfg.PktLimit(), PktBucket(s.conn.value), now);
      BucketIsExact(cfg.ByteLimit(), ByteBucket(s.conn.value), now);
    }
  }
}
