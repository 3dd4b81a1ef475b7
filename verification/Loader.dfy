/** How the loader turns the rates an operator writes down into bucket periods, and what
    those rates come out as once the datapath runs with them. */
module Loader {
  import opened Words
  import opened Division
  import opened Buckets
  import opened BucketBounds
  import opened Policy
  import World
  import Runs
  import Meters
  import Throughput
  import Breaker
  import Bans
  import Trust
  import Lifecycle

  const SECOND: int := 1_000_000_000
  const MINUTE: int := 60 * SECOND

  /** A Go duration: signed nanoseconds. */
  type i64 = x: int | -TWO63 <= x < TWO63

  datatype Options = Options(
    port: u16, ttl: i64,
    statusPerMin: u64, statusBurst: u64,
    loginPerMin: u64, loginBurst: u64,
    tcpGlobalPerSec: u64, tcpGlobalBurst: u64, tcpMaxOpenPerIp: u64,
    connPps: u64, connBurst: u64, connBps: u64, connByteBurst: u64,
    connNewPerSec: u64, connNewBurst: u64,
    healthWindow: i64, healthThreshold: u32, healthBlacklist: i64)

  /** The conversion uint64(d). */
  function Cast(d: i64): u64 {
    if d < 0 then d + TWO64 else d
  }

  /** Nanoseconds per event at `rate` events per `scale` nanoseconds; zero for no rate. */
  function Period(scale: nat, rate: u64): (p: nat)
    ensures p <= scale
  {
    if rate > 0 then
      QuotientShrinks(scale, rate);
      scale / rate
    else 0
  }

  function Cpus(possible: int): (n: nat)
    ensures n >= 1
  {
    if possible <= 0 then 1 else possible
  }

  /** The share of one CPU: at least one of anything that is not zero. */
  function Share(amount: u64, n: nat): (q: u64)
    requires n >= 1
    ensures amount == 0 <==> q == 0
  {
    QuotientShrinks(amount, n);
    if amount > 0 && amount / n == 0 then 1
    else
      DivUnique(0, n, 0, 0);
      amount / n
  }

  /** The configuration a set of options asks for on a machine with n CPUs. */
  function Wanted(o: Options, n: nat): Config
    requires n >= 1
  {
    Config(
      o.port, Cast(o.ttl),
      Period(MINUTE, o.statusPerMin), o.statusBurst,
      Period(MINUTE, o.loginPerMin), o.loginBurst,
      Period(SECOND, Share(o.tcpGlobalPerSec, n)), Share(o.tcpGlobalBurst, n),
      o.tcpMaxOpenPerIp,
      Cast(o.healthWindow), o.healthThreshold, Cast(o.healthBlacklist),
      Period(SECOND, o.connPps), o.connBurst,
      Period(SECOND, o.connBps), o.connByteBurst,
      Period(SECOND, o.connNewPerSec), o.connNewBurst)
  }

  /** The breaker's rate and burst, split over the CPUs. */
  method SplitGlobal(perSec: u64, burst: u64, possibleCpus: int) returns (period: u64, burstPerCpu: u64)
    ensures period == Period(SECOND, Share(perSec, Cpus(possibleCpus)))
    ensures burstPerCpu == Share(burst, Cpus(possibleCpus))
  {
    var ncpu := possibleCpus;
    if ncpu <= 0 {
      ncpu := 1;
    }
    period := 0;
    if perSec > 0 {
      QuotientShrinks(perSec, ncpu);
      var perCpuRate := perSec / ncpu;
      if perCpuRate == 0 {
        perCpuRate := 1;
      }
      QuotientShrinks(1_000_000_000, perCpuRate);
      period := 1_000_000_000 / perCpuRate;
    }
    QuotientShrinks(burst, ncpu);
    burstPerCpu := burst / ncpu;
    if burst > 0 && burstPerCpu == 0 {
      burstPerCpu := 1;
    }
  }

  /** The constants of the compiled program, each with the default it was built with. */
  class Spec {
    var targetPort: u16
    var whitelistTtlNs: u64
    var statusPeriodNs: u64
    var statusBurst: u64
    var loginPeriodNs: u64
    var loginBurst: u64
    var tcpGlobalPeriodNs: u64
    var tcpGlobalBurst: u64
    var tcpMaxOpenPerIp: u64
    var healthWindowNs: u64
    var healthThreshold: u32
    var healthBlacklistNs: u64
    var connPktPeriodNs: u64
    var connPktBurst: u64
    var connBytePeriodNs: u64
    var connByteBurst: u64
    var connNewPeriodNs: u64
    var connNewBurst: u64

    constructor ()
    {
      targetPort, whitelistTtlNs := 25565, 600 * SECOND;
      statusPeriodNs, statusBurst := SECOND, 20;
      loginPeriodNs, loginBurst := 3 * SECOND, 8;
      tcpGlobalPeriodNs, tcpGlobalBurst, tcpMaxOpenPerIp := 0, 0, 0;
      healthWindowNs, healthThreshold, healthBlacklistNs := 10 * SECOND, 20, 300 * SECOND;
      connPktPeriodNs, connPktBurst := 0, 0;
      connBytePeriodNs, connByteBurst := 0, 0;
      connNewPeriodNs, connNewBurst := 0, 0;
    }

    function Constants(): Config
      reads this
    {
      Config(targetPort, whitelistTtlNs, statusPeriodNs, statusBurst, loginPeriodNs, loginBurst,
             tcpGlobalPeriodNs, tcpGlobalBurst, tcpMaxOpenPerIp,
             healthWindowNs, healthThreshold, healthBlacklistNs,
             connPktPeriodNs, connPktBurst, connBytePeriodNs, connByteBurst, connNewPeriodNs, connNewBurst)
    }

    /** Lines 154-173. */
    method SetHandshakeRates(o: Options)
      modifies this`statusPeriodNs, this`statusBurst, this`loginPeriodNs, this`loginBurst
      ensures statusPeriodNs == Period(MINUTE, o.statusPerMin) && statusBurst == o.statusBurst
      ensures loginPeriodNs == Period(MINUTE, o.loginPerMin) && loginBurst == o.loginBurst
    {
      QuotientsFit(o);
      var statusPeriod := 0;
      if o.statusPerMin > 0 {
        statusPeriod := 60 * 1_000_000_000 / o.statusPerMin;
      }
      statusPeriodNs := statusPeriod;
      statusBurst := o.statusBurst;
      var loginPeriod := 0;
      if o.loginPerMin > 0 {
        loginPeriod := 60 * 1_000_000_000 / o.loginPerMin;
      }
      loginPeriodNs := loginPeriod;
      loginBurst := o.loginBurst;
    }

    /** Lines 174-195. */
    method SetGlobalRate(o: Options, possibleCpus: int)
      modifies this`tcpGlobalPeriodNs, this`tcpGlobalBurst
      ensures tcpGlobalPeriodNs == Period(SECOND, Share(o.tcpGlobalPerSec, Cpus(possibleCpus)))
      ensures tcpGlobalBurst == Share(o.tcpGlobalBurst, Cpus(possibleCpus))
    {
      tcpGlobalPeriodNs, tcpGlobalBurst := SplitGlobal(o.tcpGlobalPerSec, o.tcpGlobalBurst, possibleCpus);
    }

    /** Lines 199-228. */
    method SetConnRates(o: Options)
      modifies this`connPktPeriodNs, this`connPktBurst, this`connBytePeriodNs, this`connByteBurst,
               this`connNewPeriodNs, this`connNewBurst
      ensures connPktPeriodNs == Period(SECOND, o.connPps) && connPktBurst == o.connBurst
      ensures connBytePeriodNs == Period(SECOND, o.connBps) && connByteBurst == o.connByteBurst
      ensures connNewPeriodNs == Period(SECOND, o.connNewPerSec) && connNewBurst == o.connNewBurst
    {
      QuotientsFit(o);
      var pktPeriod := 0;
      if o.connPps > 0 {
        pktPeriod := 1_000_000_000 / o.connPps;
      }
      connPktPeriodNs := pktPeriod;
      connPktBurst := o.connBurst;
      var bytePeriod := 0;
      if o.connBps > 0 {
        bytePeriod := 1_000_000_000 / o.connBps;
      }
      connBytePeriodNs := bytePeriod;
      connByteBurst := o.connByteBurst;
      var newPeriod := 0;
      if o.connNewPerSec > 0 {
        newPeriod := 1_000_000_000 / o.connNewPerSec;
      }
      connNewPeriodNs := newPeriod;
      connNewBurst := o.connNewBurst;
    }

    /** Lines 229-237. */
    method SetHealth(o: Options)
      modifies this`healthWindowNs, this`healthThreshold, this`healthBlacklistNs
      ensures healthWindowNs == Cast(o.healthWindow) && healthThreshold == o.healthThreshold
      ensures healthBlacklistNs == Cast(o.healthBlacklist)
    {
      healthWindowNs := Cast(o.healthWindow);
      healthThreshold := o.healthThreshold;
      healthBlacklistNs := Cast(o.healthBlacklist);
    }

    /** loadXDP up to the load itself. Every constant is overwritten: no default survives. */
    method LoadXdp(o: Options, possibleCpus: int)
      modifies this
      ensures possibleCpus >= 1 ==> Constants() == Wanted(o, possibleCpus)
      ensures possibleCpus < 1 ==> Constants() == Wanted(o, 1)
    {
      ghost var want := Wanted(o, Cpus(possibleCpus));
      targetPort := o.port;
      whitelistTtlNs := Cast(o.ttl);
      SetHandshakeRates(o);
      SetGlobalRate(o, possibleCpus);
      tcpMaxOpenPerIp := o.tcpMaxOpenPerIp;
      SetConnRates(o);
      SetHealth(o);
    }
  }

  lemma QuotientsFit(o: Options)
    ensures o.statusPerMin > 0 ==> 0 <= MINUTE / o.statusPerMin < TWO64
    ensures o.loginPerMin > 0 ==> 0 <= MINUTE / o.loginPerMin < TWO64
    ensures o.connPps > 0 ==> 0 <= SECOND / o.connPps < TWO64
    ensures o.connBps > 0 ==> 0 <= SECOND / o.connBps < TWO64
    ensures o.connNewPerSec > 0 ==> 0 <= SECOND / o.connNewPerSec < TWO64
  {
    if o.statusPerMin > 0 { QuotientShrinks(MINUTE, o.statusPerMin); }
    if o.loginPerMin > 0 { QuotientShrinks(MINUTE, o.loginPerMin); }
    if o.connPps > 0 { QuotientShrinks(SECOND, o.connPps); }
    if o.connBps > 0 { QuotientShrinks(SECOND, o.connBps); }
    if o.connNewPerSec > 0 { QuotientShrinks(SECOND, o.connNewPerSec); }
  }

  // ---- What a rate comes out as ----

  /** A bucket refills at the rate asked for, plus what the period lost to truncation. */
  lemma RateOfPeriod(scale: nat, rate: u64)
    requires 0 < rate <= scale
    ensures var p := Period(scale, rate);
            && p > 0
            && scale / p == rate + scale % rate / p
            && rate <= scale / p <= rate + rate / p
            && (scale / p == rate <==> scale % rate < p)
  {
    var p := Period(scale, rate);
    DivMod(scale, rate);
    assert p > 0;
    var lost := scale % rate;
    DivShift(lost, p, rate);
    assert scale == lost + rate * p;
    DivMono(0, lost, p);
    DivMono(lost, rate, p);
    if lost < p { DivUnique(lost, p, 0, lost); } else { DivMono(p, lost, p); DivUnique(p, p, 1, 0); }
  }

  /** A rate no larger than its own period comes out exactly. */
  lemma SlowRatesAreExact(scale: nat, rate: u64)
    requires 0 < rate <= scale && rate <= Period(scale, rate)
    ensures scale / Period(scale, rate) == rate
  {
    RateOfPeriod(scale, rate);
    DivMod(scale, rate);
  }

  /** A period is zero for no rate, and also for a rate beyond the clock's resolution. */
  lemma ZeroPeriod(scale: nat, rate: u64)
    ensures Period(scale, rate) == 0 <==> rate == 0 || rate > scale
  {
    if 0 < rate <= scale {
      RateOfPeriod(scale, rate);
    } else if rate > scale {
      DivUnique(scale, rate, 0, scale);
    }
  }

  /** Which caps the options leave on. A cap asked for at more than one event a
      nanosecond is silently off. */
  lemma CapsThatAreOn(o: Options, n: nat)
    requires n >= 1
    ensures var cfg := Wanted(o, n);
            && (cfg.PktOn() <==> 0 < o.connPps <= SECOND && o.connBurst > 0)
            && (cfg.ByteOn() <==> 0 < o.connBps <= SECOND && o.connByteBurst > 0)
            && (cfg.NewOn() <==> 0 < o.connNewPerSec <= SECOND && o.connNewBurst > 0)
            && (cfg.GlobalOn() <==>
                  o.tcpGlobalPerSec > 0 && Share(o.tcpGlobalPerSec, n) <= SECOND && o.tcpGlobalBurst > 0)
  {
    ZeroPeriod(SECOND, o.connPps);
    ZeroPeriod(SECOND, o.connBps);
    ZeroPeriod(SECOND, o.connNewPerSec);
    ZeroPeriod(SECOND, Share(o.tcpGlobalPerSec, n));
  }

  /** A share is the part of the amount that falls to each CPU, rounded down; but never
      rounded down to nothing. */
  lemma ShareIsExact(amount: u64, n: nat)
    requires n >= 1
    ensures amount == 0 ==> Share(amount, n) == 0
    ensures 0 < amount < n ==> Share(amount, n) == 1
    ensures amount >= n ==> Share(amount, n) * n <= amount < (Share(amount, n) + 1) * n
  {
    DivMod(amount, n);
    if amount == 0 {
      DivUnique(0, n, 0, 0);
    } else if amount < n {
      DivUnique(amount, n, 0, amount);
    } else {
      DivMono(n, amount, n);
      DivUnique(n, n, 1, 0);
      assert (amount / n + 1) * n == amount / n * n + n;
    }
  }

  /** The shares add up to no more than the amount exactly when there is one for every CPU
      or nothing to share. */
  lemma SharesAddUp(amount: u64, n: nat)
    requires n >= 1
    ensures n * Share(amount, n) <= amount <==> amount == 0 || amount >= n
  {
    DivMod(amount, n);
    assert amount / n * n == n * (amount / n);
    if amount == 0 {
      DivUnique(0, n, 0, 0);
    } else if amount < n {
      DivUnique(amount, n, 0, amount);
    } else {
      DivMono(n, amount, n);
      DivUnique(n, n, 1, 0);
    }
  }

  // ---- From rates to runs ----

  /** Periods begun in a stretch of one scale: the rate, what truncation lost, and one. */
  lemma TicksInScale(scale: nat, rate: u64, burst: u64, length: nat)
    requires 0 < rate <= scale < TWO64 && length <= scale
    ensures TicksAtMost(Limit(Period(scale, rate), burst), length) <= rate + rate / Period(scale, rate) + 1
  {
    var p := Period(scale, rate);
    RateOfPeriod(scale, rate);
    DivMono(length + p - 1, scale + p, p);
    DivShift(scale, p, 1);
    assert scale + 1 * p == scale + p;
  }

  /** Events per stretch of time, and a burst, as an operator asks for them. */
  datatype Rate = Rate(events: u64, scale: nat, burst: u64) {
    /** The burst, the rate, what truncation adds to it, and one. */
    function Allowance(capacity: nat): nat
      requires 0 < events <= scale
    {
      RateOfPeriod(scale, events);
      DivMono(0, events, Period(scale, events));
      capacity + events + events / Period(scale, events) + 1
    }
  }

  function RateFor(o: Options, m: Meters.Meter): Rate {
    match m
    case ByStatus => Rate(o.statusPerMin, 60_000_000_000, o.statusBurst)
    case ByLogin => Rate(o.loginPerMin, 60_000_000_000, o.loginBurst)
    case BySyn => Rate(o.connNewPerSec, 1_000_000_000, o.connNewBurst)
    case ByConnPackets => Rate(o.connPps, 1_000_000_000, o.connBurst)
    case ByConnBytes => Rate(o.connBps, 1_000_000_000, o.connByteBurst)
  }

  /** Each meter gets the period and the burst of its own rate. */
  lemma LimitIsOfRate(o: Options, n: nat, m: Meters.Meter)
    requires n >= 1 && 0 < RateFor(o, m).events <= RateFor(o, m).scale
    ensures var r, l := RateFor(o, m), Meters.LimitOf(Wanted(o, n), m);
            && l.burst == r.burst
            && l.period * r.events <= r.scale < (l.period + 1) * r.events
  {
    var r := RateFor(o, m);
    DivMod(r.scale, r.events);
    assert (r.scale / r.events + 1) * r.events == r.scale / r.events * r.events + r.events;
  }

  lemma RateTicks(o: Options, n: nat, m: Meters.Meter, capacity: nat, length: nat)
    requires n >= 1 && 0 < RateFor(o, m).events <= RateFor(o, m).scale && length <= RateFor(o, m).scale
    ensures capacity + TicksAtMost(Meters.LimitOf(Wanted(o, n), m), length) <= RateFor(o, m).Allowance(capacity)
  {
    TicksInScale(RateFor(o, m).scale, RateFor(o, m).events, RateFor(o, m).burst, length);
  }

  /** In any minute, or second, a bucket that counts events admits at most its burst, its
      rate, what truncation adds to that, and one. */
  lemma EventsPerScale(o: Options, n: nat, m: Meters.Meter, pre: seq<Runs.Event>, win: seq<Runs.Event>)
    requires n >= 1 && 0 < RateFor(o, m).events <= RateFor(o, m).scale && m != Meters.ByConnBytes
    requires Runs.Bounded(Wanted(o, n)) && Runs.Clocked(pre + win) && win != []
    requires win[|win| - 1].now - win[0].now <= RateFor(o, m).scale
    ensures Meters.SpentIn(Wanted(o, n), Runs.After(Wanted(o, n), UNKNOWN, pre), win, m)
            <= RateFor(o, m).Allowance(Max(RateFor(o, m).burst, 1))
  {
    Meters.UnitWindow(Wanted(o, n), pre, win, m);
    RateTicks(o, n, m, Max(RateFor(o, m).burst, 1), win[|win| - 1].now - win[0].now);
  }

  /** In any minute one address is promoted at most so often. */
  lemma LoginsPerMinute(o: Options, n: nat, pre: seq<Runs.Event>, win: seq<Runs.Event>)
    requires n >= 1 && 0 < o.loginPerMin <= MINUTE && Runs.Bounded(Wanted(o, n))
    requires Runs.Clocked(pre + win) && Runs.NoEvictions(win) && win != []
    requires win[|win| - 1].now - win[0].now <= MINUTE
    ensures Throughput.Promotions(Wanted(o, n), Runs.After(Wanted(o, n), UNKNOWN, pre), win)
            <= RateFor(o, Meters.ByLogin).Allowance(Max(o.loginBurst, 1))
  {
    Meters.TallyIsPaid(Wanted(o, n), Runs.After(Wanted(o, n), UNKNOWN, pre), win, Meters.ByLogin);
    EventsPerScale(o, n, Meters.ByLogin, pre, win);
  }

  /** In any second an established or trusted address gets at most so many bytes through;
      only the second that creates its record may pass one packet larger than the burst. */
  lemma BytesPerSecond(o: Options, n: nat, pre: seq<Runs.Event>, win: seq<Runs.Event>)
    requires n >= 1 && 0 < o.connBps <= SECOND && o.connByteBurst > 0 && Runs.Bounded(Wanted(o, n))
    requires Runs.Clocked(pre + win) && Runs.NoEvictions(win) && win != []
    requires win[|win| - 1].now - win[0].now <= SECOND
    ensures var s := Runs.After(Wanted(o, n), UNKNOWN, pre);
            Throughput.BytesPassed(Wanted(o, n), s, win)
            <= RateFor(o, Meters.ByConnBytes).Allowance(
                 if s.conn.Some? then o.connByteBurst else Max(o.connByteBurst, 0xFFFF))
  {
    CapsThatAreOn(o, n);
    Throughput.ByteBound(Wanted(o, n), pre, win);
    var s := Runs.After(Wanted(o, n), UNKNOWN, pre);
    RateTicks(o, n, Meters.ByConnBytes, Throughput.ByteCapacity(Wanted(o, n), s), win[|win| - 1].now - win[0].now);
  }

  /** In any second the CPUs together admit at most their shares of burst and rate, plus one
      each, plus what truncation loses. */
  lemma SynsPerSecond(o: Options, n: nat, pre: seq<World.WorldEvent>, win: seq<World.WorldEvent>)
    requires n >= 1 && o.tcpGlobalBurst > 0 && o.tcpGlobalPerSec > 0 && Share(o.tcpGlobalPerSec, n) <= SECOND
    requires Share(o.tcpGlobalBurst, n) < TWO63
    requires World.WorldClocked(pre + win) && Breaker.OnCpus(win, n) && win != []
    requires win[|win| - 1].now - win[0].now <= SECOND
    ensures Wanted(o, n).globalPeriod > 0
    ensures Breaker.Admitted(Wanted(o, n), World.After(Wanted(o, n), World.Boot(n), pre), win)
            <= n * SynsPerCpu(o, n)
  {
    CapsThatAreOn(o, n);
    TicksInScale(SECOND, Share(o.tcpGlobalPerSec, n), Share(o.tcpGlobalBurst, n), SECOND);
    Breaker.BreakerBound(Wanted(o, n), n, pre, win, SECOND, SynsPerCpu(o, n));
  }

  /** One CPU's share of the burst and the rate, the rate truncation adds, and one SYN. */
  function SynsPerCpu(o: Options, n: nat): nat
    requires n >= 1 && o.tcpGlobalPerSec > 0 && Share(o.tcpGlobalPerSec, n) <= SECOND
  {
    var q := Share(o.tcpGlobalPerSec, n);
    RateOfPeriod(SECOND, q);
    DivMono(0, q, Period(SECOND, q));
    Share(o.tcpGlobalBurst, n) + q + q / Period(SECOND, q) + 1
  }

  /** With at least one SYN of rate and burst for every CPU, and a share of the rate below
      its period, that is the burst, the rate and one SYN a CPU. */
  lemma ConfiguredSynRate(o: Options, n: nat, pre: seq<World.WorldEvent>, win: seq<World.WorldEvent>)
    requires 1 <= n <= o.tcpGlobalPerSec && n <= o.tcpGlobalBurst
    requires Share(o.tcpGlobalPerSec, n) <= Period(SECOND, Share(o.tcpGlobalPerSec, n))
    requires Share(o.tcpGlobalBurst, n) < TWO63
    requires World.WorldClocked(pre + win) && Breaker.OnCpus(win, n) && win != []
    requires win[|win| - 1].now - win[0].now <= 1_000_000_000
    ensures Breaker.Admitted(Wanted(o, n), World.After(Wanted(o, n), World.Boot(n), pre), win)
            <= o.tcpGlobalBurst + o.tcpGlobalPerSec + n
  {
    var q: int, b: int := Share(o.tcpGlobalPerSec, n), Share(o.tcpGlobalBurst, n);
    CapsThatAreOn(o, n);
    TicksOfSlowRate(q, b, SECOND);
    var each := b + q + 1;
    Breaker.BreakerBound(Wanted(o, n), n, pre, win, SECOND, each);
    SharesFit(o, n, each);
  }

  lemma SharesFit(o: Options, n: nat, each: nat)
    requires 1 <= n <= o.tcpGlobalPerSec && n <= o.tcpGlobalBurst
    requires each == Share(o.tcpGlobalBurst, n) + Share(o.tcpGlobalPerSec, n) + 1
    ensures n * each <= o.tcpGlobalBurst + o.tcpGlobalPerSec + n
  {
    var q: int, b: int := Share(o.tcpGlobalPerSec, n), Share(o.tcpGlobalBurst, n);
    SharesAddUp(o.tcpGlobalPerSec, n);
    SharesAddUp(o.tcpGlobalBurst, n);
    assert n * (b + q + 1) == n * b + n * q + n;
  }

  lemma TicksOfSlowRate(rate: u64, burst: u64, length: nat)
    requires 0 < rate <= Period(SECOND, rate) && length <= SECOND
    ensures rate <= SECOND
    ensures TicksAtMost(Limit(Period(SECOND, rate), burst), length) <= rate + 1
  {
    var p := Period(SECOND, rate);
    SlowRatesAreExact(SECOND, rate);
    DivMono(length + p - 1, SECOND + p, p);
    DivShift(SECOND, p, 1);
    assert SECOND + 1 * p == SECOND + p;
  }

  // ---- Durations, port and cap ----

  /** A duration is taken modulo 2^64; one that is not negative is taken as it is. */
  lemma CastIsModular(d: i64)
    ensures Cast(d) == d % TWO64
    ensures d >= 0 ==> Cast(d) == d
  {
    if d < 0 { DivUnique(d, TWO64, -1, d + TWO64); } else { DivUnique(d, TWO64, 0, d); }
  }

  /** A ban follows as many anomalies as the threshold asked for, all within the window asked
      for, and lasts exactly as long as asked for. */
  lemma BansAsConfigured(o: Options, n: nat, es: seq<Runs.Event>, trip: Runs.Event, later: seq<Runs.Event>,
                         next: Runs.Event)
    requires n >= 1 && o.healthWindow >= 0 && o.healthBlacklist >= 0 && Runs.Bounded(Wanted(o, n))
    requires Runs.Clocked(es + [trip]) && Runs.NoEvictions(es + [trip]) && Runs.NoEvictions(later) && next.Packet?
    requires Bans.StepTrips(Wanted(o, n), Runs.After(Wanted(o, n), UNKNOWN, es), trip)
    requires forall i | 0 <= i < |later| :: later[i].now < trip.now + o.healthBlacklist
    ensures var cfg, ts := Wanted(o, n), Bans.AnomalyTimes(Wanted(o, n), UNKNOWN, es + [trip]);
            var u := Runs.Act(cfg, Runs.After(cfg, UNKNOWN, es), trip).state;
            && o.healthThreshold <= |ts|
            && (forall i | |ts| - o.healthThreshold <= i < |ts| :: trip.now - ts[i] <= o.healthWindow)
            && Bans.AllDropped(cfg, u, later)
            && (next.now >= trip.now + o.healthBlacklist ==>
                  !Runs.Act(cfg, Runs.After(cfg, u, later), next).outcome.DroppedBanned?)
  {
    var cfg := Wanted(o, n);
    assert (es + [trip])[|es|] == trip;
    Bans.BanSoundness(cfg, es, trip);
    Bans.BanLastsExactly(cfg, Runs.After(cfg, UNKNOWN, es), trip, later, next);
  }

  /** Trust lasts as long as asked for after its last renewal, and for good if that is zero. */
  lemma TrustAsConfigured(o: Options, n: nat, es: seq<Runs.Event>, e: Runs.Event)
    requires n >= 1 && o.ttl >= 0 && Runs.Clocked(es + [e]) && e.Packet?
    ensures var s := Runs.After(Wanted(o, n), UNKNOWN, es);
            Trust.ArrivalOf(Wanted(o, n), s, e).Trusted()
            <==> s.whitelist.Some? && s.whitelist.value <= e.now && (o.ttl == 0 || e.now - s.whitelist.value <= o.ttl)
  {
    Trust.TrustInRuns(Wanted(o, n), es, e);
  }

  /** With as many live sockets as the cap asked for, no SYN to the port asked for passes. */
  lemma CapAsConfigured(o: Options, n: nat, es: seq<Lifecycle.NetEvent>, pkt: Policy.Packet, now: u64, breaker: bool)
    requires n >= 1 && Lifecycle.LegalRun(Wanted(o, n), Lifecycle.NOBODY, es) && |es| < TWO63
    requires 0 < o.tcpMaxOpenPerIp <= |Lifecycle.After(Wanted(o, n), Lifecycle.NOBODY, es).sockets|
    requires pkt.parsed && pkt.dport == o.port && pkt.flags.syn
    ensures var s := Lifecycle.After(Wanted(o, n), Lifecycle.NOBODY, es).ip;
            VerdictOf(PacketStep(Wanted(o, n), s, pkt, now, breaker).outcome) == XdpDrop
  {
    Lifecycle.CapHolds(Wanted(o, n), es, pkt, now, breaker);
  }
}
