/** The two BPF programs as they run: over shared maps, updating records in place, with
    unsigned 64-bit arithmetic. Each entry point is proved to take the step that module
    World gives as a function.

    Methods that touch a map keep the ghost field `world` in step with the maps. The
    methods above them speak of the scene of one source and of no map. */
module Datapath {
  import opened Words
  import opened Maps
  import opened Records
  import opened Buckets
  import opened Handshakes
  import opened Policy
  import opened World
  import opened Retries
  import Verdicts

  /** Which bucket map a rate limit works on. */
  datatype BucketMap = StatusBuckets | LoginBuckets | SynBuckets

  // ---- What one source's events may touch ----

  /** A source, everything kept for other sources, the breaker buckets and the stat slots. */
  datatype Scene = Scene(here: IpState, rest: map<IP, IpState>, breakers: seq<Bucket>, stats: Stats) {
    function With(s: IpState): Scene {
      this.(here := s)
    }

    function Bumped(slot: Stat): Scene {
      this.(stats := Bump(stats, slot))
    }

    /** record_drop and stat_bump, which every drop but that of a malformed handshake pairs. */
    function Dropped(reason: Reason, now: u64): Scene {
      With(here.(history := Some(Policy.RecordDrop(here.history, reason, now)))).Bumped(reason.Slot())
    }

    /** The scene a step leaves, its drop recorded and its slots bumped. */
    function After(d: Step, now: u64): Scene {
      With(d.state.(history := Account(here.history, d.outcome, now))).(stats := d.outcome.Count(stats))
    }

    /** The same for a step past the point where passing packets are counted. */
    function AfterCounted(d: Step, now: u64): Scene {
      With(d.state.(history := Account(here.history, d.outcome, now))).(stats := d.outcome.CountDetails(stats))
    }
  }

  function SceneOf(w: World, src: IP): Scene {
    Scene(w.At(src), w.ips - {src}, w.breakers, w.stats)
  }

  /** Worlds with the same scene of one source hold the same of every source. */
  lemma SameScene(w: World, u: World, src: IP, ip: IP)
    requires SceneOf(w, src) == SceneOf(u, src)
    ensures w.At(ip) == u.At(ip)
  {
    if ip != src {
      assert ip in w.ips <==> ip in w.ips - {src};
      assert ip in u.ips <==> ip in u.ips - {src};
    }
  }

  lemma PutApart(m: map<IP, IpState>, k: IP, v: IpState)
    ensures m[k := v] - {k} == m - {k}
  {
  }

  /** What the SYN gates of lines 373-396 leave, and where they stop a SYN. */
  function Gated(cfg: Config, s: IpState, breaker: bool, now: u64): (r: (IpState, Option<Outcome>))
    ensures r.1.Some? ==> r.1.value.Drops()
  {
    if AtOpenCap(cfg, s) then (s, Some(DroppedTooManyOpen))
    else
      var (syn, ok) := SynTake(cfg, s, now);
      var s := s.(syn := syn);
      if !ok then (s, Some(DroppedConnRate))
      else if !breaker then (s, Some(DroppedGlobal))
      else (s.(synSeen := Some(now)), None)
  }

  /** The same in a scene: a SYN that gets as far as the breaker takes from its bucket. */
  function GatedScene(cfg: Config, was: Scene, cpu: nat, now: u64): (r: (Scene, Option<Outcome>))
    ensures r.1.Some? ==> r.1.value.Drops()
  {
    var (taken, breaker) := BreakerTake(cfg, was.breakers, cpu, now);
    var asked := !AtOpenCap(cfg, was.here) && SynTake(cfg, was.here, now).1;
    var (s, refusal) := Gated(cfg, was.here, breaker, now);
    (was.With(s).(breakers := if asked then taken else was.breakers), refusal)
  }

  /** A SYN of an untrusted source: the gates, then the payload. */
  lemma SynIsGated(cfg: Config, s: IpState, pkt: Policy.Packet, now: u64, breaker: bool)
    requires pkt.flags.syn
    ensures var (u, refusal) := Gated(cfg, s, breaker, now);
            && u.history == s.history && (refusal.Some? ==> refusal.value.Drops() && refusal.value != DroppedMalformed)
            && UntrustedStep(cfg, s, pkt, now, breaker)
               == if refusal.Some? then Step(u, refusal.value) else PayloadStep(cfg, u, pkt, now)
  {
  }

  class Programs {
    const cfg: Config

    var tcpEstablished: map<IP, u64>
    var tcpSynSeen: map<IP, u64>
    var tcpFirstData: map<IP, u64>
    var tcpWhitelist: map<IP, u64>
    var tcpOpenCount: map<IP, u64>
    var statusRatelimit: map<IP, Bucket>
    var loginRatelimit: map<IP, Bucket>
    var synRatelimit: map<IP, Bucket>
    var connRatelimit: map<IP, ConnLimit>
    var health: map<IP, Health>
    var ipDropHistory: map<IP, DropHistory>
    var tcpGlobalRatelimit: seq<Bucket>
    var stats: Stats

    /** The state the maps stand for. */
    ghost var world: World

    ghost function View(ip: IP): IpState
      reads this`tcpEstablished, this`tcpSynSeen, this`tcpFirstData, this`tcpWhitelist, this`tcpOpenCount,
            this`statusRatelimit, this`loginRatelimit, this`synRatelimit, this`connRatelimit,
            this`health, this`ipDropHistory
    {
      IpState(Lookup(tcpEstablished, ip), Lookup(tcpSynSeen, ip), Lookup(tcpFirstData, ip),
              Lookup(tcpWhitelist, ip), Lookup(tcpOpenCount, ip),
              Lookup(statusRatelimit, ip), Lookup(loginRatelimit, ip), Lookup(synRatelimit, ip),
              Lookup(connRatelimit, ip), Lookup(health, ip), Lookup(ipDropHistory, ip))
    }

    ghost predicate Valid()
      reads this
    {
      && world == World(world.ips, tcpGlobalRatelimit, stats)
      && forall ip: IP {:trigger View(ip)} :: world.At(ip) == View(ip)
    }

    ghost function Here(src: IP): Scene
      reads this`world
    {
      SceneOf(world, src)
    }

    constructor (cfg: Config, cpus: nat)
      ensures Valid() && this.cfg == cfg && world == Boot(cpus)
    {
      this.cfg := cfg;
      tcpEstablished, tcpSynSeen, tcpFirstData, tcpWhitelist := map[], map[], map[], map[];
      tcpOpenCount, statusRatelimit, loginRatelimit, synRatelimit := map[], map[], map[], map[];
      connRatelimit, health, ipDropHistory := map[], map[], map[];
      tcpGlobalRatelimit := seq(cpus, _ => Bucket(0, 0));
      stats := ZERO_STATS;
      world := Boot(cpus);
    }

    /** Lets `world` follow a change of the maps at one source. */
    ghost method Settle(src: IP)
      requires world == World(world.ips, tcpGlobalRatelimit, stats)
      requires forall ip: IP {:trigger View(ip)} :: ip != src ==> world.At(ip) == View(ip)
      modifies this`world
      ensures Valid() && Here(src) == old(Here(src)).With(View(src))
    {
      PutApart(world.ips, src, View(src));
      world := world.(ips := world.ips[src := View(src)]);
    }

    // ---- bpf_map_lookup_elem, bpf_map_update_elem and bpf_map_delete_elem ----

    method LookupEstablished(src: IP) returns (found: Option<u64>)
      requires Valid()
      ensures found == Here(src).here.established
    {
      ghost var s := View(src);
      found := Lookup(tcpEstablished, src);
    }

    method LookupSynSeen(src: IP) returns (found: Option<u64>)
      requires Valid()
      ensures found == Here(src).here.synSeen
    {
      ghost var s := View(src);
      found := Lookup(tcpSynSeen, src);
    }

    method LookupFirstData(src: IP) returns (found: Option<u64>)
      requires Valid()
      ensures found == Here(src).here.firstData
    {
      ghost var s := View(src);
      found := Lookup(tcpFirstData, src);
    }

    method LookupWhitelist(src: IP) returns (found: Option<u64>)
      requires Valid()
      ensures found == Here(src).here.whitelist
    {
      ghost var s := View(src);
      found := Lookup(tcpWhitelist, src);
    }

    method LookupOpenCount(src: IP) returns (found: Option<u64>)
      requires Valid()
      ensures found == Here(src).here.openCount
    {
      ghost var s := View(src);
      found := Lookup(tcpOpenCount, src);
    }

    method UpdateEstablished(src: IP, value: u64)
      requires Valid()
      modifies this`tcpEstablished, this`world
      ensures Valid()
      ensures Here(src) == old(Here(src)).With(old(Here(src)).here.(established := Some(value)))
    {
      ghost var s := View(src);
      tcpEstablished := tcpEstablished[src := value];
      Settle(src);
    }

    method UpdateSynSeen(src: IP, value: u64)
      requires Valid()
      modifies this`tcpSynSeen, this`world
      ensures Valid()
      ensures Here(src) == old(Here(src)).With(old(Here(src)).here.(synSeen := Some(value)))
    {
      ghost var s := View(src);
      tcpSynSeen := tcpSynSeen[src := value];
      Settle(src);
    }

    method UpdateFirstData(src: IP, value: u64)
      requires Valid()
      modifies this`tcpFirstData, this`world
      ensures Valid()
      ensures Here(src) == old(Here(src)).With(old(Here(src)).here.(firstData := Some(value)))
    {
      ghost var s := View(src);
      tcpFirstData := tcpFirstData[src := value];
      Settle(src);
    }

    method UpdateWhitelist(src: IP, value: u64)
      requires Valid()
      modifies this`tcpWhitelist, this`world
      ensures Valid()
      ensures Here(src) == old(Here(src)).With(old(Here(src)).here.(whitelist := Some(value)))
    {
      ghost var s := View(src);
      tcpWhitelist := tcpWhitelist[src := value];
      Settle(src);
    }

    method UpdateOpenCount(src: IP, value: u64)
      requires Valid()
      modifies this`tcpOpenCount, this`world
      ensures Valid()
      ensures Here(src) == old(Here(src)).With(old(Here(src)).here.(openCount := Some(value)))
    {
      ghost var s := View(src);
      tcpOpenCount := tcpOpenCount[src := value];
      Settle(src);
    }

    method LookupStatus(src: IP) returns (found: Option<Bucket>)
      requires Valid()
      ensures found == Here(src).here.status
    {
      ghost var s := View(src);
      found := Lookup(statusRatelimit, src);
    }

    method UpdateStatus(src: IP, value: Bucket)
      requires Valid()
      modifies this`statusRatelimit, this`world
      ensures Valid()
      ensures Here(src) == old(Here(src)).With(old(Here(src)).here.(status := Some(value)))
    {
      ghost var s := View(src);
      statusRatelimit := statusRatelimit[src := value];
      Settle(src);
    }

    method LookupLogin(src: IP) returns (found: Option<Bucket>)
      requires Valid()
      ensures found == Here(src).here.login
    {
      ghost var s := View(src);
      found := Lookup(loginRatelimit, src);
    }

    method UpdateLogin(src: IP, value: Bucket)
      requires Valid()
      modifies this`loginRatelimit, this`world
      ensures Valid()
      ensures Here(src) == old(Here(src)).With(old(Here(src)).here.(login := Some(value)))
    {
      ghost var s := View(src);
      loginRatelimit := loginRatelimit[src := value];
      Settle(src);
    }

    method LookupSyn(src: IP) returns (found: Option<Bucket>)
      requires Valid()
      ensures found == Here(src).here.syn
    {
      ghost var s := View(src);
      found := Lookup(synRatelimit, src);
    }

    method UpdateSyn(src: IP, value: Bucket)
      requires Valid()
      modifies this`synRatelimit, this`world
      ensures Valid()
      ensures Here(src) == old(Here(src)).With(old(Here(src)).here.(syn := Some(value)))
    {
      ghost var s := View(src);
      synRatelimit := synRatelimit[src := value];
      Settle(src);
    }

    method LookupHealth(src: IP) returns (found: Option<Health>)
      requires Valid()
      ensures found == Here(src).here.health
    {
      ghost var s := View(src);
      found := Lookup(health, src);
    }

    method LookupHistory(src: IP) returns (found: Option<DropHistory>)
      requires Valid()
      ensures found == Here(src).here.history
    {
      ghost var s := View(src);
      found := Lookup(ipDropHistory, src);
    }

    method LookupConn(src: IP) returns (found: Option<ConnLimit>)
      requires Valid()
      ensures found == Here(src).here.conn
    {
      ghost var s := View(src);
      found := Lookup(connRatelimit, src);
    }

    method UpdateHealth(src: IP, value: Health)
      requires Valid()
      modifies this`health, this`world
      ensures Valid()
      ensures Here(src) == old(Here(src)).With(old(Here(src)).here.(health := Some(value)))
    {
      ghost var s := View(src);
      health := health[src := value];
      assert forall ip: IP {:trigger View(ip)} | ip != src :: View(ip) == old(View(ip));
      Settle(src);
    }

    method UpdateHistory(src: IP, value: DropHistory)
      requires Valid()
      modifies this`ipDropHistory, this`world
      ensures Valid()
      ensures Here(src) == old(Here(src)).With(old(Here(src)).here.(history := Some(value)))
    {
      ghost var s := View(src);
      ipDropHistory := ipDropHistory[src := value];
      Settle(src);
    }

    method UpdateConn(src: IP, value: ConnLimit)
      requires Valid()
      modifies this`connRatelimit, this`world
      ensures Valid()
      ensures Here(src) == old(Here(src)).With(old(Here(src)).here.(conn := Some(value)))
    {
      ghost var s := View(src);
      connRatelimit := connRatelimit[src := value];
      Settle(src);
    }

    method DeleteEstablished(src: IP)
      requires Valid()
      modifies this`tcpEstablished, this`world
      ensures Valid()
      ensures Here(src) == old(Here(src)).With(old(Here(src)).here.(established := None))
    {
      ghost var s := View(src);
      tcpEstablished := tcpEstablished - {src};
      Settle(src);
    }

    method DeleteWhitelist(src: IP)
      requires Valid()
      modifies this`tcpWhitelist, this`world
      ensures Valid()
      ensures Here(src) == old(Here(src)).With(old(Here(src)).here.(whitelist := None))
    {
      ghost var s := View(src);
      tcpWhitelist := tcpWhitelist - {src};
      Settle(src);
    }

    method DeleteFirstData(src: IP)
      requires Valid()
      modifies this`tcpFirstData, this`world
      ensures Valid()
      ensures Here(src) == old(Here(src)).With(old(Here(src)).here.(firstData := None))
    {
      ghost var s := View(src);
      tcpFirstData := tcpFirstData - {src};
      Settle(src);
    }

    // ---- maps.h ----

    method StatBump(slot: Stat)
      requires Valid()
      modifies this`stats, this`world
      ensures Valid() && world == old(world).(stats := Bump(old(world).stats, slot))
    {
      stats := stats[slot.Index() := stats[slot.Index()] + 1];
      world := world.(stats := stats);
    }

    // ---- minecraft_xdp.bpf.c ----

    /** Lines 135-141. */
    method HealthIsBlacklisted(src: IP, now: u64) returns (banned: bool)
      requires Valid()
      ensures banned == Banned(Here(src).here.health, now)
    {
      var h := LookupHealth(src);
      if h.None? {
        return false;
      }
      return h.value.blacklistUntil > now;
    }

    /** Lines 143-158. */
    method RecordDrop(src: IP, reason: Reason, now: u64)
      requires Valid()
      modifies this`ipDropHistory, this`world
      ensures Valid()
      ensures var s := old(Here(src)).here;
              Here(src) == old(Here(src)).With(s.(history := Some(Policy.RecordDrop(s.history, reason, now))))
    {
      var found := LookupHistory(src);
      if found.None? {
        var counts := ZERO_COUNTS;
        counts := counts[reason.Index() := 1];
        UpdateHistory(src, DropHistory(now, now, counts));
        return;
      }
      var h := found.value;
      h := h.(last := now);
      h := h.(counts := h.counts[reason.Index() := h.counts[reason.Index()] + 1]);
      UpdateHistory(src, h);
    }

    method Drop(src: IP, reason: Reason, now: u64)
      requires Valid()
      modifies this`ipDropHistory, this`stats, this`world
      ensures Valid() && Here(src) == old(Here(src)).Dropped(reason, now)
    {
      RecordDrop(src, reason, now);
      StatBump(reason.Slot());
    }

    /** Lines 160-180. */
    method HealthRecordAnomaly(src: IP, now: u64)
      requires Valid()
      modifies this`health, this`world
      ensures Valid()
      ensures var s := old(Here(src)).here;
              Here(src) == old(Here(src)).With(s.(health := Some(RecordAnomaly(cfg, s.health, now))))
    {
      var found := LookupHealth(src);
      if found.None? {
        UpdateHealth(src, Health(1, now, 0));
        return;
      }
      var h := found.value;
      if Sub64(now, h.windowStart) > cfg.healthWindow {
        h := h.(anomalies := 0);
        h := h.(windowStart := now);
      }
      h := h.(anomalies := Inc32(h.anomalies));
      if h.anomalies >= cfg.healthThreshold {
        h := h.(blacklistUntil := Add64(now, cfg.healthBlacklist));
      }
      UpdateHealth(src, h);
    }

    /** Lines 182-202, on one CPU. */
    method TcpGlobalRatelimitTake(cpu: nat, now: u64) returns (ok: bool)
      requires Valid()
      modifies this`tcpGlobalRatelimit, this`world
      ensures Valid()
      ensures var (taken, granted) := BreakerTake(cfg, old(world).breakers, cpu, now);
              ok == granted && world == old(world).(breakers := taken)
    {
      if cfg.globalBurst == 0 || cfg.globalPeriod == 0 {
        return true;
      }
      if cpu >= |tcpGlobalRatelimit| {
        return true;
      }
      var b := tcpGlobalRatelimit[cpu];
      var refill, t := RefillTo(b, now, cfg.globalPeriod, cfg.globalBurst);
      if t == 0 {
        assert tcpGlobalRatelimit == tcpGlobalRatelimit[cpu := b];
        return false;
      }
      b := b.(tokens := t - 1);
      b := b.(last := Add64(b.last, Mul64(refill, cfg.globalPeriod)));
      tcpGlobalRatelimit := tcpGlobalRatelimit[cpu := b];
      world := world.(breakers := tcpGlobalRatelimit);
      return true;
    }

    /** The refill the four takes share: whole periods passed, and the tokens they make,
        up to the burst. */
    method RefillTo(b: Bucket, now: u64, period: u64, burst: u64) returns (refill: u64, tokens: u64)
      ensures refill == Refill(Limit(period, burst), b, now)
      ensures tokens == Level(Limit(period, burst), b, now)
    {
      var elapsed := Sub64(now, b.last);
      refill := 0;
      if period > 0 {
        QuotientShrinks(elapsed, period);
        refill := elapsed / period;
      }
      tokens := Add64(b.tokens, refill);
      if tokens > burst {
        tokens := burst;
      }
    }

    ghost function BucketIn(s: IpState, which: BucketMap): Option<Bucket> {
      match which
      case StatusBuckets => s.status
      case LoginBuckets => s.login
      case SynBuckets => s.syn
    }

    ghost function PutBucket(s: IpState, which: BucketMap, b: Bucket): IpState {
      match which
      case StatusBuckets => s.(status := Some(b))
      case LoginBuckets => s.(login := Some(b))
      case SynBuckets => s.(syn := Some(b))
    }

    method LookupBucket(which: BucketMap, src: IP) returns (found: Option<Bucket>)
      requires Valid()
      ensures found == BucketIn(Here(src).here, which)
    {
      match which
      case StatusBuckets => found := LookupStatus(src);
      case LoginBuckets => found := LookupLogin(src);
      case SynBuckets => found := LookupSyn(src);
    }

    method UpdateBucket(which: BucketMap, src: IP, b: Bucket)
      requires Valid()
      modifies this`statusRatelimit, this`loginRatelimit, this`synRatelimit, this`world
      ensures Valid()
      ensures Here(src) == old(Here(src)).With(PutBucket(old(Here(src)).here, which, b))
    {
      match which
      case StatusBuckets => UpdateStatus(src, b);
      case LoginBuckets => UpdateLogin(src, b);
      case SynBuckets => UpdateSyn(src, b);
    }

    /** Lines 204-229. */
    method RatelimitTake(which: BucketMap, src: IP, now: u64, refillPeriod: u64, burst: u64) returns (ok: bool)
      requires Valid()
      modifies this`statusRatelimit, this`loginRatelimit, this`synRatelimit, this`world
      ensures Valid()
      ensures var s := old(Here(src)).here;
              var t := Serve(Limit(refillPeriod, burst), BucketIn(s, which), Request(now, 1));
              ok == t.ok && Here(src) == old(Here(src)).With(PutBucket(s, which, t.bucket))
    {
      var found := LookupBucket(which, src);
      if found.None? {
        UpdateBucket(which, src, Bucket(if burst > 0 then burst - 1 else 0, now));
        return true;
      }
      var b := found.value;
      var refill, t := RefillTo(b, now, refillPeriod, burst);
      if t == 0 {
        return false;
      }
      b := b.(tokens := t - 1);
      b := b.(last := Add64(b.last, Mul64(refill, refillPeriod)));
      UpdateBucket(which, src, b);
      return true;
    }

    /** Lines 245-289. */
    method ConnRatelimitTake(src: IP, pktBytes: u16, now: u64) returns (ok: bool)
      requires Valid()
      modifies this`connRatelimit, this`world
      ensures Valid()
      ensures var s := old(Here(src)).here;
              var (conn, granted) := ConnTake(cfg, s.conn, pktBytes, now);
              ok == granted && Here(src) == old(Here(src)).With(s.(conn := conn))
    {
      var pktOn := cfg.connPktPeriod > 0 && cfg.connPktBurst > 0;
      var byteOn := cfg.connBytePeriod > 0 && cfg.connByteBurst > 0;
      if !pktOn && !byteOn {
        return true;
      }
      var found := LookupConn(src);
      if found.None? {
        var init := ConnLimit(if cfg.connPktBurst > 0 then cfg.connPktBurst - 1 else 0, now, cfg.connByteBurst, now);
        if byteOn {
          init := init.(byteTokens := if cfg.connByteBurst > pktBytes then cfg.connByteBurst - pktBytes else 0);
        }
        UpdateConn(src, init);
        return true;
      }
      var b := found.value;
      if pktOn {
        var refill, t := RefillTo(PktBucket(b), now, cfg.connPktPeriod, cfg.connPktBurst);
        if t == 0 {
          return false;
        }
        b := b.(pktTokens := t - 1);
        b := b.(pktLast := Add64(b.pktLast, Mul64(refill, cfg.connPktPeriod)));
        UpdateConn(src, b);
      }
      if byteOn {
        var refill, t := RefillTo(ByteBucket(b), now, cfg.connBytePeriod, cfg.connByteBurst);
        if t < pktBytes {
          return false;
        }
        b := b.(byteTokens := t - pktBytes);
        b := b.(byteLast := Add64(b.byteLast, Mul64(refill, cfg.connBytePeriod)));
        UpdateConn(src, b);
      }
      return true;
    }

    method PlayPacket(src: IP, pkt: Policy.Packet, now: u64) returns (verdict: Verdict, ghost outcome: Outcome)
      requires Valid()
      modifies this
      ensures Valid()
      ensures var d := PlayStep(cfg, old(Here(src)).here, pkt, now);
              && outcome == d.outcome && verdict == VerdictOf(outcome)
              && Here(src) == old(Here(src)).AfterCounted(d, now)
    {
      var est := LookupEstablished(src);
      if est.Some? {
        var ok := ConnRatelimitTake(src, pkt.ipTot, now);
        if !ok {
          HealthRecordAnomaly(src, now);
          Drop(src, ConnRatelimit, now);
          return XdpDrop, PlayOverRate;
        }
        return XdpPass, PlayPass;
      }
      return XdpPass, UntrackedPass;
    }

    method StatusPacket(src: IP, now: u64) returns (verdict: Verdict, ghost outcome: Outcome)
      requires Valid()
      modifies this
      ensures Valid()
      ensures var d := StatusStep(cfg, old(Here(src)).here, now);
              && outcome == d.outcome && verdict == VerdictOf(outcome)
              && Here(src) == old(Here(src)).AfterCounted(d, now)
    {
      StatBump(StatusSeen);
      var est := LookupEstablished(src);
      if est.None? {
        StatBump(MatchNoEst);
        return XdpPass, StatusNoEst;
      }
      var ok := RatelimitTake(StatusBuckets, src, now, cfg.statusPeriod, cfg.statusBurst);
      if !ok {
        Drop(src, StatusRatelimit, now);
        return XdpDrop, StatusOverRate;
      }
      return XdpPass, StatusPass;
    }

    /** Lines 468-477: a login of an established source. */
    method MeterLogin(src: IP, now: u64) returns (verdict: Verdict, ghost outcome: Outcome)
      requires Valid()
      modifies this
      ensures Valid()
      ensures var s := old(Here(src)).here;
              var t := Serve(cfg.LoginLimit(), s.login, Request(now, 1));
              var paid := old(Here(src)).With(s.(login := Some(t.bucket)));
              && outcome == (if t.ok then LoginPromoted else LoginOverRate) && verdict == VerdictOf(outcome)
              && Here(src) == if t.ok then paid.With(paid.here.(whitelist := Some(now))).Bumped(Promotions)
                              else paid.Dropped(LoginRatelimit, now)
    {
      var ok := RatelimitTake(LoginBuckets, src, now, cfg.loginPeriod, cfg.loginBurst);
      if !ok {
        Drop(src, LoginRatelimit, now);
        return XdpDrop, LoginOverRate;
      }
      UpdateWhitelist(src, now);
      StatBump(Promotions);
      return XdpPass, LoginPromoted;
    }

    method LoginPacket(src: IP, now: u64) returns (verdict: Verdict, ghost outcome: Outcome)
      requires Valid()
      modifies this
      ensures Valid()
      ensures var d := LoginStep(cfg, old(Here(src)).here, now);
              && outcome == d.outcome && verdict == VerdictOf(outcome)
              && Here(src) == old(Here(src)).AfterCounted(d, now)
    {
      StatBump(LoginSeen);
      var est := LookupEstablished(src);
      if est.None? {
        StatBump(MatchNoEst);
        return XdpPass, LoginNoEst;
      }
      verdict, outcome := MeterLogin(src, now);
    }

    method ParsePayload(pkt: Policy.Packet) returns (hs: Class)
      requires pkt.HasPayload()
      ensures hs == pkt.HandshakeClass()
    {
      var hdrs: u32 := pkt.ihl * 4 + pkt.doff * 4;
      var payloadOff: u32 := 14 + hdrs;
      var payloadLen: u32 := pkt.ipTot - hdrs;
      hs := ClassifyHandshake(pkt.frame, payloadOff, payloadLen);
    }

    /** Lines 413-430: is this a first data segment, and what does it say? */
    method ClassifySegment(src: IP, pkt: Policy.Packet, now: u64) returns (hs: Class)
      requires Valid() && pkt.HasPayload()
      modifies this
      ensures Valid()
      ensures hs == SegmentClass(old(Here(src)).here, pkt)
      ensures Here(src) == old(Here(src)).With(MarkFirstData(old(Here(src)).here, now))
    {
      var est := LookupEstablished(src);
      var firstSegment := true;
      if est.Some? {
        var mark := LookupFirstData(src);
        if mark.Some? {
          var open := LookupOpenCount(src);
          firstSegment := open.Some? && open.value > 1;
        } else {
          UpdateFirstData(src, now);
        }
      }

      hs := Unmatched;
      if firstSegment {
        hs := ParsePayload(pkt);
      }
      if hs == Malformed && est.Some? {
        hs := Unmatched;
      }
    }

    /** Lines 432-477: act on it. */
    method RouteSegment(src: IP, hs: Class, pkt: Policy.Packet, now: u64)
      returns (verdict: Verdict, ghost outcome: Outcome)
      requires Valid()
      modifies this
      ensures Valid()
      ensures var d := RouteStep(cfg, old(Here(src)).here, hs, pkt, now);
              && outcome == d.outcome && verdict == VerdictOf(outcome) && outcome.ReachedPayload()
              && Here(src) == old(Here(src)).AfterCounted(d, now)
    {
      if hs == Unmatched {
        verdict, outcome := PlayPacket(src, pkt, now);
        return;
      }
      if hs == Malformed {
        StatBump(DropMalformedHandshake);
        return XdpDrop, DroppedMalformed;
      }
      if hs == Status {
        verdict, outcome := StatusPacket(src, now);
        return;
      }
      verdict, outcome := LoginPacket(src, now);
    }

    /** Lines 398-478: the program from the TCP header length on. */
    method InspectPayload(src: IP, pkt: Policy.Packet, now: u64) returns (verdict: Verdict, ghost outcome: Outcome)
      requires Valid()
      modifies this
      ensures Valid()
      ensures var d := PayloadStep(cfg, old(Here(src)).here, pkt, now);
              && outcome == d.outcome && verdict == VerdictOf(outcome)
              && Here(src) == old(Here(src)).After(d, now)
    {
      var tcpHlen: u32 := pkt.doff * 4;
      if tcpHlen < 20 {
        return XdpPass, BadHeaderPass;
      }
      if 14 + pkt.ihl * 4 + tcpHlen > |pkt.frame| {
        return XdpPass, BadHeaderPass;
      }

      StatBump(PassTcp);

      if pkt.ipTot <= pkt.ihl * 4 + tcpHlen {
        return XdpPass, NoPayloadPass;
      }
      var hs := ClassifySegment(src, pkt, now);
      verdict, outcome := RouteSegment(src, hs, pkt, now);
    }

    /** Lines 345-349: a trusted source over its rate; a ban costs it its trust. */
    method PunishTrusted(src: IP, now: u64)
      requires Valid()
      modifies this
      ensures Valid()
      ensures var s := old(Here(src)).here;
              var h := Some(RecordAnomaly(cfg, s.health, now));
              var u := s.(health := h, whitelist := if Banned(h, now) then None else s.whitelist);
              Here(src) == old(Here(src)).With(u).Dropped(ConnRatelimit, now)
    {
      HealthRecordAnomaly(src, now);
      var banned := HealthIsBlacklisted(src, now);
      if banned {
        DeleteWhitelist(src);
      }
      Drop(src, ConnRatelimit, now);
    }

    method AtCap(src: IP) returns (capped: bool)
      requires Valid()
      ensures capped == AtOpenCap(cfg, Here(src).here)
    {
      if cfg.maxOpenPerIp > 0 {
        var open := LookupOpenCount(src);
        return open.Some? && open.value >= cfg.maxOpenPerIp;
      }
      return false;
    }

    /** Lines 352-362: a trusted source within its rate; passing renews its trust. */
    method TrustedWithinRate(src: IP, pkt: Policy.Packet, now: u64) returns (verdict: Verdict, ghost outcome: Outcome)
      requires Valid()
      modifies this
      ensures Valid()
      ensures var was := old(Here(src));
              var capped := pkt.flags.syn && AtOpenCap(cfg, was.here);
              && outcome == (if capped then TrustedTooManyOpen else TrustedPass) && verdict == VerdictOf(outcome)
              && Here(src) == if capped then was.Dropped(TooManyOpen, now)
                              else was.With(was.here.(whitelist := Some(now))).Bumped(PassTcp)
    {
      if pkt.flags.syn {
        var capped := AtCap(src);
        if capped {
          Drop(src, TooManyOpen, now);
          return XdpDrop, TrustedTooManyOpen;
        }
      }
      UpdateWhitelist(src, now);
      StatBump(PassTcp);
      return XdpPass, TrustedPass;
    }

    /** Lines 344-362, for a source whose trust has not expired. */
    method TrustedPacket(src: IP, pkt: Policy.Packet, now: u64) returns (verdict: Verdict, ghost outcome: Outcome)
      requires Valid()
      modifies this
      ensures Valid()
      ensures var d := TrustedStep(cfg, old(Here(src)).here, pkt, now);
              && outcome == d.outcome && verdict == VerdictOf(outcome)
              && Here(src) == old(Here(src)).After(d, now)
    {
      var ok := ConnRatelimitTake(src, pkt.ipTot, now);
      if !ok {
        PunishTrusted(src, now);
        return XdpDrop, TrustedOverRate;
      }
      verdict, outcome := TrustedWithinRate(src, pkt, now);
    }

    /** Lines 374-388: the gates that concern the source alone. */
    method PerIpGates(src: IP, now: u64) returns (passed: bool, ghost outcome: Outcome)
      requires Valid()
      modifies this
      ensures Valid()
      ensures var was := old(Here(src));
              var (syn, ok) := SynTake(cfg, was.here, now);
              if AtOpenCap(cfg, was.here) then
                !passed && outcome == DroppedTooManyOpen && Here(src) == was.Dropped(TooManyOpen, now)
              else
                var paid := was.With(was.here.(syn := syn));
                && passed == ok && (!ok ==> outcome == DroppedConnRate)
                && Here(src) == if ok then paid else paid.Dropped(ConnRate, now)
    {
      outcome := NoPacket;
      var capped := AtCap(src);
      if capped {
        Drop(src, TooManyOpen, now);
        return false, DroppedTooManyOpen;
      }
      if cfg.connNewPeriod > 0 && cfg.connNewBurst > 0 {
        var ok := RatelimitTake(SynBuckets, src, now, cfg.connNewPeriod, cfg.connNewBurst);
        if !ok {
          Drop(src, ConnRate, now);
          return false, DroppedConnRate;
        }
      }
      return true, NoPacket;
    }

    /** Lines 373-396: the gates a SYN passes before it is remembered. */
    method SynGates(src: IP, cpu: nat, now: u64) returns (passed: bool, ghost outcome: Outcome)
      requires Valid()
      modifies this
      ensures Valid()
      ensures var (left, refusal) := GatedScene(cfg, old(Here(src)), cpu, now);
              match refusal
              case None => passed && Here(src) == left
              case Some(o) => !passed && outcome == o && Here(src) == left.Dropped(o.DropReason().value, now)
    {
      passed, outcome := PerIpGates(src, now);
      if !passed {
        return;
      }
      var ok := TcpGlobalRatelimitTake(cpu, now);
      if !ok {
        Drop(src, GlobalRatelimit, now);
        return false, DroppedGlobal;
      }
      UpdateSynSeen(src, now);
      return true, NoPacket;
    }

    /** Lines 366-372: a packet that is no SYN needs a SYN or an establishment before it. */
    method Continue(src: IP, pkt: Policy.Packet, now: u64) returns (verdict: Verdict, ghost outcome: Outcome)
      requires Valid() && !pkt.flags.syn
      modifies this
      ensures Valid()
      ensures var d := UntrustedStep(cfg, old(Here(src)).here, pkt, now, true);
              && outcome == d.outcome && verdict == VerdictOf(outcome)
              && Here(src) == old(Here(src)).After(d, now)
    {
      var seen := LookupSynSeen(src);
      var est := LookupEstablished(src);
      if seen.None? && est.None? {
        Drop(src, NoSyn, now);
        return XdpDrop, DroppedNoSyn;
      }
      verdict, outcome := InspectPayload(src, pkt, now);
    }

    /** Lines 366-478: a source that is not trusted. */
    method UntrustedPacket(src: IP, cpu: nat, pkt: Policy.Packet, now: u64)
      returns (verdict: Verdict, ghost outcome: Outcome)
      requires Valid()
      modifies this
      ensures Valid()
      ensures var was := old(Here(src));
              var (taken, breaker) := BreakerTake(cfg, was.breakers, cpu, now);
              var d := UntrustedStep(cfg, was.here, pkt, now, breaker);
              var asked := pkt.flags.syn && !AtOpenCap(cfg, was.here) && SynTake(cfg, was.here, now).1;
              && outcome == d.outcome && verdict == VerdictOf(outcome)
              && Here(src) == was.After(d, now).(breakers := if asked then taken else was.breakers)
    {
      if !pkt.flags.syn {
        verdict, outcome := Continue(src, pkt, now);
        return;
      }
      SynIsGated(cfg, Here(src).here, pkt, now, BreakerTake(cfg, world.breakers, cpu, now).1);
      var passed;
      passed, outcome := SynGates(src, cpu, now);
      if !passed {
        return XdpDrop, outcome;
      }
      verdict, outcome := InspectPayload(src, pkt, now);
    }

    /** Lines 338-478: trust decides which path a packet takes. */
    method WeighTrust(src: IP, cpu: nat, pkt: Policy.Packet, now: u64)
      returns (verdict: Verdict, ghost outcome: Outcome)
      requires Valid()
      modifies this
      ensures Valid()
      ensures var was := old(Here(src));
              var (taken, breaker) := BreakerTake(cfg, was.breakers, cpu, now);
              var trusted := Trusted(cfg, was.here, now);
              var d := if trusted then TrustedStep(cfg, was.here, pkt, now)
                       else UntrustedStep(cfg, was.here.(whitelist := None), pkt, now, breaker);
              var asked := !trusted && pkt.flags.syn && !AtOpenCap(cfg, was.here) && SynTake(cfg, was.here, now).1;
              && outcome == d.outcome && verdict == VerdictOf(outcome)
              && Here(src) == was.After(d, now).(breakers := if asked then taken else was.breakers)
    {
      var wl := LookupWhitelist(src);
      if wl.Some? {
        if cfg.whitelistTtl > 0 && Sub64(now, wl.value) > cfg.whitelistTtl {
          DeleteWhitelist(src);
        } else {
          verdict, outcome := TrustedPacket(src, pkt, now);
          return;
        }
      }
      verdict, outcome := UntrustedPacket(src, cpu, pkt, now);
    }

    method RunXdp(src: IP, cpu: nat, pkt: Policy.Packet, now: u64)
      returns (verdict: Verdict, ghost outcome: Outcome)
      requires Valid()
      modifies this
      ensures Valid()
      ensures var (next, o) := PacketNext(cfg, old(world), src, cpu, pkt, now);
              outcome == o && verdict == VerdictOf(outcome) && Here(src) == SceneOf(next, src)
    {
      PutApart(world.ips, src, PacketNext(cfg, world, src, cpu, pkt, now).0.At(src));
      if !pkt.parsed {
        return XdpPass, NotTarget;
      }
      if pkt.dport != cfg.targetPort {
        return XdpPass, NotTarget;
      }
      if pkt.flags.Bogus() {
        Drop(src, BadFlags, now);
        return XdpDrop, DroppedBadFlags;
      }
      var banned := HealthIsBlacklisted(src, now);
      if banned {
        Drop(src, Unhealthy, now);
        return XdpDrop, DroppedBanned;
      }
      verdict, outcome := WeighTrust(src, cpu, pkt, now);
    }

    /** minecraft_xdp: one packet, seen on one CPU at one instant. */
    method MinecraftXdp(src: IP, cpu: nat, pkt: Policy.Packet, now: u64)
      returns (verdict: Verdict, ghost outcome: Outcome)
      requires Valid()
      modifies this
      ensures Valid()
      ensures (world, outcome) == PacketNext(cfg, old(world), src, cpu, pkt, now)
      ensures verdict == VerdictOf(outcome)
      ensures var breaker := BreakerTake(cfg, old(world).breakers, cpu, now).1;
              var a := Verdicts.Arrival(cfg, old(world).At(src), pkt, now, breaker);
              verdict == XdpPass <==> forall r: Reason :: !a.Offends(r)
    {
      ghost var next := PacketNext(cfg, world, src, cpu, pkt, now).0;
      Verdicts.PassesExactly(
        Verdicts.Arrival(cfg, world.At(src), pkt, now, BreakerTake(cfg, world.breakers, cpu, now).1));
      verdict, outcome := RunXdp(src, cpu, pkt, now);
      Adopt(next, src);
    }

    /** Lets `world` be the given one, which says the same of every source. */
    ghost method Adopt(next: World, src: IP)
      requires Valid() && Here(src) == SceneOf(next, src)
      modifies this`world
      ensures Valid() && world == next
    {
      forall ip: IP ensures world.At(ip) == next.At(ip) {
        SameScene(world, next, src, ip);
      }
      world := next;
    }

    // ---- minecraft_sockops.bpf.c ----

    /** Lines 13-19. */
    method OpenCountInc(src: IP)
      requires Valid()
      modifies this
      ensures Valid() && Here(src) == old(Here(src)).With(OpenInc(old(Here(src)).here))
    {
      var count := LookupOpenCount(src);
      if count.None? {
        UpdateOpenCount(src, 0);
      }
      count := LookupOpenCount(src);
      if count.Some? {
        UpdateOpenCount(src, Add64(count.value, 1));
      }
    }

    /** What another CPU writes to the counter in between, if anything. */
    method Interfere(src: IP, write: Option<u64>)
      requires Valid() && Here(src).here.openCount.Some?
      modifies this
      ensures Valid() && Here(src) == old(Here(src)).With(Rival(old(Here(src)).here, write))
    {
      if write.Some? {
        UpdateOpenCount(src, write.value);
      }
    }

    /** Lines 21-39: the compare-and-swap loop, while other CPUs write the counter as `race`
        says. Module OpenCounter interleaves whole opens and closes. */
    method OpenCountDec(src: IP, race: seq<Moment>) returns (ending: Option<Ending>)
      requires Valid()
      modifies this
      ensures Valid()
      ensures var s := old(Here(src)).here;
              if s.openCount.None? then ending == None && Here(src) == old(Here(src))
              else ending == Some(RacedDec(s, race, 0).1)
                   && Here(src) == old(Here(src)).With(RacedDec(s, race, 0).0)
    {
      var count := LookupOpenCount(src);
      if count.None? {
        return None;
      }
      ghost var s := Here(src).here;
      for i := 0 to MAX_TRIES
        invariant Valid() && Here(src).here.openCount.Some?
        invariant Here(src) == old(Here(src)).With(Here(src).here)
        invariant RacedDec(Here(src).here, race, i) == RacedDec(s, race, 0)
      {
        Interfere(src, MomentAt(race, i).beforeRead);
        var cur := LookupOpenCount(src);
        if cur.value == 0 {
          return Some(SawZero);
        }
        Interfere(src, MomentAt(race, i).beforeSwap);
        var found := CompareAndSwap(src, cur.value, cur.value - 1);
        if found == cur.value {
          if cur.value == 1 {
            DeleteEstablished(src);
            DeleteWhitelist(src);
            DeleteFirstData(src);
          }
          return Some(Swapped);
        }
      }
      return Some(GaveUp);
    }

    method CompareAndSwap(src: IP, expected: u64, desired: u64) returns (found: u64)
      requires Valid() && Here(src).here.openCount.Some?
      modifies this
      ensures Valid() && found == old(Here(src)).here.openCount.value
      ensures Here(src) == if found == expected
                           then old(Here(src)).With(old(Here(src)).here.(openCount := Some(desired)))
                           else old(Here(src))
    {
      var count := LookupOpenCount(src);
      found := count.value;
      if found == expected {
        UpdateOpenCount(src, desired);
      }
    }

    /** minecraft_sockops: one socket callback, with nobody racing. */
    method MinecraftSockops(skops: SockOps, now: u64)
      requires Valid()
      modifies this
      ensures Valid()
      ensures world == CallbackNext(cfg, old(world), skops, now)
    {
      if skops.localPort != cfg.targetPort {
        return;
      }
      if skops.family != AF_INET && skops.family != AF_INET6 {
        return;
      }
      var src := skops.remoteIp4;
      if src == 0 {
        return;
      }
      ghost var next := SocketNext(world, src, skops.op, now);
      PutApart(world.ips, src, next.At(src));
      HandleSocketOp(src, skops.op, now);
      Adopt(next, src);
    }

    method HandleSocketOp(src: IP, op: SocketOp, now: u64)
      requires Valid()
      modifies this
      ensures Valid()
      ensures var moved := old(Here(src)).With(SocketStep(old(Here(src)).here, op, now));
              Here(src) == if op.PassiveEstablished? then moved.Bumped(EstablishedInserts) else moved
    {
      match op
      case PassiveEstablished =>
        UpdateEstablished(src, now);
        StatBump(EstablishedInserts);
        OpenCountInc(src);
      case StateChange(before, after) =>
        if CountsAsClose(before, after) {
          ghost var s := Here(src).here;
          var ending := OpenCountDec(src, []);
          if s.openCount.Some? { UndisturbedSwaps(s); }
        }
      case OtherOp =>
    }
  }
}
