/** The bound of Bans.BanCoverage is attained by runs of the datapath, under every packet
    limit: an established source can have an anomaly recorded at whatever instants it
    likes, as long as it is not banned. */
module BanTightness {
  import opened Words
  import opened Maps
  import opened Handshakes
  import opened Buckets
  import opened Policy
  import opened Runs
  import opened Bans

  /** An acknowledgement that declares one byte of payload. */
  function Data(cfg: Config): Policy.Packet {
    Policy.Packet(true, cfg.targetPort, Flags(false, true, false, false, false, false), 5, 5, 41, seq(54, _ => 0))
  }

  function Shot(cfg: Config, t: u64): Event {
    Event.Packet(Data(cfg), t, true)
  }

  /** So many of them at one instant. */
  function Volley(cfg: Config, n: nat, t: u64): seq<Event> {
    if n == 0 then [] else [Shot(cfg, t)] + Volley(cfg, n - 1, t)
  }

  /** Established, and neither trusted nor banned. */
  ghost predicate Open(s: IpState) {
    s.established.Some? && s.whitelist.None?
  }

  lemma DataIsNoHandshake(cfg: Config)
    ensures Data(cfg).HeadersIntact() && Data(cfg).HasPayload() && Data(cfg).HandshakeClass() == Unmatched
  {
  }

  lemma PlayShot(cfg: Config, s: IpState, t: u64)
    requires Open(s)
    ensures var d := PayloadStep(cfg, s, Data(cfg), t);
            var (conn, ok) := ConnTake(cfg, s.conn, 41, t);
            && d.outcome == (if ok then PlayPass else PlayOverRate)
            && Open(d.state) && d.state.conn == conn
            && d.state.health == if ok then s.health else Some(RecordAnomaly(cfg, s.health, t))
  {
    DataIsNoHandshake(cfg);
    assert SegmentClass(s, Data(cfg)) == Unmatched;
  }

  /** One packet of an open source is charged to the connection limits, and only to them. */
  lemma ShotIsCharged(cfg: Config, s: IpState, t: u64)
    requires Open(s) && !Banned(s.health, t)
    ensures var d := Act(cfg, s, Shot(cfg, t));
            var (conn, ok) := ConnTake(cfg, s.conn, 41, t);
            && d.outcome == (if ok then PlayPass else PlayOverRate)
            && Open(d.state) && d.state.conn == conn
            && d.state.health == if ok then s.health else Some(RecordAnomaly(cfg, s.health, t))
  {
    assert s == s.(whitelist := None);
    PlayShot(cfg, s, t);
    assert UntrustedStep(cfg, s, Data(cfg), t, true) == PayloadStep(cfg, s, Data(cfg), t);
  }

  /** Packets the packet bucket would still admit at one instant. */
  function PacketsLeft(cfg: Config, s: IpState, t: u64): nat {
    if s.conn.None? then cfg.connPktBurst else Level(cfg.PktLimit(), PktBucket(s.conn.value), t)
  }

  lemma AdmittedShotCosts(cfg: Config, s: IpState, t: u64)
    requires Bounded(cfg) && cfg.PktOn() && ConnOk(cfg, s.conn, t) && t < TWO63
    requires ConnTake(cfg, s.conn, 41, t).1
    ensures PacketsLeft(cfg, s.(conn := ConnTake(cfg, s.conn, 41, t).0), t) == PacketsLeft(cfg, s, t) - 1
  {
    match s.conn
    case None => FreshKeeps(cfg.PktLimit(), Request(t, 1));
    case Some(c) => SpendKeeps(cfg.PktLimit(), PktBucket(c), Request(t, 1));
  }

  /** One more event of a run, and one event before a run. */
  lemma RunSplit(cfg: Config, s: IpState, a: seq<Event>, b: seq<Event>)
    ensures After(cfg, s, a + b) == After(cfg, After(cfg, s, a), b)
    ensures AnomalyTimes(cfg, s, a + b) == AnomalyTimes(cfg, s, a) + AnomalyTimes(cfg, After(cfg, s, a), b)
    ensures NoTrips(cfg, s, a + b) <==> NoTrips(cfg, s, a) && NoTrips(cfg, After(cfg, s, a), b)
  {
    AfterConcat(cfg, s, a, b);
    AnomaliesConcat(cfg, s, a, b);
    NoTripsConcat(cfg, s, a, b);
  }

  lemma {:induction false} NoTripsConcat(cfg: Config, s: IpState, a: seq<Event>, b: seq<Event>)
    ensures NoTrips(cfg, s, a + b) <==> NoTrips(cfg, s, a) && NoTrips(cfg, After(cfg, s, a), b)
  {
    if b == [] {
      assert a + b == a;
    } else {
      var n := |b| - 1;
      assert (a + b)[..|a| + n] == a + b[..n] && (a + b)[|a| + n] == b[n];
      NoTripsConcat(cfg, s, a, b[..n]);
      AfterConcat(cfg, s, a, b[..n]);
    }
  }

  lemma OneEvent(cfg: Config, s: IpState, e: Event)
    ensures After(cfg, s, [e]) == Act(cfg, s, e).state
    ensures AnomalyTimes(cfg, s, [e]) == if Anomalous(cfg, s, e) then [e.now] else []
    ensures NoTrips(cfg, s, [e]) <==> !StepTrips(cfg, s, e)
  {
    assert [e][..0] == [];
  }

  /** What a volley at t comes to: one anomaly, at t. */
  ghost predicate HitsOnce(cfg: Config, s: IpState, es: seq<Event>, t: u64) {
    && Open(After(cfg, s, es)) && AnomalyTimes(cfg, s, es) == [t]
    && (NoTrips(cfg, s, es) <==> !Trips(cfg, s.health, t))
  }

  lemma ShotBefore(cfg: Config, s: IpState, n: nat, t: u64)
    requires var d := Act(cfg, s, Shot(cfg, t));
             d.outcome.PlayPass? && d.state.health == s.health && HitsOnce(cfg, d.state, Volley(cfg, n, t), t)
    ensures HitsOnce(cfg, s, Volley(cfg, n + 1, t), t)
  {
    OneEvent(cfg, s, Shot(cfg, t));
    RunSplit(cfg, s, [Shot(cfg, t)], Volley(cfg, n, t));
  }

  lemma LastShot(cfg: Config, s: IpState, t: u64)
    requires Open(s) && !Banned(s.health, t) && !ConnTake(cfg, s.conn, 41, t).1
    ensures HitsOnce(cfg, s, Volley(cfg, 1, t), t)
  {
    ShotIsCharged(cfg, s, t);
    OneEvent(cfg, s, Shot(cfg, t));
    assert Volley(cfg, 1, t) == [Shot(cfg, t)];
  }

  /** At any instant enough packets of an open source record exactly one anomaly. */
  lemma {:induction false} VolleyHits(cfg: Config, s: IpState, t: u64) returns (n: nat)
    requires Bounded(cfg) && cfg.PktOn() && t < TWO63 && Sane(cfg, s, t) && Open(s) && !Banned(s.health, t)
    ensures n >= 1 && HitsOnce(cfg, s, Volley(cfg, n, t), t)
    decreases PacketsLeft(cfg, s, t)
  {
    ShotIsCharged(cfg, s, t);
    if ConnTake(cfg, s.conn, 41, t).1 {
      var u := Act(cfg, s, Shot(cfg, t)).state;
      AdmittedShotCosts(cfg, s, t);
      assert PacketsLeft(cfg, u, t) == PacketsLeft(cfg, s, t) - 1;
      ActSane(cfg, s, t, Shot(cfg, t));
      var m := VolleyHits(cfg, u, t);
      ShotBefore(cfg, s, m, t);
      n := m + 1;
    } else {
      LastShot(cfg, s, t);
      n := 1;
    }
  }

  lemma {:induction false} VolleyIsAt(cfg: Config, n: nat, t: u64)
    ensures |Volley(cfg, n, t)| == n
    ensures forall i | 0 <= i < n :: Volley(cfg, n, t)[i] == Shot(cfg, t)
  {
    if n > 0 { VolleyIsAt(cfg, n - 1, t); }
  }

  // ---- Floods ----

  lemma {:induction false} QuietNeverBans(cfg: Config, ts: seq<u64>)
    requires QuietFrom(cfg, ts, 0)
    ensures HealthAfter(cfg, None, ts).Some? ==> HealthAfter(cfg, None, ts).value.blacklistUntil == 0
  {
    if ts != [] {
      var n := |ts| - 1;
      assert !TripsAt(cfg, ts, n);
      QuietPrefix(cfg, ts);
      QuietNeverBans(cfg, ts[..n]);
    }
  }

  /** A run that has recorded the anomalies ts, and been banned for none of them. */
  ghost predicate Floods(cfg: Config, es: seq<Event>, ts: seq<u64>) {
    && Clocked(es) && NoEvictions(es) && Open(After(cfg, UNKNOWN, es))
    && AnomalyTimes(cfg, UNKNOWN, es) == ts && NoTrips(cfg, UNKNOWN, es)
    && (es != [] ==> es[|es| - 1].now <= if ts == [] then 0 else ts[|ts| - 1])
  }

  lemma Established(cfg: Config)
    ensures Floods(cfg, [Socket(PassiveEstablished, 0)], [])
  {
    OneEvent(cfg, UNKNOWN, Socket(PassiveEstablished, 0));
  }

  /** The flood can be made to record one more anomaly, at any later instant that sets no ban. */
  lemma FloodGoesOn(cfg: Config, es: seq<Event>, ts: seq<u64>, t: u64) returns (more: seq<Event>)
    requires Bounded(cfg) && cfg.PktOn() && Floods(cfg, es, ts) && QuietFrom(cfg, ts, 0)
    requires t < TWO63 && (ts != [] ==> ts[|ts| - 1] <= t) && !Trips(cfg, HealthAfter(cfg, None, ts), t)
    ensures Floods(cfg, es + more, ts + [t]) && more != [] && forall i | 0 <= i < |more| :: more[i].now == t
  {
    var s := After(cfg, UNKNOWN, es);
    HealthOfRun(cfg, UNKNOWN, es);
    QuietNeverBans(cfg, ts);
    AfterSane(cfg, UNKNOWN, 0, es);
    SaneLater(cfg, s, if es == [] then 0 else es[|es| - 1].now, t);
    var n := VolleyHits(cfg, s, t);
    VolleyIsAt(cfg, n, t);
    more := Volley(cfg, n, t);
    RunSplit(cfg, UNKNOWN, es, more);
  }

  /** The events reach from the first of the instants to the last. */
  ghost predicate Spans(es: seq<Event>, ts: seq<u64>) {
    if ts == [] then es == []
    else es != [] && es[0].now == ts[0] && es[|es| - 1].now == ts[|ts| - 1]
  }

  lemma SpansSnoc(es: seq<Event>, ts: seq<u64>, more: seq<Event>, t: u64)
    requires Spans(es, ts) && more != [] && forall i | 0 <= i < |more| :: more[i].now == t
    ensures Spans(es + more, ts + [t])
  {
  }

  ghost predicate QuietTimeline(cfg: Config, ts: seq<u64>) {
    Rising(ts) && QuietFrom(cfg, ts, 0)
  }

  lemma QuietTimelineLast(cfg: Config, ts: seq<u64>, t: u64)
    requires QuietTimeline(cfg, ts + [t])
    ensures QuietTimeline(cfg, ts) && t < TWO63 && (ts != [] ==> ts[|ts| - 1] <= t)
    ensures !Trips(cfg, HealthAfter(cfg, None, ts), t)
  {
    var all := ts + [t];
    assert all[..|ts|] == ts && all[|ts|] == t;
    QuietPrefix(cfg, all);
    assert !TripsAt(cfg, all, |ts|);
    assert forall i | 0 <= i < |ts| :: ts[i] == all[i];
  }

  /** ... and one at each of any further instants. */
  lemma {:induction false} FloodAt(cfg: Config, es: seq<Event>, ts: seq<u64>, later: seq<u64>)
    returns (more: seq<Event>)
    requires Bounded(cfg) && cfg.PktOn() && Floods(cfg, es, ts) && QuietTimeline(cfg, ts + later)
    ensures Floods(cfg, es + more, ts + later) && Spans(more, later)
  {
    if later == [] {
      more := [];
      assert es + [] == es && ts + [] == ts;
    } else {
      var before, t := later[..|later| - 1], later[|later| - 1];
      LastApart(ts, later);
      QuietTimelineLast(cfg, ts + before, t);
      var first := FloodAt(cfg, es, ts, before);
      var last := FloodGoesOn(cfg, es + first, ts + before, t);
      SpansSnoc(first, before, last, t);
      more := first + last;
      assert es + first + last == es + more;
    }
  }

  /** The bound is attained: for every threshold T >= 2, every window and every packet
      limit, a run and a window of it, no longer than the health window, in which 2T - 3
      anomalies are recorded and no ban trips. */
  lemma CoverageIsTight(cfg: Config) returns (pre: seq<Event>, win: seq<Event>)
    requires Bounded(cfg) && cfg.PktOn()
    requires cfg.healthThreshold >= 2 && 1 <= cfg.healthWindow && 2 * cfg.healthWindow < TWO63
    ensures Clocked(pre + win) && NoEvictions(pre + win) && win != []
    ensures CountFits(cfg, AnomalyTimes(cfg, UNKNOWN, pre + win))
    ensures win[|win| - 1].now - win[0].now <= cfg.healthWindow
    ensures NoTrips(cfg, After(cfg, UNKNOWN, pre), win)
    ensures |AnomalyTimes(cfg, After(cfg, UNKNOWN, pre), win)| == 2 * cfg.healthThreshold - 3
  {
    var ts := TightTimes(cfg.healthThreshold, cfg.healthWindow);
    QuietBoundIsTight(cfg);
    TightTimesRise(cfg.healthThreshold, cfg.healthWindow);
    forall k | 0 <= k < |ts| ensures !TripsAt(cfg, ts, k) {
      if k == 0 { assert ts[..0] == []; }
    }
    QuietFits(cfg, ts);
    var start := [Socket(PassiveEstablished, 0)];
    Established(cfg);
    assert ts == [] + ts[..1] + ts[1..];
    QuietFirst(cfg, ts);
    var first := FloodAt(cfg, start, [], ts[..1]);
    pre := start + first;
    assert [] + ts[..1] == ts[..1];
    win := FloodAt(cfg, pre, ts[..1], ts[1..]);
    RunSplit(cfg, UNKNOWN, pre, win);
    assert ts[..1] + ts[1..] == ts;
  }

  lemma QuietFirst(cfg: Config, ts: seq<u64>)
    requires ts != [] && Rising(ts)
    ensures QuietTimeline(cfg, [] + ts[..1])
  {
    var one := [] + ts[..1];
    assert one == [ts[0]] && one[..0] == [];
  }

  /** Whatever the threshold, one included: a run whose only anomaly is recorded at a given
      instant and bans the source at no time. */
  lemma FirstAnomalyIsSpared(cfg: Config, t: u64) returns (es: seq<Event>)
    requires Bounded(cfg) && cfg.PktOn() && t < TWO63
    ensures Clocked(es) && NoEvictions(es) && AnomalyTimes(cfg, UNKNOWN, es) == [t]
    ensures forall now: u64 :: !Banned(After(cfg, UNKNOWN, es).health, now)
  {
    var start := [Socket(PassiveEstablished, 0)];
    Established(cfg);
    var more := FloodGoesOn(cfg, start, [], t);
    es := start + more;
    assert [] + [t] == [t];
    HealthOfRun(cfg, UNKNOWN, es);
    assert [t][..0] == [];
  }
}
