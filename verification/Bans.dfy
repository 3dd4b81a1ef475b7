/** Anomalies and bans: what a ban is evidence of, what the absence of bans rules out,
    and exactly how long a ban lasts. */
module Bans {
  import opened Words
  import opened Maps
  import opened Records
  import opened Policy
  import opened Effects
  import opened Runs

  // ---- The health record, fed with anomaly times ----

  function HealthAfter(cfg: Config, h: Option<Health>, ts: seq<u64>): Option<Health> {
    if ts == [] then h
    else Some(RecordAnomaly(cfg, HealthAfter(cfg, h, ts[..|ts| - 1]), ts[|ts| - 1]))
  }

  /** Recording an anomaly now sets the ban. The first anomaly of a source never does. */
  predicate Trips(cfg: Config, h: Option<Health>, now: u64) {
    h.Some? && RecordAnomaly(cfg, h, now).anomalies >= cfg.healthThreshold
  }

  predicate TripsAt(cfg: Config, ts: seq<u64>, k: nat)
    requires k < |ts|
  {
    Trips(cfg, HealthAfter(cfg, None, ts[..k]), ts[k])
  }

  ghost predicate Rising(ts: seq<u64>) {
    && (forall i | 0 <= i < |ts| :: ts[i] < TWO63)
    && (forall i, j | 0 <= i <= j < |ts| :: ts[i] <= ts[j])
  }

  /** The anomaly that opened the window the last one is counted in. */
  function Opened(cfg: Config, ts: seq<u64>): (w: nat)
    requires ts != []
    ensures w < |ts|
  {
    var n := |ts| - 1;
    if n == 0 then 0
    else
      var w := Opened(cfg, ts[..n]);
      if ts[n] - ts[w] > cfg.healthWindow then n else w
  }

  /** No window of the record ever counts as many anomalies as would wrap the 32 bits. */
  ghost predicate CountFits(cfg: Config, ts: seq<u64>) {
    forall k | 0 <= k < |ts| :: CountAt(cfg, ts, k) < TWO32
  }

  /** Anomalies up to number k since the window that counts it was opened. */
  function CountAt(cfg: Config, ts: seq<u64>, k: nat): (n: nat)
    requires k < |ts|
    ensures 1 <= n <= k + 1
  {
    k + 1 - Opened(cfg, ts[..k + 1])
  }

  /** The record's window opened at a recorded anomaly and reaches to the last one; unless
      it wraps, the counter holds the anomalies since. */
  lemma {:induction false} WindowOpened(cfg: Config, ts: seq<u64>)
    requires ts != [] && Rising(ts)
    ensures var w, h := Opened(cfg, ts), HealthAfter(cfg, None, ts);
            && h.Some? && h.value.windowStart == ts[w]
            && ts[|ts| - 1] - ts[w] <= cfg.healthWindow
            && h.value.anomalies <= |ts| - w
            && (|ts| - w < TWO32 ==> h.value.anomalies == |ts| - w)
  {
    var n := |ts| - 1;
    if n == 0 {
      assert HealthAfter(cfg, None, ts[..0]) == None;
    } else {
      WindowOpened(cfg, ts[..n]);
    }
  }

  /** It is enough that no stretch as long as the health window holds so many. */
  lemma FewPerWindowFit(cfg: Config, ts: seq<u64>)
    requires Rising(ts)
    requires forall i, j | 0 <= i <= j < |ts| && ts[j] - ts[i] <= cfg.healthWindow :: j - i + 1 < TWO32
    ensures CountFits(cfg, ts)
  {
    forall k | 0 <= k < |ts| ensures CountAt(cfg, ts, k) < TWO32 {
      WindowOpened(cfg, ts[..k + 1]);
      assert ts[k] - ts[Opened(cfg, ts[..k + 1])] <= cfg.healthWindow;
    }
  }

  /** Exactly which anomalies set a ban: all but the first, from the one on that makes as
      many in their window as the threshold. */
  lemma TripsExactly(cfg: Config, ts: seq<u64>, k: nat)
    requires Rising(ts) && CountFits(cfg, ts) && k < |ts|
    ensures TripsAt(cfg, ts, k) <==> k > 0 && CountAt(cfg, ts, k) >= cfg.healthThreshold
  {
    var upto := ts[..k + 1];
    assert upto[..k] == ts[..k];
    assert CountAt(cfg, ts, k) < TWO32;
    WindowOpened(cfg, upto);
    if k > 0 { WindowOpened(cfg, ts[..k]); }
  }

  /** With a threshold of at most one every anomaly sets a ban except the very first. */
  lemma SmallThreshold(cfg: Config, ts: seq<u64>, k: nat)
    requires Rising(ts) && CountFits(cfg, ts) && k < |ts| && cfg.healthThreshold <= 1
    ensures TripsAt(cfg, ts, k) <==> k > 0
  {
    TripsExactly(cfg, ts, k);
  }

  /** Soundness: a ban is witnessed by the last `threshold` recorded anomalies, all of
      them within the window that ends at the one that trips it. */
  lemma BanIsWitnessed(cfg: Config, ts: seq<u64>, k: nat)
    requires Rising(ts) && k < |ts| && TripsAt(cfg, ts, k)
    ensures cfg.healthThreshold <= k + 1
    ensures forall i | k + 1 - cfg.healthThreshold <= i <= k :: ts[k] - ts[i] <= cfg.healthWindow
  {
    var upto := ts[..k + 1];
    assert upto[..k] == ts[..k];
    WindowOpened(cfg, upto);
  }

  /** Coverage: if no anomaly of a stretch no longer than the window trips, the stretch
      holds at most 2T - 3 of them. */
  lemma QuietStretch(cfg: Config, ts: seq<u64>, i: nat, j: nat)
    requires Rising(ts) && CountFits(cfg, ts) && cfg.healthThreshold >= 2
    requires i < j <= |ts| && ts[j - 1] - ts[i] <= cfg.healthWindow
    requires forall k | i <= k < j :: !TripsAt(cfg, ts, k)
    ensures j - i <= 2 * cfg.healthThreshold - 3
  {
    QuietCount(cfg, ts, i, j);
    NotTripped(cfg, ts, j - 1);
  }

  lemma NotTripped(cfg: Config, ts: seq<u64>, k: nat)
    requires k < |ts| && !TripsAt(cfg, ts, k) && cfg.healthThreshold >= 2
    ensures HealthAfter(cfg, None, ts[..k + 1]).Some?
    ensures HealthAfter(cfg, None, ts[..k + 1]).value.anomalies < cfg.healthThreshold
  {
    assert ts[..k + 1][..k] == ts[..k];
  }

  lemma RecordNext(cfg: Config, ts: seq<u64>, k: nat)
    requires 1 <= k < |ts| && Rising(ts)
    ensures var h := HealthAfter(cfg, None, ts[..k]);
            && h.Some? && h.value.windowStart <= ts[k]
            && HealthAfter(cfg, None, ts[..k + 1]) == Some(RecordAnomaly(cfg, h, ts[k]))
  {
    WindowOpened(cfg, ts[..k]);
    assert ts[..k + 1][..k] == ts[..k];
  }

  lemma QuietBegins(cfg: Config, ts: seq<u64>, i: nat)
    requires Rising(ts) && CountFits(cfg, ts) && i < |ts|
    ensures var h := HealthAfter(cfg, None, ts[..i + 1]);
            h.Some? && Counts(cfg, h.value, ts[i], 1)
  {
    assert CountAt(cfg, ts, i) < TWO32;
    WindowOpened(cfg, ts[..i + 1]);
  }

  /** The record opened its window at i and counts the stretch from there; or opened it
      before i and counts more; or reopened it inside the stretch, after at most T - 2. */
  lemma {:induction false} QuietCount(cfg: Config, ts: seq<u64>, i: nat, k: nat)
    requires Rising(ts) && CountFits(cfg, ts) && cfg.healthThreshold >= 2
    requires i < k <= |ts| && ts[k - 1] - ts[i] <= cfg.healthWindow
    requires forall m | i <= m < k :: !TripsAt(cfg, ts, m)
    ensures var h := HealthAfter(cfg, None, ts[..k]);
            h.Some? && Counts(cfg, h.value, ts[i], k - i)
  {
    if k == i + 1 {
      QuietBegins(cfg, ts, i);
    } else {
      QuietCount(cfg, ts, i, k - 1);
      NotTripped(cfg, ts, k - 2);
      RecordNext(cfg, ts, k - 1);
      QuietStep(cfg, HealthAfter(cfg, None, ts[..k - 1]).value, ts[i], ts[k - 1], k - 1 - i);
    }
  }

  ghost predicate Counts(cfg: Config, h: Health, since: u64, n: int) {
    || (h.windowStart == since && n <= h.anomalies)
    || n + 1 <= h.anomalies
    || (h.windowStart >= since && n <= cfg.healthThreshold - 2 + h.anomalies)
  }

  lemma QuietStep(cfg: Config, h: Health, since: u64, now: u64, n: int)
    requires cfg.healthThreshold >= 2 && h.anomalies < cfg.healthThreshold
    requires since <= now && h.windowStart <= now && now - since <= cfg.healthWindow
    requires Counts(cfg, h, since, n)
    ensures Counts(cfg, RecordAnomaly(cfg, Some(h), now), since, n + 1)
  {
  }

  // ---- The bound of QuietStretch is attained ----

  /** No anomaly from number `first` on sets a ban. */
  ghost predicate QuietFrom(cfg: Config, ts: seq<u64>, first: nat) {
    forall k | first <= k < |ts| :: !TripsAt(cfg, ts, k)
  }

  lemma QuietSnoc(cfg: Config, ts: seq<u64>, t: u64, first: nat)
    requires QuietFrom(cfg, ts, first) && !Trips(cfg, HealthAfter(cfg, None, ts), t)
    ensures QuietFrom(cfg, ts + [t], first)
    ensures HealthAfter(cfg, None, ts + [t]) == Some(RecordAnomaly(cfg, HealthAfter(cfg, None, ts), t))
  {
    var all := ts + [t];
    assert all[..|ts|] == ts;
    forall k | first <= k < |all| ensures !TripsAt(cfg, all, k) {
      if k < |ts| {
        assert all[..k] == ts[..k] && !TripsAt(cfg, ts, k);
      }
    }
  }

  /** Anomalies that set no ban never fill the counter. */
  lemma {:induction false} QuietFits(cfg: Config, ts: seq<u64>)
    requires cfg.healthThreshold >= 2 && Rising(ts) && QuietFrom(cfg, ts, 0)
    ensures CountFits(cfg, ts) && forall k | 0 <= k < |ts| :: CountAt(cfg, ts, k) < cfg.healthThreshold
  {
    if ts != [] {
      var n := |ts| - 1;
      var before := ts[..n];
      QuietPrefix(cfg, ts);
      QuietFits(cfg, before);
      forall k | 0 <= k < n ensures CountAt(cfg, ts, k) == CountAt(cfg, before, k) {
        assert before[..k + 1] == ts[..k + 1];
      }
      QuietLast(cfg, ts);
    }
  }

  lemma QuietLast(cfg: Config, ts: seq<u64>)
    requires cfg.healthThreshold >= 2 && Rising(ts) && QuietFrom(cfg, ts, 0) && ts != []
    requires forall k | 0 <= k < |ts| - 1 :: CountAt(cfg, ts, k) < cfg.healthThreshold
    ensures CountAt(cfg, ts, |ts| - 1) < cfg.healthThreshold
  {
    var n := |ts| - 1;
    assert ts[..n + 1] == ts;
    if n > 0 {
      assert CountAt(cfg, ts, n - 1) < cfg.healthThreshold;
      assert CountAt(cfg, ts, n) <= CountAt(cfg, ts, n - 1) + 1;
    }
    assert CountFits(cfg, ts);
    assert !TripsAt(cfg, ts, n);
    TripsExactly(cfg, ts, n);
  }

  lemma QuietPrefix(cfg: Config, ts: seq<u64>)
    requires ts != [] && QuietFrom(cfg, ts, 0)
    ensures QuietFrom(cfg, ts[..|ts| - 1], 0)
  {
    var before := ts[..|ts| - 1];
    forall k | 0 <= k < |before| ensures !TripsAt(cfg, before, k) {
      assert before[..k] == ts[..k] && !TripsAt(cfg, ts, k);
    }
  }

  /** The instants ts and then n times t. */
  function Repeat(ts: seq<u64>, n: nat, t: u64): seq<u64> {
    if n == 0 then ts else Repeat(ts, n - 1, t) + [t]
  }

  lemma {:induction false} RepeatRises(ts: seq<u64>, n: nat, t: u64)
    requires ts != [] && Rising(ts) && ts[|ts| - 1] <= t < TWO63
    ensures var us := Repeat(ts, n, t);
            && |us| == |ts| + n && Rising(us)
            && (forall i | 0 <= i < |ts| :: us[i] == ts[i]) && (forall i | |ts| <= i < |us| :: us[i] == t)
  {
    if n > 0 { RepeatRises(ts, n - 1, t); }
  }

  /** An anomaly at 0, T - 2 at W, which the window from 0 still covers; one just past that
      window, which opens another; and T - 2 at 2W, which that one still covers. */
  function TightTimes(threshold: nat, window: u64): seq<u64>
    requires threshold >= 2 && 2 * window < TWO63
  {
    Repeat(Repeat([0], threshold - 2, window) + [window + 1], threshold - 2, 2 * window)
  }

  lemma CountsUp(cfg: Config, h: Health, k: nat, t: u64)
    requires h.windowStart <= t && t - h.windowStart <= cfg.healthWindow && h.anomalies + k + 1 < cfg.healthThreshold
    ensures var one := h.(anomalies := h.anomalies + k);
            && !Trips(cfg, Some(one), t)
            && RecordAnomaly(cfg, Some(one), t) == h.(anomalies := h.anomalies + k + 1)
  {
  }

  lemma OneMoreCounts(cfg: Config, ts: seq<u64>, t: u64, h: Health, k: nat, first: nat)
    requires h.windowStart <= t && t - h.windowStart <= cfg.healthWindow && h.anomalies + k + 1 < cfg.healthThreshold
    requires HealthAfter(cfg, None, ts) == Some(h.(anomalies := h.anomalies + k)) && QuietFrom(cfg, ts, first)
    ensures HealthAfter(cfg, None, ts + [t]) == Some(h.(anomalies := h.anomalies + k + 1))
    ensures QuietFrom(cfg, ts + [t], first)
  {
    CountsUp(cfg, h, k, t);
    QuietSnoc(cfg, ts, t, first);
  }

  /** While anomalies stay inside the window and below the threshold they only count up. */
  lemma {:induction false} RepeatsCountUp(cfg: Config, ts: seq<u64>, n: nat, t: u64, h: Health, first: nat)
    requires HealthAfter(cfg, None, ts) == Some(h) && QuietFrom(cfg, ts, first)
    requires h.windowStart <= t && t - h.windowStart <= cfg.healthWindow
    requires h.anomalies + n < cfg.healthThreshold
    ensures HealthAfter(cfg, None, Repeat(ts, n, t)) == Some(h.(anomalies := h.anomalies + n))
    ensures QuietFrom(cfg, Repeat(ts, n, t), first)
  {
    if n > 0 {
      RepeatsCountUp(cfg, ts, n - 1, t, h, first);
      OneMoreCounts(cfg, Repeat(ts, n - 1, t), t, h, n - 1, first);
    }
  }

  lemma TightTimesRise(threshold: nat, window: u64)
    requires threshold >= 2 && 1 <= window && 2 * window < TWO63
    ensures var ts := TightTimes(threshold, window);
            && Rising(ts) && |ts| == 2 * threshold - 2
            && ts[1] >= window && ts[|ts| - 1] <= 2 * window
  {
    RepeatRises([0], threshold - 2, window);
    RepeatRises(Repeat([0], threshold - 2, window) + [window + 1], threshold - 2, 2 * window);
  }

  lemma FirstWindow(cfg: Config)
    requires cfg.healthThreshold >= 2
    ensures var ts := Repeat([0], cfg.healthThreshold - 2, cfg.healthWindow);
            HealthAfter(cfg, None, ts) == Some(Health(cfg.healthThreshold - 1, 0, 0)) && QuietFrom(cfg, ts, 1)
  {
    assert HealthAfter(cfg, None, [0]) == Some(Health(1, 0, 0)) by { assert [0][..0] == []; }
    RepeatsCountUp(cfg, [0], cfg.healthThreshold - 2, cfg.healthWindow, Health(1, 0, 0), 1);
  }

  /** An anomaly past the window opens another and sets no ban. */
  lemma NextWindow(cfg: Config, ts: seq<u64>, h: Health, t: u64)
    requires cfg.healthThreshold >= 2 && HealthAfter(cfg, None, ts) == Some(h) && QuietFrom(cfg, ts, 1)
    requires h.windowStart <= t && t - h.windowStart > cfg.healthWindow
    ensures HealthAfter(cfg, None, ts + [t]) == Some(Health(1, t, h.blacklistUntil)) && QuietFrom(cfg, ts + [t], 1)
  {
    QuietSnoc(cfg, ts, t, 1);
  }

  lemma SecondWindow(cfg: Config)
    requires cfg.healthThreshold >= 2 && 1 <= cfg.healthWindow && 2 * cfg.healthWindow < TWO63
    ensures QuietFrom(cfg, TightTimes(cfg.healthThreshold, cfg.healthWindow), 1)
  {
    var t, w := cfg.healthThreshold, cfg.healthWindow;
    var ts := Repeat([0], t - 2, w);
    FirstWindow(cfg);
    NextWindow(cfg, ts, Health(t - 1, 0, 0), w + 1);
    RepeatsCountUp(cfg, ts + [w + 1], t - 2, 2 * w, Health(1, w + 1, 0), 1);
  }

  /** For every threshold T >= 2 and every window, 2T - 3 anomalies, no two of them further
      apart than the window, can pass without one of them setting a ban. */
  lemma QuietBoundIsTight(cfg: Config)
    requires cfg.healthThreshold >= 2 && 1 <= cfg.healthWindow && 2 * cfg.healthWindow < TWO63
    ensures var ts := TightTimes(cfg.healthThreshold, cfg.healthWindow);
            && Rising(ts) && |ts| - 1 == 2 * cfg.healthThreshold - 3
            && QuietFrom(cfg, ts, 1) && ts[|ts| - 1] - ts[1] <= cfg.healthWindow
  {
    TightTimesRise(cfg.healthThreshold, cfg.healthWindow);
    SecondWindow(cfg);
  }

  // ---- The health record of a run ----

  predicate Anomalous(cfg: Config, s: IpState, e: Event) {
    OverRate(Act(cfg, s, e).outcome)
  }

  /** The instants at which a run records an anomaly. */
  function AnomalyTimes(cfg: Config, s: IpState, es: seq<Event>): seq<u64> {
    if es == [] then []
    else
      var before, e := es[..|es| - 1], es[|es| - 1];
      AnomalyTimes(cfg, s, before) + if Anomalous(cfg, After(cfg, s, before), e) then [e.now] else []
  }

  lemma ActHealth(cfg: Config, s: IpState, e: Event)
    requires !e.Evict?
    ensures Act(cfg, s, e).state.health
            == if Anomalous(cfg, s, e) then Some(RecordAnomaly(cfg, s.health, e.now)) else s.health
  {
    match e {
      case Packet(pkt, now, breaker) => PacketMoves(cfg, s, pkt, now, breaker);
      case Socket(op, now) => SocketStepMoves(s, op, now);
    }
  }

  lemma {:induction false} HealthOfRun(cfg: Config, s: IpState, es: seq<Event>)
    requires NoEvictions(es)
    ensures After(cfg, s, es).health == HealthAfter(cfg, s.health, AnomalyTimes(cfg, s, es))
  {
    if es != [] {
      var n := |es| - 1;
      var u := After(cfg, s, es[..n]);
      var ts := AnomalyTimes(cfg, s, es[..n]);
      HealthOfRun(cfg, s, es[..n]);
      ActHealth(cfg, u, es[n]);
      if Anomalous(cfg, u, es[n]) {
        assert (ts + [es[n].now])[..|ts|] == ts;
      } else {
        assert ts + [] == ts;
      }
    }
  }

  ghost predicate Within(ts: seq<u64>, first: int, last: int) {
    Rising(ts) && (ts != [] ==> first <= ts[0] && ts[|ts| - 1] <= last)
  }

  lemma RiseSnoc(ts: seq<u64>, add: bool, first: int, t: int, last: u64)
    requires Within(ts, first, t) && t <= last && first <= last < TWO63
    ensures Within(ts + if add then [last] else [], first, last)
  {
  }

  lemma {:induction false} AnomaliesRise(cfg: Config, s: IpState, es: seq<Event>)
    requires Clocked(es) && es != []
    ensures Within(AnomalyTimes(cfg, s, es), es[0].now, es[|es| - 1].now) && |AnomalyTimes(cfg, s, es)| <= |es|
  {
    var n := |es| - 1;
    var before, now := es[..n], es[n].now;
    var add := Anomalous(cfg, After(cfg, s, before), es[n]);
    if n == 0 {
      RiseSnoc([], add, now, now, now);
    } else {
      AnomaliesRise(cfg, s, before);
      RiseSnoc(AnomalyTimes(cfg, s, before), add, es[0].now, es[n - 1].now, now);
    }
  }

  function Recorded(cfg: Config, s: IpState, e: Event): seq<u64> {
    if Anomalous(cfg, s, e) then [e.now] else []
  }

  lemma AnomaliesSnoc(cfg: Config, s: IpState, es: seq<Event>, e: Event)
    ensures AnomalyTimes(cfg, s, es + [e]) == AnomalyTimes(cfg, s, es) + Recorded(cfg, After(cfg, s, es), e)
  {
    assert (es + [e])[..|es|] == es;
  }

  lemma LastApart<T>(a: seq<T>, b: seq<T>)
    requires b != []
    ensures b == b[..|b| - 1] + [b[|b| - 1]] && a + b == a + b[..|b| - 1] + [b[|b| - 1]]
  {
  }

  lemma {:induction false} AnomaliesConcat(cfg: Config, s: IpState, a: seq<Event>, b: seq<Event>)
    ensures AnomalyTimes(cfg, s, a + b) == AnomalyTimes(cfg, s, a) + AnomalyTimes(cfg, After(cfg, s, a), b)
  {
    if b == [] {
      assert a + b == a;
    } else {
      var c, e := b[..|b| - 1], b[|b| - 1];
      AnomaliesConcat(cfg, s, a, c);
      AfterConcat(cfg, s, a, c);
      AnomaliesSnoc(cfg, s, a + c, e);
      AnomaliesSnoc(cfg, After(cfg, s, a), c, e);
      LastApart(a, b);
    }
  }

  /** After any run the anomaly counter holds exactly the anomalies recorded since its window
      opened: it has not wrapped, if none of its windows counts 2^32. */
  lemma AnomalyCounterIsExact(cfg: Config, es: seq<Event>)
    requires NoEvictions(es) && Clocked(es) && CountFits(cfg, AnomalyTimes(cfg, UNKNOWN, es))
    ensures var h, ts := After(cfg, UNKNOWN, es).health, AnomalyTimes(cfg, UNKNOWN, es);
            && (h.Some? <==> ts != [])
            && (h.Some? ==> && h.value.anomalies == |ts| - Opened(cfg, ts)
                            && h.value.windowStart == ts[Opened(cfg, ts)])
  {
    var ts := AnomalyTimes(cfg, UNKNOWN, es);
    HealthOfRun(cfg, UNKNOWN, es);
    if es != [] { AnomaliesRise(cfg, UNKNOWN, es); }
    if ts != [] {
      assert ts[..|ts|] == ts && CountAt(cfg, ts, |ts| - 1) < TWO32;
      WindowOpened(cfg, ts);
    }
  }

  /** A step that sets the ban. */
  predicate StepTrips(cfg: Config, s: IpState, e: Event) {
    Anomalous(cfg, s, e) && Trips(cfg, s.health, e.now)
  }

  /** The anomalies of a run that ends in a ban: the last `threshold` of them all lie
      within the window before it. */
  lemma BanSoundness(cfg: Config, es: seq<Event>, e: Event)
    requires Clocked(es + [e]) && NoEvictions(es + [e])
    requires StepTrips(cfg, After(cfg, UNKNOWN, es), e)
    ensures var ts := AnomalyTimes(cfg, UNKNOWN, es + [e]);
            && cfg.healthThreshold <= |ts|
            && forall i | |ts| - cfg.healthThreshold <= i < |ts| :: e.now - ts[i] <= cfg.healthWindow
  {
    var all := es + [e];
    assert all[..|es|] == es;
    var ts := AnomalyTimes(cfg, UNKNOWN, all);
    AnomaliesRise(cfg, UNKNOWN, all);
    assert NoEvictions(es) by { assert forall i | 0 <= i < |es| :: es[i] == all[i]; }
    HealthOfRun(cfg, UNKNOWN, es);
    assert ts[..|ts| - 1] == AnomalyTimes(cfg, UNKNOWN, es);
    BanIsWitnessed(cfg, ts, |ts| - 1);
  }

  /** Only such a step bans: a source that was not banned and now is has just tripped. */
  lemma OnlyTripsBan(cfg: Config, s: IpState, e: Event)
    requires !Banned(s.health, e.now) && Banned(Act(cfg, s, e).state.health, e.now) && !e.Evict?
    ensures StepTrips(cfg, s, e)
  {
    ActHealth(cfg, s, e);
  }

  /** No step of the run sets a ban. */
  predicate NoTrips(cfg: Config, s: IpState, es: seq<Event>) {
    es == []
    || (var before := es[..|es| - 1];
        NoTrips(cfg, s, before) && !StepTrips(cfg, After(cfg, s, before), es[|es| - 1]))
  }

  lemma {:induction false} QuietTimes(cfg: Config, s: IpState, win: seq<Event>, pre: seq<u64>)
    requires NoEvictions(win) && s.health == HealthAfter(cfg, None, pre) && NoTrips(cfg, s, win)
    ensures var ts := pre + AnomalyTimes(cfg, s, win);
            After(cfg, s, win).health == HealthAfter(cfg, None, ts) && QuietFrom(cfg, ts, |pre|)
  {
    if win == [] {
      assert pre + [] == pre;
    } else {
      var n := |win| - 1;
      QuietTimes(cfg, s, win[..n], pre);
      var u := After(cfg, s, win[..n]);
      ActHealth(cfg, u, win[n]);
      var ts := pre + AnomalyTimes(cfg, s, win[..n]);
      if Anomalous(cfg, u, win[n]) {
        QuietSnoc(cfg, ts, win[n].now, |pre|);
        assert pre + AnomalyTimes(cfg, s, win) == ts + [win[n].now];
      } else {
        assert pre + AnomalyTimes(cfg, s, win) == ts;
      }
    }
  }

  lemma PartsOfRun(pre: seq<Event>, win: seq<Event>)
    requires Clocked(pre + win) && NoEvictions(pre + win)
    ensures NoEvictions(pre) && NoEvictions(win) && Clocked(win)
  {
    var es := pre + win;
    assert forall i | 0 <= i < |pre| :: pre[i] == es[i];
    assert forall i | 0 <= i < |win| :: win[i] == es[|pre| + i];
  }

  /** The window's anomalies, after those before it, keep the health record and trip nothing. */
  lemma QuietWindow(cfg: Config, pre: seq<Event>, win: seq<Event>)
    requires Clocked(pre + win) && NoEvictions(pre + win) && win != []
    requires NoTrips(cfg, After(cfg, UNKNOWN, pre), win)
    ensures var before := AnomalyTimes(cfg, UNKNOWN, pre);
            var ts := before + AnomalyTimes(cfg, After(cfg, UNKNOWN, pre), win);
            && ts == AnomalyTimes(cfg, UNKNOWN, pre + win)
            && Rising(ts) && QuietFrom(cfg, ts, |before|)
  {
    PartsOfRun(pre, win);
    HealthOfRun(cfg, UNKNOWN, pre);
    QuietTimes(cfg, After(cfg, UNKNOWN, pre), win, AnomalyTimes(cfg, UNKNOWN, pre));
    AnomaliesConcat(cfg, UNKNOWN, pre, win);
    AnomaliesRise(cfg, UNKNOWN, pre + win);
  }

  /** A window of a run, no longer than the health window, in which no ban trips holds at
      most 2T - 3 anomalies. */
  lemma BanCoverage(cfg: Config, pre: seq<Event>, win: seq<Event>)
    requires Clocked(pre + win) && NoEvictions(pre + win) && CountFits(cfg, AnomalyTimes(cfg, UNKNOWN, pre + win))
    requires cfg.healthThreshold >= 2 && win != []
    requires win[|win| - 1].now - win[0].now <= cfg.healthWindow
    requires NoTrips(cfg, After(cfg, UNKNOWN, pre), win)
    ensures |AnomalyTimes(cfg, After(cfg, UNKNOWN, pre), win)| <= 2 * cfg.healthThreshold - 3
  {
    var s := After(cfg, UNKNOWN, pre);
    var before, inside := AnomalyTimes(cfg, UNKNOWN, pre), AnomalyTimes(cfg, s, win);
    QuietWindow(cfg, pre, win);
    if inside != [] {
      PartsOfRun(pre, win);
      AnomaliesRise(cfg, s, win);
      QuietStretch(cfg, before + inside, |before|, |before + inside|);
    }
  }

  // ---- What does not ban ----

  /** With a threshold of at most one an anomaly of a run sets a ban if and only if the
      source has a health record already, that is, has recorded an anomaly before. */
  lemma BansFromTheSecondOn(cfg: Config, es: seq<Event>, e: Event)
    requires Clocked(es + [e]) && NoEvictions(es + [e]) && cfg.healthThreshold <= 1
    requires CountFits(cfg, AnomalyTimes(cfg, UNKNOWN, es + [e]))
    requires Anomalous(cfg, After(cfg, UNKNOWN, es), e)
    ensures var s := After(cfg, UNKNOWN, es);
            && (StepTrips(cfg, s, e) <==> s.health.Some?)
            && (s.health.Some? <==> AnomalyTimes(cfg, UNKNOWN, es) != [])
  {
    var ts := AnomalyTimes(cfg, UNKNOWN, es);
    AnomaliesSnoc(cfg, UNKNOWN, es, e);
    AnomaliesRise(cfg, UNKNOWN, es + [e]);
    assert (ts + [e.now])[..|ts|] == ts;
    assert NoEvictions(es) by { assert forall i | 0 <= i < |es| :: es[i] == (es + [e])[i]; }
    HealthOfRun(cfg, UNKNOWN, es);
    SmallThreshold(cfg, ts + [e.now], |ts|);
    if ts != [] { WindowOpened(cfg, ts); }
  }

  /** A source is banned at some time only after at least two recorded anomalies, and at
      least as many as the threshold. */
  lemma BanTakesTwo(cfg: Config, es: seq<Event>, t: u64)
    requires NoEvictions(es) && Clocked(es) && Banned(After(cfg, UNKNOWN, es).health, t)
    ensures |AnomalyTimes(cfg, UNKNOWN, es)| >= 2
    ensures |AnomalyTimes(cfg, UNKNOWN, es)| >= cfg.healthThreshold
  {
    HealthOfRun(cfg, UNKNOWN, es);
    if es != [] { AnomaliesRise(cfg, UNKNOWN, es); }
    BanNeedsAnomalies(cfg, AnomalyTimes(cfg, UNKNOWN, es), t);
  }

  lemma {:induction false} BanNeedsAnomalies(cfg: Config, ts: seq<u64>, t: u64)
    requires Rising(ts) && Banned(HealthAfter(cfg, None, ts), t)
    ensures |ts| >= 2 && |ts| >= cfg.healthThreshold
  {
    var n := |ts| - 1;
    if Banned(HealthAfter(cfg, None, ts[..n]), t) {
      BanNeedsAnomalies(cfg, ts[..n], t);
    } else {
      assert TripsAt(cfg, ts, n);
      BanIsWitnessed(cfg, ts, n);
    }
  }

  lemma MovesMalformed(cfg: Config, s: IpState, d: Step, pkt: Policy.Packet, now: u64, breaker: bool)
    requires Moves(cfg, s, d, pkt, now, breaker) && d.outcome.DroppedMalformed?
    ensures d.state.health == s.health && d.state.history == s.history && s.established.None?
    ensures d.state == s.(whitelist := None, synSeen := d.state.synSeen, syn := d.state.syn)
  {
  }

  /** A malformed handshake is no anomaly and leaves no history: beside the SYN gates it
      only costs an expired stamp, and it is dropped for unestablished sources alone. */
  lemma MalformedLeavesNoTrace(cfg: Config, s: IpState, pkt: Policy.Packet, now: u64, breaker: bool)
    requires PacketStep(cfg, s, pkt, now, breaker).outcome.DroppedMalformed?
    ensures var d := PacketStep(cfg, s, pkt, now, breaker);
            && d.state.health == s.health && d.state.history == s.history && s.established.None?
            && d.state == s.(whitelist := None, synSeen := d.state.synSeen, syn := d.state.syn)
  {
    PacketMoves(cfg, s, pkt, now, breaker);
    MovesMalformed(cfg, s, PacketStep(cfg, s, pkt, now, breaker), pkt, now, breaker);
  }

  // ---- How long a ban lasts ----

  /** A ban trips to a fixed end: the blacklist time after the tripping anomaly. */
  lemma BanEndIsFixed(cfg: Config, s: IpState, e: Event)
    requires StepTrips(cfg, s, e) && Bounded(cfg) && e.now < TWO63
    ensures var h := Act(cfg, s, e).state.health;
            h.Some? && h.value.blacklistUntil == e.now + cfg.healthBlacklist
  {
    assert !e.Evict?;
    ActHealth(cfg, s, e);
  }

  lemma MovesBanned(cfg: Config, s: IpState, d: Step, pkt: Policy.Packet, now: u64, breaker: bool)
    requires Moves(cfg, s, d, pkt, now, breaker) && Banned(s.health, now)
    ensures d.state.health == s.health && d.state.whitelist == s.whitelist
    ensures Targets(cfg, pkt) ==> d.outcome.DroppedBadFlags? || d.outcome.DroppedBanned?
  {
  }

  /** Every packet for the server in the run is dropped. */
  predicate AllDropped(cfg: Config, s: IpState, es: seq<Event>) {
    es == []
    || (var before, e := es[..|es| - 1], es[|es| - 1];
        && AllDropped(cfg, s, before)
        && (e.Packet? && Targets(cfg, e.pkt) ==> Act(cfg, After(cfg, s, before), e).outcome.Drops()))
  }

  lemma ActBanned(cfg: Config, s: IpState, e: Event)
    requires Banned(s.health, e.now) && !e.Evict?
    ensures Act(cfg, s, e).state.health == s.health
    ensures e.Packet? && Targets(cfg, e.pkt) ==> Act(cfg, s, e).outcome.Drops()
  {
    match e {
      case Packet(pkt, now, breaker) =>
        PacketMoves(cfg, s, pkt, now, breaker);
        MovesBanned(cfg, s, PacketStep(cfg, s, pkt, now, breaker), pkt, now, breaker);
      case Socket(op, now) => SocketStepMoves(s, op, now);
    }
  }

  /** Until its end every packet for the server is dropped and the record stays as it is. */
  lemma {:induction false} BanHolds(cfg: Config, s: IpState, es: seq<Event>)
    requires NoEvictions(es) && s.health.Some?
    requires forall i | 0 <= i < |es| :: es[i].now < s.health.value.blacklistUntil
    ensures After(cfg, s, es).health == s.health && AllDropped(cfg, s, es)
  {
    if es != [] {
      var n := |es| - 1;
      BanHolds(cfg, s, es[..n]);
      ActBanned(cfg, After(cfg, s, es[..n]), es[n]);
    }
  }

  /** From its end on no packet is dropped for it. */
  lemma BanEnds(cfg: Config, s: IpState, e: Event)
    requires s.health.Some? && s.health.value.blacklistUntil <= e.now && e.Packet?
    ensures !Act(cfg, s, e).outcome.DroppedBanned?
  {
    PacketMoves(cfg, s, e.pkt, e.now, e.breaker);
  }

  /** A ban lasts from the anomaly that trips it to exactly the blacklist time later. */
  lemma BanLastsExactly(cfg: Config, s: IpState, trip: Event, es: seq<Event>, next: Event)
    requires StepTrips(cfg, s, trip) && Bounded(cfg) && trip.now < TWO63 && NoEvictions(es) && next.Packet?
    requires forall i | 0 <= i < |es| :: es[i].now < trip.now + cfg.healthBlacklist
    ensures var u := Act(cfg, s, trip).state;
            && After(cfg, u, es).health == u.health
            && AllDropped(cfg, u, es)
            && (next.now >= trip.now + cfg.healthBlacklist ==>
                  !Act(cfg, After(cfg, u, es), next).outcome.DroppedBanned?)
  {
    var u := Act(cfg, s, trip).state;
    BanEndIsFixed(cfg, s, trip);
    BanHolds(cfg, u, es);
    if next.now >= trip.now + cfg.healthBlacklist {
      BanEnds(cfg, After(cfg, u, es), next);
    }
  }

  // ---- A banned source is not trusted ----

  ghost predicate Exclusive(s: IpState, now: u64) {
    Banned(s.health, now) ==> s.whitelist.None?
  }

  lemma MovesExclusive(cfg: Config, s: IpState, d: Step, pkt: Policy.Packet, now: u64, breaker: bool)
    requires Moves(cfg, s, d, pkt, now, breaker) && Exclusive(s, now)
    ensures Exclusive(d.state, now)
  {
  }

  lemma ActExclusive(cfg: Config, s: IpState, e: Event)
    requires Exclusive(s, e.now)
    ensures Exclusive(Act(cfg, s, e).state, e.now)
  {
    match e {
      case Packet(pkt, now, breaker) =>
        PacketMoves(cfg, s, pkt, now, breaker);
        MovesExclusive(cfg, s, PacketStep(cfg, s, pkt, now, breaker), pkt, now, breaker);
      case Socket(op, now) => SocketStepMoves(s, op, now);
      case Evict(table, now) =>
    }
  }

  lemma {:induction false} BannedIsNotTrusted(cfg: Config, es: seq<Event>, now: u64)
    requires Clocked(es) && (es != [] ==> es[|es| - 1].now <= now)
    ensures Exclusive(After(cfg, UNKNOWN, es), now)
  {
    if es != [] {
      var n := |es| - 1;
      BannedIsNotTrusted(cfg, es[..n], es[n].now);
      var u := After(cfg, UNKNOWN, es[..n]);
      ActExclusive(cfg, u, es[n]);
    }
  }
}
