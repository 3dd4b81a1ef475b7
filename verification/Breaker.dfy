/** The global circuit breaker: one bucket per CPU, zeroed at boot, shared by all sources. */
module Breaker {
  import opened Words
  import opened Maps
  import opened Buckets
  import opened BucketBounds
  import opened Policy
  import opened World
  import Isolation
  import opened Meters
  import Runs

  predicate AsksOn(cfg: Config, w: World, e: WorldEvent, cpu: nat) {
    e.Packet? && e.cpu == cpu && AsksBreaker(cfg, w.At(e.src), e.pkt, e.now)
  }

  /** The event is a SYN that asks the bucket of this CPU and is admitted. */
  predicate AdmitsOn(cfg: Config, w: World, e: WorldEvent, cpu: nat) {
    AsksOn(cfg, w, e, cpu) && BreakerTake(cfg, w.breakers, cpu, e.now).1
  }

  /** The requests a run makes of the bucket of one CPU. */
  function SynRequests(cfg: Config, w: World, es: seq<WorldEvent>, cpu: nat): seq<Request> {
    if es == [] then []
    else
      var before, e := es[..|es| - 1], es[|es| - 1];
      SynRequests(cfg, w, before, cpu)
      + if AsksOn(cfg, After(cfg, w, before), e, cpu) then [Request(e.now, 1)] else []
  }

  /** The SYNs the breaker admits, on all CPUs: those that ask it and are not dropped for it. */
  function Admitted(cfg: Config, w: World, es: seq<WorldEvent>): nat {
    if es == [] then 0
    else
      var before, e := es[..|es| - 1], es[|es| - 1];
      var u := After(cfg, w, before);
      Admitted(cfg, w, before)
      + if e.Packet? && AdmitsOn(cfg, u, e, e.cpu) then 1 else 0
  }

  ghost predicate OnCpus(es: seq<WorldEvent>, cpus: nat) {
    forall i | 0 <= i < |es| :: es[i].Packet? ==> es[i].cpu < cpus
  }

  lemma NextBreaker(cfg: Config, w: World, e: WorldEvent, cpu: nat)
    requires cfg.GlobalOn() && cpu < |w.breakers| && (e.Packet? ==> e.cpu < |w.breakers|)
    ensures var u := Next(cfg, w, e).0;
            && |u.breakers| == |w.breakers|
            && u.breakers[cpu] == if AsksOn(cfg, w, e, cpu)
                                  then Spend(cfg.GlobalLimit(), w.breakers[cpu], Request(e.now, 1)).bucket
                                  else w.breakers[cpu]
  {
  }

  /** Each CPU's bucket is the lazy bucket of the requests made on that CPU. */
  lemma {:induction false} BreakerOfRun(cfg: Config, w: World, es: seq<WorldEvent>, cpu: nat)
    requires cfg.GlobalOn() && cpu < |w.breakers| && OnCpus(es, |w.breakers|)
    ensures var u := After(cfg, w, es);
            && |u.breakers| == |w.breakers|
            && LazyAfter(cfg.GlobalLimit(), Some(w.breakers[cpu]), SynRequests(cfg, w, es, cpu))
               == Some(u.breakers[cpu])
  {
    if es != [] {
      var n := |es| - 1;
      BreakerOfRun(cfg, w, es[..n], cpu);
      var u := After(cfg, w, es[..n]);
      NextBreaker(cfg, u, es[n], cpu);
      var rs := SynRequests(cfg, w, es[..n], cpu);
      if AsksOn(cfg, u, es[n], cpu) {
        assert (rs + [Request(es[n].now, 1)])[..|rs|] == rs;
      } else {
        assert rs + [] == rs;
      }
    }
  }

  lemma {:induction false} SynRequestsInOrder(cfg: Config, w: World, es: seq<WorldEvent>, cpu: nat)
    requires WorldClocked(es) && es != []
    ensures InOrder(SynRequests(cfg, w, es, cpu), BySyn, es[0].now, es[|es| - 1].now)
  {
    var n := |es| - 1;
    var e, before := es[n], es[..n];
    var r := if AsksOn(cfg, After(cfg, w, before), e, cpu) then Some(Request(e.now, 1)) else None;
    if n == 0 {
      InOrderSnoc([], r, BySyn, e.now, e.now, e.now);
    } else {
      SynRequestsInOrder(cfg, w, before, cpu);
      InOrderSnoc(SynRequests(cfg, w, before, cpu), r, BySyn, es[0].now, es[n - 1].now, e.now);
    }
  }

  function SpentOn(cfg: Config, w: World, es: seq<WorldEvent>, cpu: nat): nat
    requires cpu < |w.breakers|
  {
    Spent(cfg.GlobalLimit(), Some(w.breakers[cpu]), SynRequests(cfg, w, es, cpu))
  }

  function SpentEach(cfg: Config, w: World, es: seq<WorldEvent>): seq<nat> {
    seq(|w.breakers|, c requires 0 <= c < |w.breakers| => SpentOn(cfg, w, es, c))
  }

  function Total(xs: seq<nat>): nat {
    if xs == [] then 0 else Total(xs[..|xs| - 1]) + xs[|xs| - 1]
  }

  lemma SpentNext(cfg: Config, w: World, es: seq<WorldEvent>, cpu: nat)
    requires cfg.GlobalOn() && es != [] && cpu < |w.breakers| && OnCpus(es, |w.breakers|)
    ensures var n := |es| - 1; var u := After(cfg, w, es[..n]);
            |u.breakers| == |w.breakers|
            && SpentOn(cfg, w, es, cpu) == SpentOn(cfg, w, es[..n], cpu)
               + if AdmitsOn(cfg, u, es[n], cpu) then 1 else 0
  {
    var n := |es| - 1;
    BreakerOfRun(cfg, w, es[..n], cpu);
    var u := After(cfg, w, es[..n]);
    var rs := SynRequests(cfg, w, es[..n], cpu);
    if AsksOn(cfg, u, es[n], cpu) {
      assert (rs + [Request(es[n].now, 1)])[..|rs|] == rs;
    } else {
      assert rs + [] == rs;
    }
  }

  /** A total grows where one of its terms, or none, grows by one. */
  lemma {:induction false} TotalMoves(xs: seq<nat>, ys: seq<nat>, hit: Option<nat>)
    requires |xs| == |ys|
    requires forall c | 0 <= c < |xs| :: ys[c] == xs[c] + if hit == Some(c) then 1 else 0
    ensures Total(ys) == Total(xs) + if hit.Some? && hit.value < |xs| then 1 else 0
  {
    if xs != [] {
      var n := |xs| - 1;
      TotalMoves(xs[..n], ys[..n], hit);
      assert ys[n] == xs[n] + if hit == Some(n) then 1 else 0;
    }
  }

  lemma {:induction false} TotalBound(xs: seq<nat>, each: nat)
    requires forall c | 0 <= c < |xs| :: xs[c] <= each
    ensures Total(xs) <= |xs| * each
  {
    if xs != [] {
      var n := |xs| - 1;
      TotalBound(xs[..n], each);
      assert (n + 1) * each == n * each + each;
    }
  }

  lemma {:induction false} TotalOfZeros(xs: seq<nat>)
    requires forall c | 0 <= c < |xs| :: xs[c] == 0
    ensures Total(xs) == 0
  {
    if xs != [] { TotalOfZeros(xs[..|xs| - 1]); }
  }

  lemma SpentOnNext(cfg: Config, w: World, es: seq<WorldEvent>, hit: Option<nat>, cpu: nat)
    requires cfg.GlobalOn() && es != [] && cpu < |w.breakers| && OnCpus(es, |w.breakers|)
    requires hit == HitBy(cfg, After(cfg, w, es[..|es| - 1]), es[|es| - 1])
    ensures SpentOn(cfg, w, es, cpu) == SpentOn(cfg, w, es[..|es| - 1], cpu) + if hit == Some(cpu) then 1 else 0
  {
    SpentNext(cfg, w, es, cpu);
  }

  function HitBy(cfg: Config, w: World, e: WorldEvent): Option<nat> {
    if e.Packet? && AdmitsOn(cfg, w, e, e.cpu) then Some(e.cpu) else None
  }

  lemma {:induction false} AdmittedIsSpent(cfg: Config, w: World, es: seq<WorldEvent>)
    requires cfg.GlobalOn() && OnCpus(es, |w.breakers|)
    ensures Admitted(cfg, w, es) == Total(SpentEach(cfg, w, es))
  {
    if es == [] {
      TotalOfZeros(SpentEach(cfg, w, es));
    } else {
      var n := |es| - 1;
      AdmittedIsSpent(cfg, w, es[..n]);
      var hit := HitBy(cfg, After(cfg, w, es[..n]), es[n]);
      forall c | 0 <= c < |w.breakers|
        ensures SpentOn(cfg, w, es, c) == SpentOn(cfg, w, es[..n], c) + if hit == Some(c) then 1 else 0
      {
        SpentOnNext(cfg, w, es, hit, c);
      }
      TotalMoves(SpentEach(cfg, w, es[..n]), SpentEach(cfg, w, es), hit);
    }
  }

  // ---- The bound ----

  ghost predicate BreakersOk(cfg: Config, w: World, now: u64) {
    forall c | 0 <= c < |w.breakers| :: BucketOk(cfg.GlobalLimit(), w.breakers[c], now)
  }

  lemma NextBreakersOk(cfg: Config, w: World, t: u64, e: WorldEvent)
    requires BreakersOk(cfg, w, t) && t <= e.now < TWO63
    ensures BreakersOk(cfg, Next(cfg, w, e).0, e.now) && |Next(cfg, w, e).0.breakers| == |w.breakers|
  {
    if e.Packet? && e.cpu < |w.breakers| {
      SpendKeeps(cfg.GlobalLimit(), w.breakers[e.cpu], Request(e.now, 1));
    }
  }

  lemma {:induction false} AfterBreakersOk(cfg: Config, cpus: nat, es: seq<WorldEvent>)
    requires WorldClocked(es) && cfg.globalBurst < TWO63
    ensures var w := After(cfg, Boot(cpus), es);
            |w.breakers| == cpus && BreakersOk(cfg, w, if es == [] then 0 else es[|es| - 1].now)
  {
    if es != [] {
      var n := |es| - 1;
      AfterBreakersOk(cfg, cpus, es[..n]);
      NextBreakersOk(cfg, After(cfg, Boot(cpus), es[..n]), if n == 0 then 0 else es[n - 1].now, es[n]);
    }
  }

  lemma SpentOnBound(cfg: Config, w: World, win: seq<WorldEvent>, t: u64, cpu: nat, length: nat)
    requires cfg.GlobalOn() && WorldClocked(win) && win != [] && t <= win[0].now
    requires cpu < |w.breakers| && BreakersOk(cfg, w, t) && win[|win| - 1].now - win[0].now <= length
    ensures SpentOn(cfg, w, win, cpu) <= cfg.globalBurst + TicksAtMost(cfg.GlobalLimit(), length)
  {
    var rs := SynRequests(cfg, w, win, cpu);
    SynRequestsInOrder(cfg, w, win, cpu);
    if rs != [] {
      LevelLater(cfg.GlobalLimit(), w.breakers[cpu], t, rs[0].at);
      WindowBound(cfg.GlobalLimit(), Some(w.breakers[cpu]), rs);
      TicksAtMostMono(cfg.GlobalLimit(), rs[|rs| - 1].at - rs[0].at, length);
    }
  }

  lemma PartsAreClocked(pre: seq<WorldEvent>, win: seq<WorldEvent>)
    requires WorldClocked(pre + win)
    ensures WorldClocked(pre) && WorldClocked(win)
    ensures pre != [] && win != [] ==> pre[|pre| - 1].now <= win[0].now
  {
    var es := pre + win;
    assert forall i | 0 <= i < |pre| :: pre[i] == es[i];
    assert forall i | 0 <= i < |win| :: win[i] == es[|pre| + i];
  }

  lemma WindowAdmits(cfg: Config, w: World, win: seq<WorldEvent>, t: u64, length: nat, each: nat)
    requires cfg.GlobalOn() && WorldClocked(win) && win != [] && t <= win[0].now
    requires BreakersOk(cfg, w, t) && OnCpus(win, |w.breakers|) && win[|win| - 1].now - win[0].now <= length
    requires cfg.globalBurst + TicksAtMost(cfg.GlobalLimit(), length) <= each
    ensures Admitted(cfg, w, win) <= |w.breakers| * each
  {
    AdmittedIsSpent(cfg, w, win);
    forall c | 0 <= c < |w.breakers| ensures SpentOn(cfg, w, win, c) <= each {
      SpentOnBound(cfg, w, win, t, c, length);
    }
    TotalBound(SpentEach(cfg, w, win), each);
  }

  /** In any window no longer than `length`, the CPUs together admit at most `each` apiece,
      if that covers the burst and the periods the length can begin. */
  lemma BreakerBound(cfg: Config, cpus: nat, pre: seq<WorldEvent>, win: seq<WorldEvent>, length: nat, each: nat)
    requires cfg.GlobalOn() && cfg.globalBurst < TWO63 && WorldClocked(pre + win) && win != []
    requires OnCpus(win, cpus) && win[|win| - 1].now - win[0].now <= length
    requires cfg.globalBurst + TicksAtMost(cfg.GlobalLimit(), length) <= each
    ensures Admitted(cfg, After(cfg, Boot(cpus), pre), win) <= cpus * each
  {
    PartsAreClocked(pre, win);
    AfterBreakersOk(cfg, cpus, pre);
    var w := After(cfg, Boot(cpus), pre);
    WindowAdmits(cfg, w, win, if pre == [] then 0 else pre[|pre| - 1].now, length, each);
    assert |w.breakers| == cpus;
  }

  /** A SYN that asks the breaker is dropped for it exactly when it is not admitted. */
  lemma RefusalIsTheDrop(cfg: Config, w: World, e: WorldEvent)
    requires e.Packet?
    ensures Next(cfg, w, e).1 == DroppedGlobal <==> AsksOn(cfg, w, e, e.cpu) && !AdmitsOn(cfg, w, e, e.cpu)
  {
  }

  /** Without a period or without a burst the breaker is off: it drops nothing, on any CPU. */
  lemma BreakerOff(cfg: Config, w: World, e: WorldEvent)
    requires cfg.globalPeriod == 0 || cfg.globalBurst == 0
    ensures Next(cfg, w, e).1 != DroppedGlobal && Next(cfg, w, e).0.breakers == w.breakers
  {
    if e.Packet? { RefusalIsTheDrop(cfg, w, e); }
  }

  // ---- The verdicts of the breaker ----

  /** For each SYN that asks the bucket of one CPU: was it let through? */
  function BreakerAnswers(cfg: Config, w: World, es: seq<WorldEvent>, cpu: nat): seq<bool> {
    if es == [] then []
    else
      var before, e := es[..|es| - 1], es[|es| - 1];
      var u := After(cfg, w, before);
      BreakerAnswers(cfg, w, before, cpu) + if AsksOn(cfg, u, e, cpu) then [Next(cfg, u, e).1 != DroppedGlobal] else []
  }

  lemma AnswerIsDecision(cfg: Config, w: World, e: WorldEvent, cpu: nat)
    requires cfg.GlobalOn() && cpu < |w.breakers| && AsksOn(cfg, w, e, cpu)
    ensures (Next(cfg, w, e).1 != DroppedGlobal)
            == Serve(cfg.GlobalLimit(), Some(w.breakers[cpu]), Request(e.now, 1)).ok
  {
    RefusalIsTheDrop(cfg, w, e);
  }

  lemma {:induction false} AnswersAreDecisions(cfg: Config, w: World, es: seq<WorldEvent>, cpu: nat)
    requires cfg.GlobalOn() && cpu < |w.breakers| && OnCpus(es, |w.breakers|)
    ensures BreakerAnswers(cfg, w, es, cpu)
            == LazyDecisions(cfg.GlobalLimit(), Some(w.breakers[cpu]), SynRequests(cfg, w, es, cpu))
  {
    if es != [] {
      var n := |es| - 1;
      AnswersAreDecisions(cfg, w, es[..n], cpu);
      BreakerOfRun(cfg, w, es[..n], cpu);
      var u := After(cfg, w, es[..n]);
      var rs := SynRequests(cfg, w, es[..n], cpu);
      if AsksOn(cfg, u, es[n], cpu) {
        AnswerIsDecision(cfg, u, es[n], cpu);
        SnocDecides(cfg.GlobalLimit(), Some(w.breakers[cpu]), rs, Request(es[n].now, 1));
      } else {
        assert rs + [] == rs;
      }
    }
  }

  lemma RequestsAreOrdered(cfg: Config, w: World, es: seq<WorldEvent>, cpu: nat)
    requires WorldClocked(es)
    ensures Ordered(SynRequests(cfg, w, es, cpu))
  {
    if es != [] { SynRequestsInOrder(cfg, w, es, cpu); }
  }

  /** Over every run of the world the breaker lets through, on each CPU, exactly the SYNs
      that a bucket admits which is empty at boot and gains a token at every tick. */
  lemma BreakerRefinesEager(cfg: Config, cpus: nat, es: seq<WorldEvent>, cpu: nat)
    requires cfg.GlobalOn() && cfg.globalBurst < TWO63 && WorldClocked(es) && OnCpus(es, cpus) && cpu < cpus
    ensures BreakerAnswers(cfg, Boot(cpus), es, cpu)
            == EagerDecisions(cfg.GlobalLimit(), Some(Eager(0, 0, 0)), SynRequests(cfg, Boot(cpus), es, cpu))
  {
    AnswersAreDecisions(cfg, Boot(cpus), es, cpu);
    RequestsAreOrdered(cfg, Boot(cpus), es, cpu);
    GlobalBucketTicksFromBoot(cfg.GlobalLimit(), SynRequests(cfg, Boot(cpus), es, cpu));
  }

  /** The breaker drops no SYN of a CPU if and only if those that ask it conform: every
      stretch of them to the burst and the ticks inside it, and every stretch from the first
      to the ticks since boot. */
  lemma BreakerDropsNoneIff(cfg: Config, cpus: nat, es: seq<WorldEvent>, cpu: nat)
    requires cfg.GlobalOn() && cfg.globalBurst < TWO63 && WorldClocked(es) && OnCpus(es, cpus) && cpu < cpus
    ensures false !in BreakerAnswers(cfg, Boot(cpus), es, cpu)
            <==> Conforms(cfg.GlobalLimit(), Some(Bucket(0, 0)), SynRequests(cfg, Boot(cpus), es, cpu))
  {
    var rs := SynRequests(cfg, Boot(cpus), es, cpu);
    AnswersAreDecisions(cfg, Boot(cpus), es, cpu);
    RequestsAreOrdered(cfg, Boot(cpus), es, cpu);
    ExactAdmission(cfg.GlobalLimit(), Some(Bucket(0, 0)), rs);
    DecisionsAreGrants(cfg.GlobalLimit(), Some(Bucket(0, 0)), rs);
    AllInDecisions(cfg.GlobalLimit(), Some(Bucket(0, 0)), rs);
  }

  lemma AllInDecisions(l: Limit, b: Option<Bucket>, rs: seq<Request>)
    ensures false !in LazyDecisions(l, b, rs) <==> AllGranted(l, b, rs, |rs|)
  {
    DecisionsAreGrants(l, b, rs);
    if false !in LazyDecisions(l, b, rs) {
      forall k | 0 <= k < |rs| ensures Grants(l, b, rs, k) {
        assert LazyDecisions(l, b, rs)[k] in LazyDecisions(l, b, rs);
      }
    }
  }

  // ---- Arithmetic safety of the whole datapath ----

  lemma WorldIsSane(cfg: Config, cpus: nat, es: seq<WorldEvent>, now: u64, ip: IP)
    requires Runs.Bounded(cfg) && WorldClocked(es) && now < TWO63 && (es != [] ==> es[|es| - 1].now <= now)
    ensures var s := After(cfg, Boot(cpus), es).At(ip);
            Runs.Sane(cfg, s, now) && Runs.Exact(cfg, s, now)
  {
    Isolation.ProjectionIsARun(cfg, Boot(cpus), es, ip);
    Isolation.ProjectClocked(cfg, Boot(cpus), es, ip);
    Runs.ArithmeticSafety(cfg, Isolation.Project(cfg, Boot(cpus), es, ip), now);
  }

  lemma BreakersAreExact(cfg: Config, cpus: nat, es: seq<WorldEvent>, now: u64, c: nat)
    requires cfg.globalBurst < TWO63 && WorldClocked(es) && now < TWO63 && (es != [] ==> es[|es| - 1].now <= now)
    requires c < cpus
    ensures var w := After(cfg, Boot(cpus), es);
            && |w.breakers| == cpus
            && Runs.RefillExact(cfg.GlobalLimit(), w.breakers[c], now) && w.breakers[c].tokens <= cfg.globalBurst
  {
    AfterBreakersOk(cfg, cpus, es);
    var b := After(cfg, Boot(cpus), es).breakers[c];
    LevelLater(cfg.GlobalLimit(), b, if es == [] then 0 else es[|es| - 1].now, now);
    Runs.BucketIsExact(cfg.GlobalLimit(), b, now);
  }

  /** After any run of the world the next step computes with mathematical integers: for
      every source, and in the breaker bucket of every CPU. */
  lemma WorldArithmeticSafety(cfg: Config, cpus: nat, es: seq<WorldEvent>, now: u64)
    requires Runs.Bounded(cfg) && WorldClocked(es) && now < TWO63 && (es != [] ==> es[|es| - 1].now <= now)
    ensures var w := After(cfg, Boot(cpus), es);
            && (forall ip: IP :: Runs.Exact(cfg, w.At(ip), now))
            && |w.breakers| == cpus
            && (forall c | 0 <= c < cpus :: Runs.RefillExact(cfg.GlobalLimit(), w.breakers[c], now))
  {
    var w := After(cfg, Boot(cpus), es);
    forall ip: IP ensures Runs.Exact(cfg, w.At(ip), now) {
      WorldIsSane(cfg, cpus, es, now, ip);
    }
    AfterBreakersOk(cfg, cpus, es);
    forall c | 0 <= c < cpus ensures Runs.RefillExact(cfg.GlobalLimit(), w.breakers[c], now) {
      BreakersAreExact(cfg, cpus, es, now, c);
    }
  }
}
