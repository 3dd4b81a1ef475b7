/** Sources do not affect each other except through the global breaker, and what is only
    counted decides nothing. */
module Isolation {
  import opened Words
  import opened Maps
  import opened Policy
  import opened World
  import Runs
  import Handshakes

  /** The outcomes of one source's events, in order. */
  function Outcomes(cfg: Config, w: World, es: seq<WorldEvent>, ip: IP): seq<Outcome> {
    if es == [] then []
    else
      var before, e := es[..|es| - 1], es[|es| - 1];
      Outcomes(cfg, w, before, ip) + if e.src == ip then [Next(cfg, After(cfg, w, before), e).1] else []
  }

  // ---- Projection to one source ----

  /** A world event as its source sees it: the breaker's answer is part of the packet. */
  function Seen(cfg: Config, w: World, e: WorldEvent): Runs.Event {
    match e
    case Packet(src, cpu, pkt, now) => Runs.Packet(pkt, now, BreakerTake(cfg, w.breakers, cpu, now).1)
    case Socket(src, op, now) => Runs.Socket(op, now)
    case Evict(src, table, now) => Runs.Evict(table, now)
  }

  function Project(cfg: Config, w: World, es: seq<WorldEvent>, ip: IP): seq<Runs.Event> {
    if es == [] then []
    else
      var before, e := es[..|es| - 1], es[|es| - 1];
      Project(cfg, w, before, ip) + if e.src == ip then [Seen(cfg, After(cfg, w, before), e)] else []
  }

  function RunOutcomes(cfg: Config, s: IpState, es: seq<Runs.Event>): seq<Outcome> {
    if es == [] then []
    else
      var before := es[..|es| - 1];
      RunOutcomes(cfg, s, before) + [Runs.Act(cfg, Runs.After(cfg, s, before), es[|es| - 1]).outcome]
  }

  lemma NextAt(cfg: Config, w: World, e: WorldEvent, ip: IP)
    ensures e.src == ip ==> var d := Runs.Act(cfg, w.At(ip), Seen(cfg, w, e));
                            Next(cfg, w, e).0.At(ip) == d.state && Next(cfg, w, e).1 == d.outcome
    ensures e.src != ip ==> Next(cfg, w, e).0.At(ip) == w.At(ip)
  {
  }

  /** What the world does to one source is a run of that source alone. */
  lemma {:induction false} ProjectionIsARun(cfg: Config, w: World, es: seq<WorldEvent>, ip: IP)
    ensures After(cfg, w, es).At(ip) == Runs.After(cfg, w.At(ip), Project(cfg, w, es, ip))
    ensures Outcomes(cfg, w, es, ip) == RunOutcomes(cfg, w.At(ip), Project(cfg, w, es, ip))
  {
    if es != [] {
      var before, e := es[..|es| - 1], es[|es| - 1];
      ProjectionIsARun(cfg, w, before, ip);
      var u := After(cfg, w, before);
      NextAt(cfg, u, e, ip);
      var rs := Project(cfg, w, before, ip);
      if e.src == ip {
        assert (rs + [Seen(cfg, u, e)])[..|rs|] == rs;
      } else {
        assert rs + [] == rs;
      }
    }
  }

  // ---- Windows of a run ----

  ghost predicate ClockedUntil(rs: seq<Runs.Event>, last: int) {
    Runs.Clocked(rs) && (rs != [] ==> rs[|rs| - 1].now <= last)
  }

  lemma ClockedSnoc(rs: seq<Runs.Event>, add: bool, e: Runs.Event, t: int)
    requires ClockedUntil(rs, t) && t <= e.now < TWO63
    ensures ClockedUntil(rs + if add then [e] else [], e.now)
  {
  }

  lemma {:induction false} ProjectClocked(cfg: Config, w: World, es: seq<WorldEvent>, ip: IP)
    requires WorldClocked(es)
    ensures ClockedUntil(Project(cfg, w, es, ip), if es == [] then 0 else es[|es| - 1].now)
  {
    if es != [] {
      var n := |es| - 1;
      ProjectClocked(cfg, w, es[..n], ip);
      var seen := Seen(cfg, After(cfg, w, es[..n]), es[n]);
      ClockedSnoc(Project(cfg, w, es[..n], ip), es[n].src == ip, seen, if n == 0 then 0 else es[n - 1].now);
    }
  }

  lemma {:induction false} ProjectUnevicted(cfg: Config, w: World, es: seq<WorldEvent>, ip: IP)
    requires WorldUnevicted(es)
    ensures Runs.NoEvictions(Project(cfg, w, es, ip))
  {
    if es != [] { ProjectUnevicted(cfg, w, es[..|es| - 1], ip); }
  }

  lemma {:induction false} AfterConcat(cfg: Config, w: World, a: seq<WorldEvent>, b: seq<WorldEvent>)
    ensures After(cfg, w, a + b) == After(cfg, After(cfg, w, a), b)
  {
    if b == [] {
      assert a + b == a;
    } else {
      AfterConcat(cfg, w, a, b[..|b| - 1]);
      assert (a + b)[..|a + b| - 1] == a + b[..|b| - 1];
    }
  }

  function SeenBy(cfg: Config, w: World, e: WorldEvent, ip: IP): seq<Runs.Event> {
    if e.src == ip then [Seen(cfg, w, e)] else []
  }

  lemma ProjectSnoc(cfg: Config, w: World, es: seq<WorldEvent>, e: WorldEvent, ip: IP)
    ensures Project(cfg, w, es + [e], ip) == Project(cfg, w, es, ip) + SeenBy(cfg, After(cfg, w, es), e, ip)
  {
    assert (es + [e])[..|es|] == es;
  }

  lemma {:induction false} ProjectConcat(cfg: Config, w: World, a: seq<WorldEvent>, b: seq<WorldEvent>, ip: IP)
    ensures Project(cfg, w, a + b, ip) == Project(cfg, w, a, ip) + Project(cfg, After(cfg, w, a), b, ip)
  {
    if b == [] {
      assert a + b == a;
    } else {
      var c, e := b[..|b| - 1], b[|b| - 1];
      ProjectConcat(cfg, w, a, c, ip);
      AfterConcat(cfg, w, a, c);
      ProjectSnoc(cfg, w, a + c, e, ip);
      ProjectSnoc(cfg, After(cfg, w, a), c, e, ip);
      assert b == c + [e] && a + b == a + c + [e];
    }
  }

  lemma {:induction false} ProjectFrom(cfg: Config, w: World, es: seq<WorldEvent>, ip: IP)
    requires WorldClocked(es) && Project(cfg, w, es, ip) != []
    ensures es[0].now <= Project(cfg, w, es, ip)[0].now
  {
    var n := |es| - 1;
    if Project(cfg, w, es[..n], ip) != [] {
      ProjectFrom(cfg, w, es[..n], ip);
    }
  }

  /** A window of the world after a prefix, as one source sees it: a window of that source's
      run after its own prefix, in clock order, without evictions, and no longer. Every
      theorem about windows of one source's runs holds of windows of the world by this. */
  lemma WindowsProject(cfg: Config, cpus: nat, pre: seq<WorldEvent>, win: seq<WorldEvent>, ip: IP)
    requires WorldClocked(pre + win) && WorldUnevicted(win) && win != []
    ensures var w := After(cfg, Boot(cpus), pre);
            var before, inside := Project(cfg, Boot(cpus), pre, ip), Project(cfg, w, win, ip);
            && w.At(ip) == Runs.After(cfg, UNKNOWN, before)
            && Runs.Clocked(before + inside) && Runs.NoEvictions(inside)
            && Outcomes(cfg, w, win, ip) == RunOutcomes(cfg, w.At(ip), inside)
            && (inside != [] ==> win[0].now <= inside[0].now && inside[|inside| - 1].now <= win[|win| - 1].now)
  {
    var w := After(cfg, Boot(cpus), pre);
    assert WorldClocked(win) by { assert forall i | 0 <= i < |win| :: win[i] == (pre + win)[|pre| + i]; }
    ProjectionIsARun(cfg, Boot(cpus), pre, ip);
    ProjectionIsARun(cfg, w, win, ip);
    ProjectConcat(cfg, Boot(cpus), pre, win, ip);
    ProjectClocked(cfg, Boot(cpus), pre + win, ip);
    ProjectClocked(cfg, w, win, ip);
    ProjectUnevicted(cfg, w, win, ip);
    if Project(cfg, w, win, ip) != [] { ProjectFrom(cfg, w, win, ip); }
  }

  // ---- Isolation ----

  function Only(es: seq<WorldEvent>, ip: IP): seq<WorldEvent> {
    if es == [] then []
    else Only(es[..|es| - 1], ip) + if es[|es| - 1].src == ip then [es[|es| - 1]] else []
  }

  lemma SeenAlone(cfg: Config, w: World, u: World, e: WorldEvent)
    requires !cfg.GlobalOn()
    ensures Seen(cfg, w, e) == Seen(cfg, u, e)
  {
  }

  lemma {:induction false} ProjectOnly(cfg: Config, w: World, u: World, es: seq<WorldEvent>, ip: IP)
    requires !cfg.GlobalOn()
    ensures Project(cfg, w, es, ip) == Project(cfg, u, Only(es, ip), ip)
  {
    if es != [] {
      var before, e := es[..|es| - 1], es[|es| - 1];
      ProjectOnly(cfg, w, u, before, ip);
      var rest := Only(before, ip);
      if e.src == ip {
        assert (rest + [e])[..|rest|] == rest;
        SeenAlone(cfg, After(cfg, w, before), After(cfg, u, rest), e);
      } else {
        assert rest + [] == rest;
      }
    }
  }

  /** With the global breaker disabled, a source fares exactly as if it were alone: delete
      every event of every other source and its outcomes and records stay the same. */
  lemma PerIpIsolation(cfg: Config, w: World, es: seq<WorldEvent>, ip: IP)
    requires !cfg.GlobalOn()
    ensures Outcomes(cfg, w, es, ip) == Outcomes(cfg, w, Only(es, ip), ip)
    ensures After(cfg, w, es).At(ip) == After(cfg, w, Only(es, ip)).At(ip)
  {
    ProjectionIsARun(cfg, w, es, ip);
    ProjectionIsARun(cfg, w, Only(es, ip), ip);
    ProjectOnly(cfg, w, w, es, ip);
  }

  // ---- Counters and drop history decide nothing ----

  function Blank(s: IpState): IpState {
    s.(history := None)
  }

  lemma TrustedBlank(cfg: Config, s: IpState, pkt: Policy.Packet, now: u64)
    ensures var d, b := TrustedStep(cfg, s, pkt, now), TrustedStep(cfg, Blank(s), pkt, now);
            b.outcome == d.outcome && b.state == Blank(d.state)
  {
  }

  lemma RouteBlank(cfg: Config, s: IpState, hs: Handshakes.Class, pkt: Policy.Packet, now: u64)
    ensures var d, b := RouteStep(cfg, s, hs, pkt, now), RouteStep(cfg, Blank(s), hs, pkt, now);
            b.outcome == d.outcome && b.state == Blank(d.state)
  {
  }

  lemma PayloadBlank(cfg: Config, s: IpState, pkt: Policy.Packet, now: u64)
    ensures var d, b := PayloadStep(cfg, s, pkt, now), PayloadStep(cfg, Blank(s), pkt, now);
            b.outcome == d.outcome && b.state == Blank(d.state)
  {
    if pkt.HeadersIntact() && pkt.HasPayload() {
      assert SegmentClass(s, pkt) == SegmentClass(Blank(s), pkt);
      assert MarkFirstData(Blank(s), now) == Blank(MarkFirstData(s, now));
      RouteBlank(cfg, MarkFirstData(s, now), SegmentClass(s, pkt), pkt, now);
    }
  }

  lemma UntrustedBlank(cfg: Config, s: IpState, pkt: Policy.Packet, now: u64, breaker: bool)
    ensures var d, b := UntrustedStep(cfg, s, pkt, now, breaker), UntrustedStep(cfg, Blank(s), pkt, now, breaker);
            b.outcome == d.outcome && b.state == Blank(d.state)
  {
    if pkt.flags.syn {
      var u := s.(syn := SynTake(cfg, s, now).0, synSeen := Some(now));
      PayloadBlank(cfg, u, pkt, now);
      assert Blank(u) == Blank(s).(syn := SynTake(cfg, Blank(s), now).0, synSeen := Some(now));
    } else {
      PayloadBlank(cfg, s, pkt, now);
    }
  }

  lemma DecideBlank(cfg: Config, s: IpState, pkt: Policy.Packet, now: u64, breaker: bool)
    ensures var d, b := Decide(cfg, s, pkt, now, breaker), Decide(cfg, Blank(s), pkt, now, breaker);
            b.outcome == d.outcome && b.state == Blank(d.state)
  {
    TrustedBlank(cfg, s, pkt, now);
    UntrustedBlank(cfg, s.(whitelist := None), pkt, now, breaker);
    assert Blank(s.(whitelist := None)) == Blank(s).(whitelist := None);
  }

  /** Two worlds that differ at most in stat slots and drop histories. */
  ghost predicate Alike(w: World, u: World) {
    w.breakers == u.breakers && forall ip: IP :: Blank(w.At(ip)) == Blank(u.At(ip))
  }

  lemma ActAlike(cfg: Config, s: IpState, t: IpState, e: Runs.Event)
    requires Blank(s) == Blank(t)
    ensures Runs.Act(cfg, s, e).outcome == Runs.Act(cfg, t, e).outcome
    ensures Blank(Runs.Act(cfg, s, e).state) == Blank(Runs.Act(cfg, t, e).state)
  {
    match e {
      case Packet(pkt, now, breaker) =>
        DecideBlank(cfg, s, pkt, now, breaker);
        DecideBlank(cfg, t, pkt, now, breaker);
      case _ =>
    }
  }

  lemma AsksAlike(cfg: Config, s: IpState, t: IpState, pkt: Policy.Packet, now: u64)
    requires Blank(s) == Blank(t)
    ensures AsksBreaker(cfg, s, pkt, now) == AsksBreaker(cfg, t, pkt, now)
  {
    assert s == t.(history := s.history);
  }

  lemma NextAlike(cfg: Config, w: World, u: World, e: WorldEvent)
    requires Alike(w, u)
    ensures Next(cfg, w, e).1 == Next(cfg, u, e).1 && Alike(Next(cfg, w, e).0, Next(cfg, u, e).0)
  {
    assert Blank(w.At(e.src)) == Blank(u.At(e.src));
    ActAlike(cfg, w.At(e.src), u.At(e.src), Seen(cfg, w, e));
    if e.Packet? {
      AsksAlike(cfg, w.At(e.src), u.At(e.src), e.pkt, e.now);
    }
    var w', u' := Next(cfg, w, e).0, Next(cfg, u, e).0;
    forall ip: IP ensures Blank(w'.At(ip)) == Blank(u'.At(ip)) {
      NextAt(cfg, w, e, ip);
      NextAt(cfg, u, e, ip);
    }
  }

  /** Whatever the stat slots and drop histories hold, every outcome is the same. */
  lemma {:induction false} CountersDecideNothing(cfg: Config, w: World, u: World, es: seq<WorldEvent>, ip: IP)
    requires Alike(w, u)
    ensures Outcomes(cfg, w, es, ip) == Outcomes(cfg, u, es, ip)
    ensures Alike(After(cfg, w, es), After(cfg, u, es))
  {
    if es != [] {
      var before := es[..|es| - 1];
      CountersDecideNothing(cfg, w, u, before, ip);
      NextAlike(cfg, After(cfg, w, before), After(cfg, u, before), es[|es| - 1]);
    }
  }
}
