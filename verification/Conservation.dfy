/** Drops are neither lost nor counted twice: the stat slots, the drop histories and the
    verdicts agree over every run. */
module Conservation {
  import opened Words
  import opened Maps
  import opened Records
  import opened Policy
  import opened World
  import Effects
  import HandshakeGrammar
  import Handshakes
  import Isolation
  import Meters
  import Runs

  // ---- Stat slots ----

  function DropTotal(s: Stats): nat {
    s[6] + s[7] + s[8] + s[9] + s[10] + s[11] + s[12] + s[13] + s[14] + s[15]
  }

  function One(b: bool): nat {
    if b then 1 else 0
  }

  /** Drop reasons in the order in which the history columns, and behind six others the stat
      slots, count them. */
  function ReasonAt(i: nat): Reason
    requires i < 10
  {
    match i
    case 0 => NoSyn
    case 1 => TooManyOpen
    case 2 => GlobalRatelimit
    case 3 => StatusRatelimit
    case 4 => LoginRatelimit
    case 5 => MalformedHandshake
    case 6 => Unhealthy
    case 7 => BadFlags
    case 8 => ConnRatelimit
    case _ => ConnRate
  }

  lemma IndicesAreFixed(r: Reason, i: nat)
    requires i < 10
    ensures r == ReasonAt(i) <==> r.Index() == i
    ensures r == ReasonAt(i) <==> r.Slot().Index() == i + 6
    ensures r.Slot().Index() >= 6
  {
  }

  /** The packets each slot counts; slot 1 counts none. */
  predicate Counts(i: nat, o: Outcome) {
    if i == 0 then o.TrustedPass? || o.NoPayloadPass? || o.ReachedPayload()
    else if i == 1 then false
    else if i == 2 then o.LoginPromoted?
    else if i == 3 then o.StatusNoEst? || o.LoginNoEst?
    else if i == 4 then o.StatusNoEst? || o.StatusPass? || o.StatusOverRate?
    else if i == 5 then o.LoginNoEst? || o.LoginPromoted? || o.LoginOverRate?
    else i < 16 && o.DropReason() == Some(ReasonAt(i - 6))
  }

  lemma BumpAt(s: Stats, slot: Stat, i: nat)
    requires i < 16
    ensures Bump(s, slot)[i] == s[i] + One(slot.Index() == i)
  {
  }

  lemma BumpTwiceAt(s: Stats, a: Stat, b: Stat, i: nat)
    requires i < 16
    ensures Bump(Bump(s, a), b)[i] == s[i] + One(a.Index() == i) + One(b.Index() == i)
  {
    BumpAt(s, a, i);
    BumpAt(Bump(s, a), b, i);
  }

  lemma DropAt(r: Reason, s: Stats, i: nat)
    requires i < 16
    ensures Bump(s, r.Slot())[i] == s[i] + One(i >= 6 && r == ReasonAt(i - 6))
  {
    BumpAt(s, r.Slot(), i);
    IndicesAreFixed(r, if i >= 6 then i - 6 else 0);
  }

  predicate HandshakeSeen(o: Outcome) {
    || o.StatusPass? || o.StatusNoEst? || o.StatusOverRate?
    || o.LoginPromoted? || o.LoginNoEst? || o.LoginOverRate?
  }

  lemma SeenAt(o: Outcome, s: Stats, i: nat)
    requires i < 16 && HandshakeSeen(o)
    ensures o.CountDetails(s)[i] == s[i] + One(i > 0 && Counts(i, o))
  {
    match o
    case StatusPass => BumpAt(s, StatusSeen, i);
    case StatusNoEst => BumpTwiceAt(s, StatusSeen, MatchNoEst, i);
    case StatusOverRate => BumpTwiceAt(s, StatusSeen, DropStatusRatelimit, i);
    case LoginPromoted => BumpTwiceAt(s, LoginSeen, Promotions, i);
    case LoginNoEst => BumpTwiceAt(s, LoginSeen, MatchNoEst, i);
    case LoginOverRate => BumpTwiceAt(s, LoginSeen, DropLoginRatelimit, i);
  }

  /** The slots a packet bumps beside the passing count. */
  lemma DetailsAt(o: Outcome, s: Stats, i: nat)
    requires i < 16
    ensures o.CountDetails(s)[i] == s[i] + One(i > 0 && Counts(i, o))
  {
    if HandshakeSeen(o) {
      SeenAt(o, s, i);
    } else if o.Drops() {
      DropAt(o.DropReason().value, s, i);
    }
  }

  lemma CountAt(o: Outcome, s: Stats, i: nat)
    requires i < 16
    ensures o.Count(s)[i] == s[i] + One(Counts(i, o))
  {
    BumpAt(s, PassTcp, i);
    DetailsAt(o, s, i);
    DetailsAt(o, Bump(s, PassTcp), i);
  }

  /** Reason i, or none, is the one the packet is dropped for. */
  function IsReason(d: Option<Reason>, i: nat): nat
    requires i < 10
  {
    One(d == Some(ReasonAt(i)))
  }

  lemma OneReason(d: Option<Reason>)
    ensures IsReason(d, 0) + IsReason(d, 1) + IsReason(d, 2) + IsReason(d, 3) + IsReason(d, 4) + IsReason(d, 5)
            + IsReason(d, 6) + IsReason(d, 7) + IsReason(d, 8) + IsReason(d, 9) == One(d.Some?)
  {
    if d.Some? { IndicesAreFixed(d.value, d.value.Index()); }
  }

  lemma DropSlotCounts(o: Outcome, s: Stats, i: nat)
    requires i < 10
    ensures o.Count(s)[i + 6] == s[i + 6] + IsReason(o.DropReason(), i)
  {
    CountAt(o, s, i + 6);
  }

  lemma DropTotalCounts(o: Outcome, s: Stats)
    ensures DropTotal(o.Count(s)) == DropTotal(s) + One(o.Drops())
  {
    var t := o.Count(s);
    forall i | 6 <= i < 16 ensures t[i] == s[i] + IsReason(o.DropReason(), i - 6) {
      DropSlotCounts(o, s, i - 6);
    }
    OneReason(o.DropReason());
  }

  /** A packet bumps the drop slots once if it is dropped, in the slot of its reason. */
  lemma CountsOnce(o: Outcome, s: Stats, r: Reason)
    ensures DropTotal(o.Count(s)) == DropTotal(s) + One(o.Drops())
    ensures o.Count(s)[r.Slot().Index()] == s[r.Slot().Index()] + One(o.DropReason() == Some(r))
  {
    DropTotalCounts(o, s);
    IndicesAreFixed(r, r.Index());
    DropSlotCounts(o, s, r.Index());
  }

  /** The number of dropped packets of a run, and of those dropped for one reason. */
  function Drops(cfg: Config, w: World, es: seq<WorldEvent>): nat {
    if es == [] then 0
    else
      var before := es[..|es| - 1];
      Drops(cfg, w, before) + One(Next(cfg, After(cfg, w, before), es[|es| - 1]).1.Drops())
  }

  function DropsFor(cfg: Config, w: World, es: seq<WorldEvent>, r: Reason): nat {
    if es == [] then 0
    else
      var before := es[..|es| - 1];
      DropsFor(cfg, w, before, r)
      + One(Next(cfg, After(cfg, w, before), es[|es| - 1]).1.DropReason() == Some(r))
  }

  lemma NextStats(cfg: Config, w: World, e: WorldEvent, r: Reason)
    ensures var (u, o) := Next(cfg, w, e);
            && DropTotal(u.stats) == DropTotal(w.stats) + One(o.Drops())
            && u.stats[r.Slot().Index()] == w.stats[r.Slot().Index()] + One(o.DropReason() == Some(r))
  {
    if e.Packet? {
      CountsOnce(Next(cfg, w, e).1, w.stats, r);
    }
  }

  // ---- Every slot, by its number ----

  predicate CountedIn(i: nat, e: WorldEvent, o: Outcome) {
    if i == 1 then e.Socket? && e.op.PassiveEstablished? else Counts(i, o)
  }

  lemma NextAtSlot(cfg: Config, w: World, e: WorldEvent, i: nat)
    requires i < 16
    ensures var (u, o) := Next(cfg, w, e);
            u.stats[i] == w.stats[i] + One(CountedIn(i, e, o))
  {
    match e
    case Packet(_, _, _, _) => CountAt(Next(cfg, w, e).1, w.stats, i);
    case Socket(_, _, _) => BumpAt(w.stats, EstablishedInserts, i);
    case Evict(_, _, _) =>
  }

  /** How many events of a run a slot is to count. */
  function CountedEvents(cfg: Config, w: World, es: seq<WorldEvent>, i: nat): nat {
    if es == [] then 0
    else
      var before, e := es[..|es| - 1], es[|es| - 1];
      CountedEvents(cfg, w, before, i) + One(CountedIn(i, e, Next(cfg, After(cfg, w, before), e).1))
  }

  /** Over every run from boot, evictions included, slot i counts what is meant to be counted
      there, and nothing else. */
  lemma {:induction false} SlotsAreExact(cfg: Config, cpus: nat, es: seq<WorldEvent>, i: nat)
    requires i < 16
    ensures After(cfg, Boot(cpus), es).stats[i] == CountedEvents(cfg, Boot(cpus), es, i)
  {
    if es != [] {
      var n := |es| - 1;
      SlotsAreExact(cfg, cpus, es[..n], i);
      NextAtSlot(cfg, After(cfg, Boot(cpus), es[..n]), es[n], i);
    }
  }

  // ---- Handshakes ----

  /** The handshakes seen are settled: passed pings, and those the other slots count. */
  predicate Settled(s: Stats, passes: nat) {
    s[4] + s[5] == passes + s[2] + s[3] + s[9] + s[10]
  }

  lemma NextSettles(cfg: Config, w: World, e: WorldEvent, passes: nat)
    requires Settled(w.stats, passes)
    ensures var (u, o) := Next(cfg, w, e);
            Settled(u.stats, passes + One(o.StatusPass?))
  {
    NextAtSlot(cfg, w, e, 2);
    NextAtSlot(cfg, w, e, 3);
    NextAtSlot(cfg, w, e, 4);
    NextAtSlot(cfg, w, e, 5);
    NextAtSlot(cfg, w, e, 9);
    NextAtSlot(cfg, w, e, 10);
  }

  function StatusPasses(cfg: Config, w: World, es: seq<WorldEvent>): nat {
    if es == [] then 0
    else
      var before := es[..|es| - 1];
      StatusPasses(cfg, w, before) + One(Next(cfg, After(cfg, w, before), es[|es| - 1]).1.StatusPass?)
  }

  /** Over every run from boot, evictions included: each handshake seen was a ping passed, a
      login promoted, one dropped over its rate, or one without an establishment. */
  lemma {:induction false} HandshakeConservation(cfg: Config, cpus: nat, es: seq<WorldEvent>)
    ensures Settled(After(cfg, Boot(cpus), es).stats, StatusPasses(cfg, Boot(cpus), es))
  {
    if es != [] {
      var n := |es| - 1;
      HandshakeConservation(cfg, cpus, es[..n]);
      NextSettles(cfg, After(cfg, Boot(cpus), es[..n]), es[n], StatusPasses(cfg, Boot(cpus), es[..n]));
    }
  }

  // ---- The pass counter ----

  predicate PassesServer(o: Outcome) {
    !o.NoPacket? && !o.NotTarget? && !o.Drops()
  }

  /** Counted as passed at line 405, and dropped below it. */
  predicate DroppedLate(o: Outcome) {
    o.ReachedPayload() && o.Drops()
  }

  /** Passed at lines 399-403, before the counter. */
  predicate PassedUncounted(o: Outcome) {
    o.BadHeaderPass?
  }

  /** How many events of a run have an outcome of some kind. */
  function Outcomes(cfg: Config, w: World, es: seq<WorldEvent>, p: Outcome -> bool): nat {
    if es == [] then 0
    else
      var before := es[..|es| - 1];
      Outcomes(cfg, w, before, p) + One(p(Next(cfg, After(cfg, w, before), es[|es| - 1]).1))
  }

  lemma CountPasses(o: Outcome, s: Stats)
    requires !o.NoPacket?
    ensures o.Count(s)[0] + One(o.BadHeaderPass?)
            == s[0] + One(PassesServer(o)) + One(DroppedLate(o))
  {
    CountAt(o, s, 0);
  }

  lemma NextPasses(cfg: Config, w: World, e: WorldEvent)
    ensures var (u, o) := Next(cfg, w, e);
            u.stats[0] + One(o.BadHeaderPass?)
            == w.stats[0] + One(PassesServer(o)) + One(DroppedLate(o))
  {
    match e
    case Packet(src, cpu, pkt, now) =>
      var o := Next(cfg, w, e).1;
      Effects.PacketMoves(cfg, w.At(src), pkt, now, BreakerTake(cfg, w.breakers, cpu, now).1);
      CountPasses(o, w.stats);
    case Socket(_, _, _) => BumpAt(w.stats, EstablishedInserts, 0);
    case Evict(_, _, _) =>
  }

  function Passes(cfg: Config, cpus: nat, es: seq<WorldEvent>): nat {
    Outcomes(cfg, Boot(cpus), es, o => PassesServer(o))
  }

  function LateDrops(cfg: Config, cpus: nat, es: seq<WorldEvent>): nat {
    Outcomes(cfg, Boot(cpus), es, o => DroppedLate(o))
  }

  function UncountedPasses(cfg: Config, cpus: nat, es: seq<WorldEvent>): nat {
    Outcomes(cfg, Boot(cpus), es, o => PassedUncounted(o))
  }

  lemma {:induction false} PassBalance(cfg: Config, cpus: nat, es: seq<WorldEvent>)
    ensures After(cfg, Boot(cpus), es).stats[0] + UncountedPasses(cfg, cpus, es)
            == Passes(cfg, cpus, es) + LateDrops(cfg, cpus, es)
  {
    if es != [] {
      var n := |es| - 1;
      PassBalance(cfg, cpus, es[..n]);
      NextPasses(cfg, After(cfg, Boot(cpus), es[..n]), es[n]);
    }
  }

  /** Over every run from boot, evictions included: the pass slot is the packets for the
      server passed, less those passed for a bad TCP header length, which it misses, plus
      those dropped after it was bumped. It is the number passed if and only if these two
      are equally many. */
  lemma PassConservation(cfg: Config, cpus: nat, es: seq<WorldEvent>)
    ensures var slot := After(cfg, Boot(cpus), es).stats[0];
            && slot == Passes(cfg, cpus, es) - UncountedPasses(cfg, cpus, es) + LateDrops(cfg, cpus, es)
            && (slot == Passes(cfg, cpus, es) <==> UncountedPasses(cfg, cpus, es) == LateDrops(cfg, cpus, es))
  {
    PassBalance(cfg, cpus, es);
  }

  // ---- Runs in which the pass slot and the passes differ ----

  function HeaderBytes(): (bs: seq<u8>)
    ensures |bs| == 54
  {
    seq(54, _ => 0)
  }

  function NoSuchState(): HandshakeGrammar.Frame {
    HandshakeGrammar.Encode(0, [], (0, 0), 9)
  }

  /** An acknowledgement whose TCP header length field is too small. */
  function ShortHeader(cfg: Config): Policy.Packet {
    Policy.Packet(true, cfg.targetPort, Flags(false, true, false, false, false, false), 5, 0, 40, HeaderBytes())
  }

  /** A SYN that carries a handshake with a next state the protocol does not have. */
  function MalformedSyn(cfg: Config): Policy.Packet {
    Policy.Packet(true, cfg.targetPort, Flags(true, false, false, false, false, false), 5, 5, 47,
                  HeaderBytes() + NoSuchState().Bytes())
  }

  lemma OneEvent(cfg: Config, w: World, e: WorldEvent, p: Outcome -> bool)
    ensures After(cfg, w, [e]) == Next(cfg, w, e).0
    ensures Outcomes(cfg, w, [e], p) == One(p(Next(cfg, w, e).1))
  {
    assert [e][..0] == [];
  }

  lemma TwoEvents(cfg: Config, w: World, a: WorldEvent, b: WorldEvent, p: Outcome -> bool)
    ensures After(cfg, w, [a, b]) == Next(cfg, Next(cfg, w, a).0, b).0
    ensures Outcomes(cfg, w, [a, b], p) == One(p(Next(cfg, w, a).1)) + One(p(Next(cfg, Next(cfg, w, a).0, b).1))
  {
    OneEvent(cfg, w, a, p);
    assert [a, b][..1] == [a];
  }

  lemma ShortHeaderPasses(cfg: Config, s: IpState, now: u64)
    requires s == SocketStep(UNKNOWN, PassiveEstablished, now)
    ensures forall breaker :: PacketStep(cfg, s, ShortHeader(cfg), now, breaker).outcome == BadHeaderPass
  {
  }

  /** The slot misses a pass: an established source sends a short header. */
  lemma PassSlotMisses(cfg: Config, cpus: nat, now: u64)
    ensures var es := [Socket(1, PassiveEstablished, now), WorldEvent.Packet(1, 0, ShortHeader(cfg), now)];
            Passes(cfg, cpus, es) == 1 && After(cfg, Boot(cpus), es).stats[0] == 0
  {
    var open, short := Socket(1, PassiveEstablished, now), WorldEvent.Packet(1, 0, ShortHeader(cfg), now);
    ShortHeaderPasses(cfg, SocketStep(UNKNOWN, PassiveEstablished, now), now);
    assert Next(cfg, Next(cfg, Boot(cpus), open).0, short).1 == BadHeaderPass;
    TwoEvents(cfg, Boot(cpus), open, short, o => PassesServer(o));
    TwoEvents(cfg, Boot(cpus), open, short, o => PassedUncounted(o));
    TwoEvents(cfg, Boot(cpus), open, short, o => DroppedLate(o));
    PassConservation(cfg, cpus, [open, short]);
  }

  lemma MalformedSynIsMalformed(cfg: Config)
    ensures var pkt := MalformedSyn(cfg);
            pkt.HeadersIntact() && pkt.HasPayload() && pkt.HandshakeClass() == Handshakes.Malformed
  {
    var f := NoSuchState();
    assert |f.Bytes()| == 7 && |f.Body()| == 6;
    HandshakeGrammar.EncodeThenClassify(HeaderBytes(), 0, [], (0, 0), 9, [], 7);
    assert HeaderBytes() + f.Bytes() + [] == HeaderBytes() + f.Bytes();
  }

  lemma MalformedSynIsDropped(cfg: Config, now: u64)
    ensures PacketStep(cfg, UNKNOWN, MalformedSyn(cfg), now, true).outcome == DroppedMalformed
  {
    MalformedSynIsMalformed(cfg);
    var s := UNKNOWN.(syn := SynTake(cfg, UNKNOWN, now).0, synSeen := Some(now));
    assert SegmentClass(s, MalformedSyn(cfg)) == Handshakes.Malformed;
    assert PayloadStep(cfg, s, MalformedSyn(cfg), now).outcome == DroppedMalformed;
    assert UNKNOWN == UNKNOWN.(whitelist := None);
  }

  lemma MalformedSynNext(cfg: Config, cpus: nat, now: u64)
    requires !cfg.GlobalOn()
    ensures Next(cfg, Boot(cpus), WorldEvent.Packet(1, 0, MalformedSyn(cfg), now)).1 == DroppedMalformed
  {
    MalformedSynIsDropped(cfg, now);
  }

  lemma OneEventCounts(cfg: Config, cpus: nat, e: WorldEvent, o: Outcome)
    requires Next(cfg, Boot(cpus), e).1 == o
    ensures Passes(cfg, cpus, [e]) == One(PassesServer(o)) && LateDrops(cfg, cpus, [e]) == One(DroppedLate(o))
    ensures UncountedPasses(cfg, cpus, [e]) == One(PassedUncounted(o))
  {
    OneEvent(cfg, Boot(cpus), e, o => PassesServer(o));
    OneEvent(cfg, Boot(cpus), e, o => PassedUncounted(o));
    OneEvent(cfg, Boot(cpus), e, o => DroppedLate(o));
  }

  lemma LateDropIsCounted(cfg: Config, cpus: nat, e: WorldEvent)
    requires Next(cfg, Boot(cpus), e).1 == DroppedMalformed
    ensures Passes(cfg, cpus, [e]) == 0 && After(cfg, Boot(cpus), [e]).stats[0] == 1
  {
    OneEventCounts(cfg, cpus, e, DroppedMalformed);
    PassConservation(cfg, cpus, [e]);
  }

  /** The slot counts a drop: an unknown source sends a SYN with a malformed handshake. */
  lemma PassSlotExceeds(cfg: Config, cpus: nat, now: u64)
    requires !cfg.GlobalOn()
    ensures var es := [WorldEvent.Packet(1, 0, MalformedSyn(cfg), now)];
            Passes(cfg, cpus, es) == 0 && After(cfg, Boot(cpus), es).stats[0] == 1
  {
    MalformedSynNext(cfg, cpus, now);
    LateDropIsCounted(cfg, cpus, WorldEvent.Packet(1, 0, MalformedSyn(cfg), now));
  }

  // ---- Drop histories ----

  function HistoryCount(s: IpState, r: Reason): nat {
    if s.history.Some? then s.history.value.counts[r.Index()] else 0
  }

  /** One column of the drop history, summed over the first n addresses. */
  function Column(w: World, r: Reason, n: nat): nat
    requires n <= TWO32
  {
    if n == 0 then 0 else Column(w, r, n - 1) + HistoryCount(w.At(n - 1), r)
  }

  lemma {:induction false} ColumnMoves(w: World, u: World, ip: IP, r: Reason, k: nat, n: nat)
    requires n <= TWO32
    requires forall x: IP | x != ip :: u.At(x) == w.At(x)
    requires HistoryCount(u.At(ip), r) == HistoryCount(w.At(ip), r) + k
    ensures Column(u, r, n) == Column(w, r, n) + if ip < n then k else 0
  {
    if n > 0 {
      ColumnMoves(w, u, ip, r, k, n - 1);
      if n - 1 != ip {
        assert u.At(n - 1) == w.At(n - 1);
      }
    }
  }

  lemma {:induction false} EmptyColumn(w: World, r: Reason, n: nat)
    requires n <= TWO32 && forall x: IP :: w.At(x) == UNKNOWN
    ensures Column(w, r, n) == 0
  {
    if n > 0 {
      EmptyColumn(w, r, n - 1);
      assert w.At(n - 1) == UNKNOWN;
    }
  }

  lemma AccountCounts(h: Option<DropHistory>, o: Outcome, now: u64, s: IpState, r: Reason)
    requires s.history == Account(h, o, now)
    ensures HistoryCount(s, r)
            == (if h.Some? then h.value.counts[r.Index()] else 0)
               + One(o.DropReason() == Some(r) && r != MalformedHandshake)
  {
  }

  lemma ActCounts(cfg: Config, s: IpState, e: Runs.Event, r: Reason)
    requires !e.Evict?
    ensures var d := Runs.Act(cfg, s, e);
            HistoryCount(d.state, r)
            == HistoryCount(s, r) + One(d.outcome.DropReason() == Some(r) && r != MalformedHandshake)
  {
    match e {
      case Packet(pkt, now, breaker) =>
        Effects.PacketMoves(cfg, s, pkt, now, breaker);
        var d := PacketStep(cfg, s, pkt, now, breaker);
        AccountCounts(s.history, d.outcome, now, d.state, r);
      case Socket(op, now) => Effects.SocketStepMoves(s, op, now);
    }
  }

  lemma NextColumn(cfg: Config, w: World, e: WorldEvent, r: Reason)
    requires !e.Evict?
    ensures var (u, o) := Next(cfg, w, e);
            Column(u, r, TWO32) == Column(w, r, TWO32) + One(o.DropReason() == Some(r) && r != MalformedHandshake)
  {
    var (u, o) := Next(cfg, w, e);
    Isolation.NextAt(cfg, w, e, e.src);
    ActCounts(cfg, w.At(e.src), Isolation.Seen(cfg, w, e), r);
    forall x: IP | x != e.src ensures u.At(x) == w.At(x) {
      Isolation.NextAt(cfg, w, e, x);
    }
    ColumnMoves(w, u, e.src, r, One(o.DropReason() == Some(r) && r != MalformedHandshake), TWO32);
  }

  /** Over every run from boot: the drop slots add up to the packets dropped; the slot of
      each reason counts its drops, and so does the column of the histories, except that
      malformed handshakes leave no history. */
  lemma {:induction false} DropConservation(cfg: Config, cpus: nat, es: seq<WorldEvent>, r: Reason)
    requires WorldUnevicted(es)
    ensures var w := After(cfg, Boot(cpus), es);
            && DropTotal(w.stats) == Drops(cfg, Boot(cpus), es)
            && w.stats[r.Slot().Index()] == DropsFor(cfg, Boot(cpus), es, r)
            && Column(w, r, TWO32) == if r == MalformedHandshake then 0 else w.stats[r.Slot().Index()]
  {
    if es == [] {
      EmptyColumn(Boot(cpus), r, TWO32);
    } else {
      var n := |es| - 1;
      DropConservation(cfg, cpus, es[..n], r);
      var u := After(cfg, Boot(cpus), es[..n]);
      NextStats(cfg, u, es[n], r);
      NextColumn(cfg, u, es[n], r);
    }
  }

  // ---- The history of one source ----

  /** The drop goes on record. */
  predicate Recorded(o: Outcome) {
    o.Drops() && o.DropReason() != Some(MalformedHandshake)
  }

  /** When packets of a run were dropped, those malformed aside. */
  function DropTimes(cfg: Config, es: seq<Runs.Event>): seq<u64> {
    if es == [] then []
    else
      var before, e := es[..|es| - 1], es[|es| - 1];
      DropTimes(cfg, before)
      + if Recorded(Runs.Act(cfg, Runs.After(cfg, UNKNOWN, before), e).outcome) then [e.now] else []
  }

  function DroppedFor(cfg: Config, es: seq<Runs.Event>, r: Reason): nat {
    Meters.Tally(cfg, UNKNOWN, es, (o: Outcome) => o.DropReason() == Some(r))
  }

  ghost predicate Tells(h: Option<DropHistory>, ts: seq<u64>, i: nat, n: nat)
    requires i < 10
  {
    if ts == [] then h.None? && n == 0
    else h.Some? && h.value.first == ts[0] && h.value.last == ts[|ts| - 1] && h.value.counts[i] == n
  }

  lemma RecordTells(h: Option<DropHistory>, ts: seq<u64>, i: nat, n: nat, o: Outcome, now: u64)
    requires i < 10 && Tells(h, ts, i, n)
    ensures Tells(Account(h, o, now), if Recorded(o) then ts + [now] else ts, i,
                  n + One(Recorded(o) && o.DropReason() == Some(ReasonAt(i))))
  {
    if Recorded(o) { IndicesAreFixed(o.DropReason().value, i); }
  }

  lemma ActTells(cfg: Config, s: IpState, e: Runs.Event, ts: seq<u64>, i: nat, n: nat)
    requires i < 10 && !e.Evict? && Tells(s.history, ts, i, n)
    ensures var d := Runs.Act(cfg, s, e);
            Tells(d.state.history, if Recorded(d.outcome) then ts + [e.now] else ts, i,
                  n + One(Recorded(d.outcome) && d.outcome.DropReason() == Some(ReasonAt(i))))
  {
    match e {
      case Packet(pkt, now, breaker) =>
        Effects.PacketMoves(cfg, s, pkt, now, breaker);
        RecordTells(s.history, ts, i, n, PacketStep(cfg, s, pkt, now, breaker).outcome, now);
      case Socket(op, now) => Effects.SocketStepMoves(s, op, now);
    }
  }

  /** After any run without evictions the history of a source tells when its first and its
      last packet was dropped, and in column i how many for reason i; but malformed
      handshakes leave no trace in it. */
  lemma {:induction false} HistoryIsExact(cfg: Config, es: seq<Runs.Event>, i: nat)
    requires Runs.NoEvictions(es) && i < 10
    ensures Tells(Runs.After(cfg, UNKNOWN, es).history, DropTimes(cfg, es), i,
                  if i == 5 then 0 else DroppedFor(cfg, es, ReasonAt(i)))
  {
    if es != [] {
      var before, e := es[..|es| - 1], es[|es| - 1];
      HistoryIsExact(cfg, before, i);
      ActTells(cfg, Runs.After(cfg, UNKNOWN, before), e, DropTimes(cfg, before), i,
               if i == 5 then 0 else DroppedFor(cfg, before, ReasonAt(i)));
      assert DropTimes(cfg, before) + [] == DropTimes(cfg, before);
    }
  }

  ghost predicate HistoryOk(h: Option<DropHistory>, now: int) {
    h.Some? ==> h.value.first <= h.value.last <= now
  }

  lemma ActHistory(cfg: Config, s: IpState, e: Runs.Event, t: int)
    requires HistoryOk(s.history, t) && t <= e.now
    ensures HistoryOk(Runs.Act(cfg, s, e).state.history, e.now)
  {
    match e {
      case Packet(pkt, now, breaker) => Effects.PacketMoves(cfg, s, pkt, now, breaker);
      case Socket(op, now) => Effects.SocketStepMoves(s, op, now);
      case Evict(table, now) =>
    }
  }

  /** Every history's first drop is no later than its last, and that no later than now. */
  lemma {:induction false} HistoriesAreOrdered(cfg: Config, cpus: nat, es: seq<WorldEvent>, ip: IP)
    requires WorldClocked(es)
    ensures HistoryOk(After(cfg, Boot(cpus), es).At(ip).history, if es == [] then 0 else es[|es| - 1].now)
  {
    if es != [] {
      var n := |es| - 1;
      HistoriesAreOrdered(cfg, cpus, es[..n], ip);
      var w := After(cfg, Boot(cpus), es[..n]);
      Isolation.NextAt(cfg, w, es[n], ip);
      if es[n].src == ip {
        ActHistory(cfg, w.At(ip), Isolation.Seen(cfg, w, es[n]), if n == 0 then 0 else es[n - 1].now);
      }
    }
  }
}
