/** The open counter under every interleaving. Sockets of one source open and close on
    several CPUs at once; each takes the atomic steps of open_count_inc and open_count_dec
    one at a time, and anything may happen between two of them. */
module OpenCounter {
  import opened Words
  import opened Maps
  import opened Policy
  import opened Effects

  type Id = nat

  /** How far a socket has come. `start` and `seen` are the number of writes to the
      counter when the close began and when the counter was last read. */
  datatype Phase =
    | Inserted                                            // tcp_established is written
    | Zeroed                                              // the counter slot exists
    | Live                                                // the counter counts the socket
    | Reading(tries: nat, start: nat)                     // closing: about to read the counter
    | Swapping(tries: nat, start: nat, cur: u64, seen: nat) // closing: about to compare and swap
    | Cleaning(deleted: nat)                              // swapped 1 for 0, deleting trust
    | Cleaned
    | Closed
    | GaveUp(start: nat, end: nat)
    | SawZero
    | SawNoSlot

  datatype State = State(ip: IpState, phases: map<Id, Phase>, writes: nat) {
    function Put(id: Id, p: Phase): State {
      this.(phases := phases[id := p])
    }

    function Value(): nat {
      if ip.openCount.Some? then ip.openCount.value else 0
    }
  }

  const NOBODY := State(UNKNOWN, map[], 0)

  datatype Action =
    | Run(id: Id, now: u64)
    | Deliver(pkt: Packet, now: u64, breaker: bool)

  function Write(st: State, id: Id, value: u64, p: Phase): State {
    State(st.ip.(openCount := Some(value)), st.phases[id := p], st.writes + 1)
  }

  /** The next atomic step of a socket that has been seen before. */
  function RunNext(st: State, id: Id): State
    requires id in st.phases
  {
    match st.phases[id]
    case Inserted =>
      st.(ip := if st.ip.openCount.None? then st.ip.(openCount := Some(0)) else st.ip).Put(id, Zeroed)
    case Zeroed =>
      if st.ip.openCount.None? then st.Put(id, SawNoSlot)
      else Write(st, id, Add64(st.ip.openCount.value, 1), Live)
    case Live =>
      st.Put(id, if st.ip.openCount.None? then SawNoSlot else Reading(0, st.writes))
    case Reading(tries, start) =>
      st.Put(id, if st.ip.openCount.None? then SawNoSlot
                 else if st.ip.openCount.value == 0 then SawZero
                 else Swapping(tries, start, st.ip.openCount.value, st.writes))
    case Swapping(tries, start, cur, seen) =>
      if st.ip.openCount == Some(cur) then
        Write(st, id, Sub64(cur, 1), if cur == 1 then Cleaning(0) else Closed)
      else
        st.Put(id, if tries + 1 < MAX_TRIES then Reading(tries + 1, start) else GaveUp(start, st.writes))
    case Cleaning(deleted) =>
      if deleted == 0 then st.(ip := st.ip.(established := None)).Put(id, Cleaning(1))
      else if deleted == 1 then st.(ip := st.ip.(whitelist := None)).Put(id, Cleaning(2))
      else st.(ip := st.ip.(firstData := None)).Put(id, Cleaned)
    case _ => st
  }

  /** One atomic step: a new socket enters by being established; packets are atomic. */
  function Act(cfg: Config, st: State, a: Action): State {
    match a
    case Run(id, now) =>
      if id in st.phases then RunNext(st, id)
      else st.(ip := st.ip.(established := Some(now))).Put(id, Inserted)
    case Deliver(pkt, now, breaker) =>
      st.(ip := PacketStep(cfg, st.ip, pkt, now, breaker).state)
  }

  function After(cfg: Config, st: State, acts: seq<Action>): State {
    if acts == [] then st else Act(cfg, After(cfg, st, acts[..|acts| - 1]), acts[|acts| - 1])
  }

  // ---- Groups of sockets ----

  datatype Group = Alive | Counted | Entered | Left | Cleaners | Stuck

  predicate In(g: Group, p: Phase) {
    match g
    case Alive => p.Live?
    case Counted => p.Live? || p.Reading? || p.Swapping? || p.GaveUp?
    case Entered => !p.Inserted? && !p.Zeroed? && !p.SawNoSlot?
    case Left => p.Cleaning? || p.Cleaned? || p.Closed?
    case Cleaners => p.Cleaning? || p.Cleaned?
    case Stuck => p.GaveUp?
  }

  function Members(phases: map<Id, Phase>, g: Group): set<Id> {
    set id | id in phases && In(g, phases[id])
  }

  function Was(phases: map<Id, Phase>, id: Id, g: Group): nat {
    if id in phases && In(g, phases[id]) then 1 else 0
  }

  lemma MembersApart(phases: map<Id, Phase>, id: Id, g: Group)
    ensures |Members(phases, g)| == |Members(phases - {id}, g)| + Was(phases, id, g)
  {
    var rest := Members(phases - {id}, g);
    if Was(phases, id, g) == 1 {
      assert Members(phases, g) == rest + {id};
    } else {
      assert Members(phases, g) == rest;
    }
  }

  lemma PutMoves(phases: map<Id, Phase>, id: Id, p: Phase, g: Group)
    ensures |Members(phases[id := p], g)| == |Members(phases, g)| - Was(phases, id, g) + if In(g, p) then 1 else 0
  {
    MembersApart(phases, id, g);
    MembersApart(phases[id := p], id, g);
    assert phases[id := p] - {id} == phases - {id};
  }

  // ---- The invariant ----

  ghost predicate PhaseOk(st: State, p: Phase) {
    match p
    case Inserted => true
    case Reading(tries, start) => st.ip.openCount.Some? && tries < MAX_TRIES && start + tries <= st.writes
    case Swapping(tries, start, cur, seen) =>
      && st.ip.openCount.Some? && cur > 0 && tries < MAX_TRIES && start + tries <= seen <= st.writes
      && (seen == st.writes ==> st.ip.openCount == Some(cur))
    case GaveUp(start, end) => st.ip.openCount.Some? && start + MAX_TRIES <= end <= st.writes
    case SawZero => false
    case SawNoSlot => false
    case _ => st.ip.openCount.Some?
  }

  /** The counter counts exactly the sockets that were added and have not swapped. */
  ghost predicate Inv(st: State) {
    && st.Value() == |Members(st.phases, Counted)|
    && forall id | id in st.phases :: PhaseOk(st, st.phases[id])
  }

  lemma CountedFits(st: State)
    ensures |Members(st.phases, Counted)| <= |st.phases|
  {
    SubsetSize(Members(st.phases, Counted), st.phases.Keys);
    assert |st.phases| == |st.phases.Keys|;
  }

  lemma {:induction false} SubsetSize(a: set<Id>, b: set<Id>)
    requires a <= b
    ensures |a| <= |b|
  {
    if a != {} {
      var x :| x in a;
      SubsetSize(a - {x}, b - {x});
    }
  }

  lemma SelfIsCounted(st: State, id: Id)
    requires Inv(st) && id in st.phases && In(Counted, st.phases[id])
    ensures st.Value() >= 1
  {
    assert id in Members(st.phases, Counted);
  }

  lemma RunKeeps(st: State, id: Id)
    requires Inv(st) && id in st.phases && |st.phases| < TWO64
    ensures Inv(RunNext(st, id)) && RunNext(st, id).phases.Keys == st.phases.Keys
  {
    assert PhaseOk(st, st.phases[id]);
    CountedFits(st);
    PutMoves(st.phases, id, RunNext(st, id).phases[id], Counted);
    match st.phases[id]
    case Zeroed => ZeroedIsSpare(st, id);
    case Reading(_, _) => SelfIsCounted(st, id);
    case Swapping(_, _, _, _) => SelfIsCounted(st, id);
    case _ =>
  }

  /** A socket not yet counted leaves room for itself. */
  lemma ZeroedIsSpare(st: State, id: Id)
    requires Inv(st) && id in st.phases && !In(Counted, st.phases[id])
    ensures st.Value() + 1 <= |st.phases|
  {
    SubsetSize(Members(st.phases, Counted), st.phases.Keys - {id});
    assert |st.phases| == |st.phases.Keys| == |st.phases.Keys - {id}| + 1;
  }

  lemma ActKeeps(cfg: Config, st: State, a: Action)
    requires Inv(st) && |Act(cfg, st, a).phases| < TWO64
    ensures Inv(Act(cfg, st, a))
  {
    match a
    case Run(id, now) =>
      if id in st.phases {
        var next := RunNext(st, id);
        assert next.phases.Keys == st.phases.Keys;
        assert |next.phases| == |next.phases.Keys| == |st.phases.Keys| == |st.phases|;
        RunKeeps(st, id);
      } else {
        PutMoves(st.phases, id, Inserted, Counted);
      }
    case Deliver(pkt, now, breaker) =>
      DeliverCounts(cfg, st, pkt, now, breaker);
  }

  lemma DeliverCounts(cfg: Config, st: State, pkt: Packet, now: u64, breaker: bool)
    ensures PacketStep(cfg, st.ip, pkt, now, breaker).state.openCount == st.ip.openCount
    ensures PacketStep(cfg, st.ip, pkt, now, breaker).state.established == st.ip.established
  {
    PacketMoves(cfg, st.ip, pkt, now, breaker);
  }

  lemma PhasesGrow(cfg: Config, st: State, a: Action)
    ensures |st.phases| <= |Act(cfg, st, a).phases|
  {
    var next := Act(cfg, st, a);
    assert st.phases.Keys <= next.phases.Keys;
    SubsetSize(st.phases.Keys, next.phases.Keys);
    assert |st.phases| == |st.phases.Keys| && |next.phases| == |next.phases.Keys|;
  }

  lemma {:induction false} AfterInv(cfg: Config, acts: seq<Action>)
    requires |After(cfg, NOBODY, acts).phases| < TWO64
    ensures Inv(After(cfg, NOBODY, acts))
  {
    if acts == [] {
      assert Members(NOBODY.phases, Counted) == {};
    } else {
      var n := |acts| - 1;
      PhasesGrow(cfg, After(cfg, NOBODY, acts[..n]), acts[n]);
      AfterInv(cfg, acts[..n]);
      ActKeeps(cfg, After(cfg, NOBODY, acts[..n]), acts[n]);
    }
  }

  // ---- Tallies of a run ----

  /** The step is the atomic add of an open: the socket has made sure of the slot. */
  predicate Adds(st: State, a: Action) {
    a.Run? && a.id in st.phases && st.phases[a.id].Zeroed? && st.ip.openCount.Some?
  }

  /** The step is a compare-and-swap that finds the value the close has read. */
  predicate SwapsIn(st: State, a: Action) {
    && a.Run? && a.id in st.phases && st.phases[a.id].Swapping?
    && st.ip.openCount == Some(st.phases[a.id].cur)
  }

  /** The step is a successful swap of 1 for 0. */
  predicate Empties(st: State, a: Action) {
    SwapsIn(st, a) && st.phases[a.id].cur == 1
  }

  function Increments(cfg: Config, acts: seq<Action>): nat {
    if acts == [] then 0
    else
      var before, a := acts[..|acts| - 1], acts[|acts| - 1];
      Increments(cfg, before) + if Adds(After(cfg, NOBODY, before), a) then 1 else 0
  }

  function Swaps(cfg: Config, acts: seq<Action>): nat {
    if acts == [] then 0
    else
      var before, a := acts[..|acts| - 1], acts[|acts| - 1];
      Swaps(cfg, before) + if SwapsIn(After(cfg, NOBODY, before), a) then 1 else 0
  }

  /** Updates of the counter: atomic adds and successful swaps. */
  function Updates(cfg: Config, acts: seq<Action>): nat {
    Increments(cfg, acts) + Swaps(cfg, acts)
  }

  function Emptied(cfg: Config, acts: seq<Action>): nat {
    if acts == [] then 0
    else
      var before, a := acts[..|acts| - 1], acts[|acts| - 1];
      Emptied(cfg, before) + if Empties(After(cfg, NOBODY, before), a) then 1 else 0
  }

  /** An add enters a socket and raises the counter, a successful swap has one leave and
      lowers it, the swap of 1 for 0 makes a cleaner; nothing else moves any of these. */
  ghost predicate Paired(cfg: Config, st: State, a: Action) {
    var next := Act(cfg, st, a);
    && |Members(next.phases, Entered)| == |Members(st.phases, Entered)| + (if Adds(st, a) then 1 else 0)
    && |Members(next.phases, Left)| == |Members(st.phases, Left)| + (if SwapsIn(st, a) then 1 else 0)
    && |Members(next.phases, Cleaners)| == |Members(st.phases, Cleaners)| + (if Empties(st, a) then 1 else 0)
    && next.Value() - st.Value() == (if Adds(st, a) then 1 else 0) - (if SwapsIn(st, a) then 1 else 0)
    && next.writes - st.writes == (if Adds(st, a) then 1 else 0) + (if SwapsIn(st, a) then 1 else 0)
  }

  lemma ActPairs(cfg: Config, st: State, a: Action)
    requires Inv(st) && |Act(cfg, st, a).phases| < TWO64
    ensures Paired(cfg, st, a)
  {
    match a
    case Run(id, now) =>
      if id in st.phases {
        RunPairs(cfg, st, a);
        PhasesPair(cfg, st, a);
      } else {
        PhasesPair(cfg, st, a);
      }
    case Deliver(pkt, now, breaker) =>
      DeliverCounts(cfg, st, pkt, now, breaker);
  }

  lemma PhasesPair(cfg: Config, st: State, a: Action)
    requires a.Run?
    ensures var next := Act(cfg, st, a);
            && a.id in next.phases
            && forall g: Group :: |Members(next.phases, g)| == |Members(st.phases, g)| - Was(st.phases, a.id, g)
                                                              + Was(next.phases, a.id, g)
  {
    var next := Act(cfg, st, a);
    var p := next.phases[a.id];
    assert next.phases == st.phases[a.id := p];
    forall g: Group
      ensures |Members(next.phases, g)|
              == |Members(st.phases, g)| - Was(st.phases, a.id, g) + Was(next.phases, a.id, g)
    {
      PutMoves(st.phases, a.id, p, g);
    }
  }

  lemma RunPairs(cfg: Config, st: State, a: Action)
    requires Inv(st) && |Act(cfg, st, a).phases| < TWO64 && a.Run? && a.id in st.phases
    ensures var p, q := st.phases[a.id], Act(cfg, st, a).phases[a.id];
            && (Adds(st, a) <==> p.Zeroed?) && (p.Zeroed? ==> q.Live?)
            && (SwapsIn(st, a) <==> p.Swapping? && In(Left, q)) && (In(Left, q) ==> p.Swapping? || In(Left, p))
            && (Empties(st, a) <==> p.Swapping? && q.Cleaning?)
            && Act(cfg, st, a).Value() - st.Value()
               == (if Adds(st, a) then 1 else 0) - (if SwapsIn(st, a) then 1 else 0)
            && Act(cfg, st, a).writes == st.writes + (if p.Zeroed? || (p.Swapping? && In(Left, q)) then 1 else 0)
            && !q.SawZero? && !q.SawNoSlot?
  {
    PhasesGrow(cfg, st, a);
    assert PhaseOk(st, st.phases[a.id]);
    CountedFits(st);
    match st.phases[a.id]
    case Zeroed => ZeroedIsSpare(st, a.id);
    case Reading(_, _) => SelfIsCounted(st, a.id);
    case Swapping(_, _, _, _) => SelfIsCounted(st, a.id);
    case _ =>
  }

  lemma {:induction false} TalliesAreGroups(cfg: Config, acts: seq<Action>)
    requires |After(cfg, NOBODY, acts).phases| < TWO64
    ensures var st := After(cfg, NOBODY, acts);
            && Increments(cfg, acts) == |Members(st.phases, Entered)|
            && Swaps(cfg, acts) == |Members(st.phases, Left)|
            && Emptied(cfg, acts) == |Members(st.phases, Cleaners)|
            && st.Value() == Increments(cfg, acts) - Swaps(cfg, acts)
            && st.writes == Increments(cfg, acts) + Swaps(cfg, acts)
  {
    if acts == [] {
      assert Members(NOBODY.phases, Entered) == Members(NOBODY.phases, Left) == Members(NOBODY.phases, Cleaners) == {};
    } else {
      var n := |acts| - 1;
      var st := After(cfg, NOBODY, acts[..n]);
      PhasesGrow(cfg, st, acts[n]);
      TalliesAreGroups(cfg, acts[..n]);
      AfterInv(cfg, acts[..n]);
      ActPairs(cfg, st, acts[n]);
    }
  }

  // ---- The main results ----

  /** Whatever the interleaving: the counter is the atomic adds executed minus the swaps
      that succeeded, and counts the sockets added that have not swapped; every socket past
      its open was added once, every closed one swapped once. The counter has not wrapped
      and is never below the live sockets; every swap of 1 for 0 has its own cleaner; and no
      paired close finds the counter zero or missing. */
  lemma CounterIsExact(cfg: Config, acts: seq<Action>)
    requires |After(cfg, NOBODY, acts).phases| < TWO64
    ensures var st := After(cfg, NOBODY, acts);
            && st.Value() == Increments(cfg, acts) - Swaps(cfg, acts) == |Members(st.phases, Counted)|
            && Increments(cfg, acts) == |Members(st.phases, Entered)|
            && Swaps(cfg, acts) == |Members(st.phases, Left)|
            && |Members(st.phases, Alive)| <= st.Value() <= |st.phases|
            && Emptied(cfg, acts) == |Members(st.phases, Cleaners)|
            && (forall id | id in st.phases :: !st.phases[id].SawZero? && !st.phases[id].SawNoSlot?)
  {
    var st := After(cfg, NOBODY, acts);
    AfterInv(cfg, acts);
    TalliesAreGroups(cfg, acts);
    CountedFits(st);
    SubsetSize(Members(st.phases, Alive), Members(st.phases, Counted));
    forall id | id in st.phases ensures !st.phases[id].SawZero? && !st.phases[id].SawNoSlot? {
      assert PhaseOk(st, st.phases[id]);
    }
  }

  /** A close that began when the counter had been written `since` times. */
  predicate ClosesSince(p: Phase, since: nat) {
    match p
    case Inserted => false
    case Zeroed => false
    case Reading(_, start) => since <= start
    case Swapping(_, start, _, _) => since <= start
    case GaveUp(start, _) => since <= start
    case _ => true
  }

  lemma ClosesStill(cfg: Config, st: State, a: Action, id: Id, since: nat)
    requires id in st.phases && ClosesSince(st.phases[id], since) && since <= st.writes
    ensures var next := Act(cfg, st, a);
            id in next.phases && ClosesSince(next.phases[id], since) && since <= next.writes
  {
  }

  lemma {:induction false} StartsLater(cfg: Config, acts: seq<Action>, k: nat, id: Id)
    requires k <= |acts| && id in After(cfg, NOBODY, acts[..k]).phases && After(cfg, NOBODY, acts[..k]).phases[id].Live?
    decreases |acts|
    ensures id in After(cfg, NOBODY, acts).phases
    ensures ClosesSince(After(cfg, NOBODY, acts).phases[id], After(cfg, NOBODY, acts[..k]).writes)
    ensures After(cfg, NOBODY, acts[..k]).writes <= After(cfg, NOBODY, acts).writes
  {
    var n := |acts| - 1;
    if k == n + 1 {
      assert acts[..k] == acts;
    } else {
      assert acts[..n][..k] == acts[..k];
      StartsLater(cfg, acts[..n], k, id);
      ClosesStill(cfg, After(cfg, NOBODY, acts[..n]), acts[n], id, After(cfg, NOBODY, acts[..k]).writes);
    }
  }

  /** A close gives up only if, between the socket being live and that, the counter was
      updated eight times; and none of those updates was its own. */
  lemma GivingUpTakesEight(cfg: Config, acts: seq<Action>, k: nat, id: Id)
    requires k <= |acts| && |After(cfg, NOBODY, acts).phases| < TWO64
    requires |After(cfg, NOBODY, acts[..k]).phases| < TWO64
    requires id in After(cfg, NOBODY, acts[..k]).phases && After(cfg, NOBODY, acts[..k]).phases[id].Live?
    requires id in After(cfg, NOBODY, acts).phases && After(cfg, NOBODY, acts).phases[id].GaveUp?
    ensures Updates(cfg, acts) >= Updates(cfg, acts[..k]) + MAX_TRIES
    ensures id in Members(After(cfg, NOBODY, acts).phases, Counted)
  {
    StartsLater(cfg, acts, k, id);
    AfterInv(cfg, acts);
    TalliesAreGroups(cfg, acts);
    TalliesAreGroups(cfg, acts[..k]);
    assert PhaseOk(After(cfg, NOBODY, acts), After(cfg, NOBODY, acts).phases[id]);
  }

  // ---- Eight is exact ----

  ghost predicate LiveAt(cfg: Config, acts: seq<Action>, id: Id) {
    var st := After(cfg, NOBODY, acts);
    |st.phases| < TWO64 && id in st.phases && st.phases[id].Live?
  }

  ghost predicate StuckAfter(cfg: Config, acts: seq<Action>, id: Id) {
    var st := After(cfg, NOBODY, acts);
    |st.phases| < TWO64 && id in st.phases && st.phases[id].GaveUp?
  }

  /** The close that begins with action k gives up, the counter having been updated at most
      n times since. */
  ghost predicate GivesUpWithin(cfg: Config, acts: seq<Action>, k: nat, id: Id, n: nat) {
    && k < |acts| && acts[k].Run? && acts[k].id == id
    && LiveAt(cfg, acts[..k], id) && StuckAfter(cfg, acts, id)
    && Updates(cfg, acts) <= Updates(cfg, acts[..k]) + n
  }

  /** Socket 1 opens and begins to close; then n times it reads the counter, another socket
      opens, and its swap fails. */
  function Outrun(n: nat, now: u64): seq<Action> {
    if n == 0 then [Run(1, now), Run(1, now), Run(1, now), Run(1, now)]
    else Outrun(n - 1, now) + RaceActs(n + 1, now)
  }

  function RaceActs(id: Id, now: u64): seq<Action> {
    [Run(1, now), Run(id, now), Run(id, now), Run(id, now), Run(1, now)]
  }

  lemma AfterSnoc(cfg: Config, acts: seq<Action>, a: Action)
    ensures After(cfg, NOBODY, acts + [a]) == Act(cfg, After(cfg, NOBODY, acts), a)
  {
    assert (acts + [a])[..|acts|] == acts;
  }

  /** The closing socket reads, another opens, the swap follows. */
  function Race(cfg: Config, st: State, id: Id, now: u64): State {
    var a, b := Run(1, now), Run(id, now);
    Act(cfg, Act(cfg, Act(cfg, Act(cfg, Act(cfg, st, a), b), b), b), a)
  }

  lemma AfterRace(cfg: Config, acts: seq<Action>, id: Id, now: u64)
    ensures After(cfg, NOBODY, acts + RaceActs(id, now)) == Race(cfg, After(cfg, NOBODY, acts), id, now)
  {
    var a, b := Run(1, now), Run(id, now);
    AfterSnoc(cfg, acts, a);
    AfterSnoc(cfg, acts + [a], b);
    AfterSnoc(cfg, acts + [a] + [b], b);
    AfterSnoc(cfg, acts + [a] + [b] + [b], b);
    AfterSnoc(cfg, acts + [a] + [b] + [b] + [b], a);
    assert acts + RaceActs(id, now) == acts + [a] + [b] + [b] + [b] + [a];
  }

  /** One lost race: the other socket's add comes between the read and the swap. */
  lemma LosesRace(cfg: Config, st: State, id: Id, now: u64)
    requires 1 in st.phases && st.phases[1].Reading? && id !in st.phases
    requires st.ip.openCount.Some? && 0 < st.ip.openCount.value < TWO64 - 1
    ensures var p, next := st.phases[1], Race(cfg, st, id, now);
            && next.ip.openCount == Some(st.ip.openCount.value + 1) && next.writes == st.writes + 1
            && next.phases == st.phases[id := Live][1 := if p.tries + 1 < MAX_TRIES then Reading(p.tries + 1, p.start)
                                                         else GaveUp(p.start, st.writes + 1)]
  {
    var a, b := Run(1, now), Run(id, now);
    var p := st.phases[1];
    var s1 := Act(cfg, st, a);
    assert s1.phases == st.phases[1 := Swapping(p.tries, p.start, st.ip.openCount.value, st.writes)];
    var s4 := Act(cfg, Act(cfg, Act(cfg, s1, b), b), b);
    assert s4.phases == s1.phases[id := Live] && s4.ip.openCount == Some(st.ip.openCount.value + 1);
  }

  /** After n lost races: n sockets beside the first, none of them closing. */
  ghost predicate Outran(st: State, n: nat) {
    && 1 in st.phases && st.phases[1] == (if n < MAX_TRIES then Reading(n, 1) else GaveUp(1, MAX_TRIES + 1))
    && st.ip.openCount == Some(n + 1) && st.writes == n + 1 && |st.phases| == n + 1
    && forall id | id in st.phases :: id <= n + 1
  }

  lemma OneMoreKey(phases: map<Id, Phase>, id: Id, p: Phase)
    requires 1 in phases && id !in phases
    ensures |phases[id := Live][1 := p]| == |phases| + 1
  {
    var more := phases[id := Live][1 := p];
    assert more.Keys == phases.Keys + {id};
    assert |more| == |more.Keys| && |phases| == |phases.Keys|;
  }

  lemma RaceOutruns(cfg: Config, st: State, n: nat, now: u64)
    requires 1 <= n <= MAX_TRIES && Outran(st, n - 1)
    ensures Outran(Race(cfg, st, n + 1, now), n)
  {
    LosesRace(cfg, st, n + 1, now);
    OneMoreKey(st.phases, n + 1, Race(cfg, st, n + 1, now).phases[1]);
  }

  lemma OutrunBegins(cfg: Config, now: u64)
    ensures Outran(After(cfg, NOBODY, Outrun(0, now)), 0)
  {
    var a := Run(1, now);
    OpensFirst(cfg, now);
    AfterSnoc(cfg, [a, a, a], a);
    assert Outrun(0, now) == [a, a, a] + [a];
    assert After(cfg, NOBODY, Outrun(0, now)).phases == map[1 := Reading(0, 1)];
  }

  lemma OutrunGoesOn(cfg: Config, acts: seq<Action>, n: nat, now: u64)
    requires 1 <= n <= MAX_TRIES && Outran(After(cfg, NOBODY, acts), n - 1)
    ensures Outran(After(cfg, NOBODY, acts + RaceActs(n + 1, now)), n)
  {
    AfterRace(cfg, acts, n + 1, now);
    RaceOutruns(cfg, After(cfg, NOBODY, acts), n, now);
  }

  lemma {:induction false} OutrunReaches(cfg: Config, n: nat, now: u64)
    requires n <= MAX_TRIES
    ensures Outran(After(cfg, NOBODY, Outrun(n, now)), n)
  {
    if n == 0 {
      OutrunBegins(cfg, now);
    } else {
      OutrunReaches(cfg, n - 1, now);
      OutrunGoesOn(cfg, Outrun(n - 1, now), n, now);
    }
  }

  lemma OpensFirst(cfg: Config, now: u64)
    ensures var a := Run(1, now);
            After(cfg, NOBODY, [a, a, a])
            == State(UNKNOWN.(established := Some(now), openCount := Some(1)), map[1 := Live], 1)
  {
    var a := Run(1, now);
    assert [a] == [] + [a] && [a, a] == [a] + [a] && [a, a, a] == [a, a] + [a];
    AfterSnoc(cfg, [], a);
    AfterSnoc(cfg, [a], a);
    assert After(cfg, NOBODY, [a, a])
        == State(UNKNOWN.(established := Some(now), openCount := Some(0)), map[1 := Zeroed], 0);
    AfterSnoc(cfg, [a, a], a);
  }

  lemma {:induction false} OutrunStarts(n: nat, now: u64)
    ensures |Outrun(n, now)| >= 4 && Outrun(n, now)[..4] == Outrun(0, now)
  {
    if n > 0 { OutrunStarts(n - 1, now); }
  }

  /** Eight updates in the way of a close suffice to make it give up. */
  lemma EightSuffice(cfg: Config, now: u64)
    ensures GivesUpWithin(cfg, Outrun(MAX_TRIES, now), 3, 1, MAX_TRIES)
  {
    var a := Run(1, now);
    var acts := Outrun(MAX_TRIES, now);
    OutrunStarts(MAX_TRIES, now);
    assert acts[..3] == acts[..4][..3] == [a, a, a];
    OutrunReaches(cfg, MAX_TRIES, now);
    OpensFirst(cfg, now);
    TalliesAreGroups(cfg, acts);
    TalliesAreGroups(cfg, acts[..3]);
    assert acts[3] == acts[..4][3] == a;
  }

  /** A close can give up with no more than n updates of the counter since it began if and
      only if n is at least eight. */
  lemma EightIsExact(cfg: Config, n: nat)
    ensures (exists acts, k, id :: GivesUpWithin(cfg, acts, k, id, n)) <==> n >= MAX_TRIES
  {
    forall acts, k, id | GivesUpWithin(cfg, acts, k, id, n) ensures n >= MAX_TRIES {
      GivingUpTakesEight(cfg, acts, k, id);
    }
    EightSuffice(cfg, 0);
    if n >= MAX_TRIES {
      assert GivesUpWithin(cfg, Outrun(MAX_TRIES, 0), 3, 1, n);
    }
  }

  /** No close is under way and no open is half done. */
  ghost predicate Quiet(st: State) {
    forall id | id in st.phases ::
      var p := st.phases[id]; p.Live? || p.Closed? || p.Cleaned? || p.GaveUp?
  }

  /** At rest the counter is the live sockets plus the closes that gave up. */
  lemma QuietCounter(cfg: Config, acts: seq<Action>)
    requires |After(cfg, NOBODY, acts).phases| < TWO64 && Quiet(After(cfg, NOBODY, acts))
    ensures var st := After(cfg, NOBODY, acts);
            st.Value() == |Members(st.phases, Alive)| + |Members(st.phases, Stuck)|
  {
    AfterInv(cfg, acts);
    var st := After(cfg, NOBODY, acts);
    assert Members(st.phases, Counted) == Members(st.phases, Alive) + Members(st.phases, Stuck);
    assert Members(st.phases, Alive) !! Members(st.phases, Stuck);
  }

  ghost predicate StuckAt(st: State, id: Id) {
    id in st.phases && st.phases[id].GaveUp?
  }

  lemma StuckStays(cfg: Config, st: State, a: Action, id: Id)
    requires Inv(st) && |Act(cfg, st, a).phases| < TWO64 && StuckAt(st, id)
    ensures StuckAt(Act(cfg, st, a), id) && Act(cfg, st, a).Value() >= 1
  {
    ActKeeps(cfg, st, a);
    SelfIsCounted(Act(cfg, st, a), id);
  }

  lemma {:induction false} StuckOn(cfg: Config, acts: seq<Action>, k: nat, id: Id)
    requires k <= |acts| && |After(cfg, NOBODY, acts).phases| < TWO64
    requires StuckAt(After(cfg, NOBODY, acts[..k]), id)
    decreases |acts|
    ensures StuckAt(After(cfg, NOBODY, acts), id) && Emptied(cfg, acts) == Emptied(cfg, acts[..k])
  {
    var n := |acts| - 1;
    if k == n + 1 {
      assert acts[..k] == acts;
    } else {
      var before := acts[..n];
      assert before[..k] == acts[..k];
      PhasesGrow(cfg, After(cfg, NOBODY, before), acts[n]);
      StuckOn(cfg, before, k, id);
      AfterInv(cfg, before);
      StuckStays(cfg, After(cfg, NOBODY, before), acts[n], id);
    }
  }

  /** Once a close has given up the counter is never zero again, so that source's trust is
      never cleaned up: not one more time is the counter emptied. */
  lemma GivingUpIsForever(cfg: Config, acts: seq<Action>, k: nat, id: Id)
    requires k <= |acts| && |After(cfg, NOBODY, acts).phases| < TWO64
    requires StuckAt(After(cfg, NOBODY, acts[..k]), id)
    ensures After(cfg, NOBODY, acts).Value() >= 1
    ensures Emptied(cfg, acts) == Emptied(cfg, acts[..k])
  {
    StuckOn(cfg, acts, k, id);
    AfterInv(cfg, acts);
    SelfIsCounted(After(cfg, NOBODY, acts), id);
  }

  // ---- Where interleaving breaks trust ----

  /** The socket has been established and its close has not succeeded. */
  predicate Holds(p: Phase) {
    p.Inserted? || p.Zeroed? || In(Counted, p)
  }

  /** Every source with an open socket is established. */
  ghost predicate Safe(st: State) {
    (exists id :: id in st.phases && Holds(st.phases[id])) ==> st.ip.established.Some?
  }

  /** A cleaner is about to delete tcp_established while another socket is open. */
  ghost predicate Clashes(st: State, a: Action) {
    && a.Run? && a.id in st.phases && st.phases[a.id] == Cleaning(0)
    && exists id :: id in st.phases && Holds(st.phases[id])
  }

  ghost predicate NeverClashes(cfg: Config, acts: seq<Action>) {
    acts == []
    || (var before := acts[..|acts| - 1];
        NeverClashes(cfg, before) && !Clashes(After(cfg, NOBODY, before), acts[|acts| - 1]))
  }

  ghost predicate AlwaysSafe(cfg: Config, acts: seq<Action>) {
    Safe(After(cfg, NOBODY, acts)) && (acts == [] || AlwaysSafe(cfg, acts[..|acts| - 1]))
  }

  lemma ActSafe(cfg: Config, st: State, a: Action)
    requires Safe(st) && Inv(st)
    ensures Safe(Act(cfg, st, a)) <==> !Clashes(st, a)
  {
    match a
    case Run(id, now) =>
      if id in st.phases {
        assert PhaseOk(st, st.phases[id]);
        RunHolds(st, id);
      } else {
        assert Holds(Act(cfg, st, a).phases[id]);
      }
    case Deliver(pkt, now, breaker) =>
      DeliverCounts(cfg, st, pkt, now, breaker);
  }

  lemma RunHolds(st: State, id: Id)
    requires id in st.phases && PhaseOk(st, st.phases[id])
    ensures forall x | x in st.phases && x != id ::
              x in RunNext(st, id).phases && RunNext(st, id).phases[x] == st.phases[x]
    ensures Holds(RunNext(st, id).phases[id]) ==> Holds(st.phases[id])
    ensures st.phases[id] == Cleaning(0) ==> RunNext(st, id).ip.established.None?
    ensures st.phases[id] != Cleaning(0) ==> RunNext(st, id).ip.established == st.ip.established
    ensures RunNext(st, id).phases.Keys == st.phases.Keys
  {
  }

  /** A source with an open socket is established throughout a run if and only if no
      cleaner reaches its first deletion while another socket is open. */
  lemma {:induction false} SafeUnlessClash(cfg: Config, acts: seq<Action>)
    requires |After(cfg, NOBODY, acts).phases| < TWO64
    ensures AlwaysSafe(cfg, acts) <==> NeverClashes(cfg, acts)
  {
    if acts != [] {
      var n := |acts| - 1;
      var st := After(cfg, NOBODY, acts[..n]);
      PhasesGrow(cfg, st, acts[n]);
      SafeUnlessClash(cfg, acts[..n]);
      if AlwaysSafe(cfg, acts[..n]) {
        AfterInv(cfg, acts[..n]);
        ActSafe(cfg, st, acts[n]);
      }
    }
  }

  function ClashingRun(now: u64): seq<Action> {
    var a, b := Run(1, now), Run(2, now);
    [a, a, a, a, a, a, b, b, b, a]
  }

  lemma OneMore(cfg: Config, acts: seq<Action>, k: nat)
    requires k < |acts|
    ensures After(cfg, NOBODY, acts[..k + 1]) == Act(cfg, After(cfg, NOBODY, acts[..k]), acts[k])
  {
    assert acts[..k + 1][..k] == acts[..k];
  }

  lemma OpensAndReads(cfg: Config, now: u64)
    ensures var st := After(cfg, NOBODY, ClashingRun(now)[..4]);
            st == State(UNKNOWN.(established := Some(now), openCount := Some(1)), map[1 := Reading(0, 1)], 1)
  {
    var acts := ClashingRun(now);
    var up := UNKNOWN.(established := Some(now));
    OneMore(cfg, acts, 0);
    OneMore(cfg, acts, 1);
    assert After(cfg, NOBODY, acts[..2]) == State(up.(openCount := Some(0)), map[1 := Zeroed], 0);
    OneMore(cfg, acts, 2);
    OneMore(cfg, acts, 3);
  }

  lemma OpensAndEmpties(cfg: Config, now: u64)
    ensures var st := After(cfg, NOBODY, ClashingRun(now)[..6]);
            st == State(UNKNOWN.(established := Some(now), openCount := Some(0)), map[1 := Cleaning(0)], 2)
  {
    OpensAndReads(cfg, now);
    OneMore(cfg, ClashingRun(now), 4);
    OneMore(cfg, ClashingRun(now), 5);
  }

  lemma SecondBegins(cfg: Config, now: u64)
    ensures var st := After(cfg, NOBODY, ClashingRun(now)[..8]);
            st == State(UNKNOWN.(established := Some(now), openCount := Some(0)),
                        map[1 := Cleaning(0), 2 := Zeroed], 2)
  {
    OpensAndEmpties(cfg, now);
    OneMore(cfg, ClashingRun(now), 6);
    OneMore(cfg, ClashingRun(now), 7);
  }

  lemma SecondOpens(cfg: Config, now: u64)
    ensures var st := After(cfg, NOBODY, ClashingRun(now)[..9]);
            st == State(UNKNOWN.(established := Some(now), openCount := Some(1)),
                        map[1 := Cleaning(0), 2 := Live], 3)
  {
    SecondBegins(cfg, now);
    OneMore(cfg, ClashingRun(now), 8);
    assert After(cfg, NOBODY, ClashingRun(now)[..9]).phases == map[1 := Cleaning(0), 2 := Live];
  }

  /** The clash happens: one socket's close empties the counter, a second opens, and only
      then is tcp_established deleted. The second is live and counted, its source unknown. */
  lemma ClashHappens(cfg: Config, now: u64)
    ensures var st := After(cfg, NOBODY, ClashingRun(now));
            st.phases == map[1 := Cleaning(1), 2 := Live] && st.ip.openCount == Some(1) && st.ip.established.None?
  {
    var acts := ClashingRun(now);
    SecondOpens(cfg, now);
    OneMore(cfg, acts, 9);
    assert acts[..10] == acts;
    assert After(cfg, NOBODY, acts).phases == map[1 := Cleaning(1), 2 := Live];
  }

  // ---- Trust without establishment ----

  ghost predicate IsCleaning(st: State, deleted: nat) {
    exists id :: id in st.phases && st.phases[id] == Cleaning(deleted)
  }

  /** Trust outlives establishment only while a cleaner is on its way to delete it. */
  ghost predicate TrustIsSwept(st: State) {
    && (st.ip.whitelist.Some? && st.ip.established.None? ==> IsCleaning(st, 1))
    && (st.ip.firstData.Some? && st.ip.established.None? ==> IsCleaning(st, 1) || IsCleaning(st, 2))
  }

  lemma DeliverSwept(cfg: Config, st: State, pkt: Packet, now: u64, breaker: bool)
    requires TrustIsSwept(st)
    ensures TrustIsSwept(Act(cfg, st, Deliver(pkt, now, breaker)))
  {
    PacketMoves(cfg, st.ip, pkt, now, breaker);
    MovesSwept(cfg, st.ip, PacketStep(cfg, st.ip, pkt, now, breaker), pkt, now, breaker);
  }

  lemma MovesSwept(cfg: Config, s: IpState, d: Step, pkt: Packet, now: u64, breaker: bool)
    requires Moves(cfg, s, d, pkt, now, breaker)
    ensures d.state.established == s.established
    ensures s.established.None? && d.state.whitelist.Some? ==> s.whitelist.Some?
    ensures s.established.None? && d.state.firstData.Some? ==> s.firstData.Some?
  {
  }

  lemma OthersGoOn(st: State, id: Id, deleted: nat)
    requires id in st.phases && IsCleaning(st, deleted) && st.phases[id] != Cleaning(deleted)
    ensures IsCleaning(RunNext(st, id), deleted)
  {
    var x :| x in st.phases && st.phases[x] == Cleaning(deleted);
    assert RunNext(st, id).phases[x] == Cleaning(deleted);
  }

  lemma RunSwept(st: State, id: Id)
    requires TrustIsSwept(st) && id in st.phases
    ensures TrustIsSwept(RunNext(st, id))
  {
    var next := RunNext(st, id);
    assert id in next.phases;
    if IsCleaning(st, 1) && st.phases[id] != Cleaning(1) { OthersGoOn(st, id, 1); }
    if IsCleaning(st, 2) && st.phases[id] != Cleaning(2) { OthersGoOn(st, id, 2); }
    if st.phases[id] == Cleaning(0) { assert next.phases[id] == Cleaning(1); }
    if st.phases[id] == Cleaning(1) { assert next.phases[id] == Cleaning(2); }
  }

  lemma {:induction false} AfterSwept(cfg: Config, acts: seq<Action>)
    ensures TrustIsSwept(After(cfg, NOBODY, acts))
  {
    if acts != [] {
      var n := |acts| - 1;
      AfterSwept(cfg, acts[..n]);
      var st := After(cfg, NOBODY, acts[..n]);
      match acts[n]
      case Run(id, now) => if id in st.phases { RunSwept(st, id); }
      case Deliver(pkt, now, breaker) => DeliverSwept(cfg, st, pkt, now, breaker);
    }
  }

  /** Under every interleaving: at rest a trusted source is established, and so is one with
      a first-data mark. */
  lemma QuietTrust(cfg: Config, acts: seq<Action>)
    requires Quiet(After(cfg, NOBODY, acts))
    ensures var s := After(cfg, NOBODY, acts).ip;
            (s.whitelist.Some? ==> s.established.Some?) && (s.firstData.Some? ==> s.established.Some?)
  {
    AfterSwept(cfg, acts);
  }

  // ---- Undisturbed, the steps are the atomic socket events ----

  lemma OpensAlone(cfg: Config, st: State, id: Id, now: u64)
    requires id !in st.phases
    ensures var a := Run(id, now);
            var open := Act(cfg, Act(cfg, Act(cfg, st, a), a), a);
            open.ip == SocketStep(st.ip, PassiveEstablished, now) && open.phases == st.phases[id := Live]
  {
  }

  /** Three steps close a socket that is not the last, six the last. */
  lemma ClosesAlone(cfg: Config, st: State, id: Id, before: TcpState, now: u64)
    requires id in st.phases && st.phases[id].Live? && st.Value() > 0 && CountsAsClose(before, Close)
    ensures var a := Run(id, now);
            var swapped := Act(cfg, Act(cfg, Act(cfg, st, a), a), a);
            var closed := Act(cfg, Act(cfg, Act(cfg, swapped, a), a), a);
            && closed.ip == SocketStep(st.ip, StateChange(before, Close), now)
            && closed.phases == st.phases[id := if st.Value() == 1 then Cleaned else Closed]
            && (st.Value() > 1 ==> closed == swapped)
  {
    var a := Run(id, now);
    var read := Act(cfg, Act(cfg, st, a), a);
    assert read.phases == st.phases[id := Swapping(0, st.writes, st.ip.openCount.value, st.writes)];
    var swapped := Act(cfg, read, a);
    assert swapped.phases == st.phases[id := if st.Value() == 1 then Cleaning(0) else Closed];
  }
}
