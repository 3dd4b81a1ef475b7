/** How much a token bucket admits: an upper bound over any window, and the exact
    condition under which it refuses nothing. */
module BucketBounds {
  import opened Words
  import opened Maps
  import opened Division
  import opened Buckets

  /** Total cost of the requests a run admits. */
  function Spent(l: Limit, b: Option<Bucket>, rs: seq<Request>): nat {
    if rs == [] then 0
    else
      var before, r := rs[..|rs| - 1], rs[|rs| - 1];
      Spent(l, b, before) + if Serve(l, LazyAfter(l, b, before), r).ok then r.cost else 0
  }

  predicate Grants(l: Limit, b: Option<Bucket>, rs: seq<Request>, k: nat)
    requires k < |rs|
  {
    Serve(l, LazyAfter(l, b, rs[..k]), rs[k]).ok
  }

  lemma {:induction false} DecisionsAreGrants(l: Limit, b: Option<Bucket>, rs: seq<Request>)
    ensures |LazyDecisions(l, b, rs)| == |rs|
    ensures forall k | 0 <= k < |rs| :: LazyDecisions(l, b, rs)[k] == Grants(l, b, rs, k)
  {
    if rs != [] {
      var before := rs[..|rs| - 1];
      DecisionsAreGrants(l, b, before);
      forall k | 0 <= k < |before| ensures Grants(l, b, before, k) == Grants(l, b, rs, k) {
        assert before[..k] == rs[..k];
      }
    }
  }

  // ---- Upper bound over a window ----

  function Max(a: int, b: int): int {
    if a < b then b else a
  }

  /** Ticks of a limit that can fall in a window of the given length. */
  function TicksAtMost(l: Limit, length: nat): nat {
    if l.period > 0 then CeilDiv(length, l.period) else 0
  }

  function Anchor(b: Option<Bucket>, rs: seq<Request>): int
    requires rs != []
  {
    if b.Some? then b.value.last else rs[0].at
  }

  function Capacity(l: Limit, b: Option<Bucket>, rs: seq<Request>): nat
    requires rs != []
  {
    if b.Some? then l.burst else Max(l.burst, rs[0].cost)
  }

  lemma {:induction false} Ledger(l: Limit, b: Option<Bucket>, rs: seq<Request>)
    requires rs != [] && Ordered(rs) && l.burst < TWO63 && OptionOk(l, b, rs[0].at)
    ensures var now := rs[|rs| - 1].at;
            && LazyAfter(l, b, rs).Some?
            && var after := LazyAfter(l, b, rs).value;
            && BucketOk(l, after, now) && Aligned(l, Anchor(b, rs), after.last)
            && Spent(l, b, rs) + Level(l, after, now)
               <= Capacity(l, b, rs) + TicksBetween(l, Anchor(b, rs), rs[0].at, now)
  {
    var n := |rs| - 1;
    var before, r := rs[..n], rs[n];
    if n == 0 {
      match b
      case None => FreshKeeps(l, r); if l.period > 0 { DivUnique(0, l.period, 0, 0); }
      case Some(v) => SpendKeeps(l, v, r);
    } else {
      Ledger(l, b, before);
      SpendLater(l, Anchor(b, rs), LazyAfter(l, b, before).value, rs[n - 1].at, r);
      TicksAdd(l, Anchor(b, rs), rs[0].at, rs[n - 1].at, r.at);
    }
  }

  /** Any window admits at most the burst plus one token per started period. Only a
      window that creates the bucket can exceed it, and then only by the part of its
      first request that the burst does not cover. */
  lemma WindowBound(l: Limit, b: Option<Bucket>, rs: seq<Request>)
    requires rs != [] && Ordered(rs) && l.burst < TWO63 && OptionOk(l, b, rs[0].at)
    ensures Spent(l, b, rs) <= Capacity(l, b, rs) + TicksAtMost(l, rs[|rs| - 1].at - rs[0].at)
  {
    Ledger(l, b, rs);
    var anchor, s, e := Anchor(b, rs), rs[0].at, rs[|rs| - 1].at;
    RefillIsExact(l, LazyAfter(l, b, rs).value, e);
    if l.period > 0 {
      QuotientGap(s - anchor, e - anchor, l.period);
    }
  }

  /** The request that creates a bucket is admitted and spends its whole cost. */
  lemma CreatingRequestIsAdmitted(l: Limit, r: Request)
    ensures Serve(l, None, r).ok && Spent(l, None, [r]) == r.cost
  {
    assert [r][..0] == [];
  }

  /** Every prefix of a run that creates its bucket spends at most the burst plus one token
      per period begun if and only if the creating request costs no more than the burst. */
  lemma PlainBoundIff(l: Limit, rs: seq<Request>)
    requires rs != [] && Ordered(rs) && l.burst < TWO63
    ensures (forall k | 1 <= k <= |rs| :: WithinPlainBound(l, rs[..k])) <==> rs[0].cost <= l.burst
  {
    if rs[0].cost <= l.burst {
      forall k | 1 <= k <= |rs| ensures WithinPlainBound(l, rs[..k]) {
        WindowBound(l, None, rs[..k]);
      }
    } else {
      assert rs[..1] == [rs[0]];
      CreatingRequestIsAdmitted(l, rs[0]);
      if l.period > 0 { DivUnique(l.period - 1, l.period, 0, l.period - 1); }
      assert !WithinPlainBound(l, rs[..1]);
    }
  }

  /** With a zero burst an existing bucket admits nothing that costs anything, at any time. */
  lemma ZeroBurstAdmitsNothing(l: Limit, b: Bucket, r: Request)
    requires l.burst == 0 && r.cost > 0
    ensures !Serve(l, Some(b), r).ok && Serve(l, Some(b), r).bucket == b
  {
  }

  predicate WithinPlainBound(l: Limit, rs: seq<Request>)
    requires rs != [] && rs[0].at <= rs[|rs| - 1].at
  {
    Spent(l, None, rs) <= l.burst + TicksAtMost(l, rs[|rs| - 1].at - rs[0].at)
  }

  // ---- Exactly when nothing is refused ----

  /** What request k takes: the creating request takes at most the burst. */
  function Charge(l: Limit, b: Option<Bucket>, rs: seq<Request>, k: nat): nat
    requires k < |rs|
  {
    if b.None? && k == 0 && rs[0].cost > l.burst then l.burst else rs[k].cost
  }

  function ChargeSum(l: Limit, b: Option<Bucket>, rs: seq<Request>, i: nat, j: nat): nat
    requires i <= j <= |rs|
  {
    if i == j then 0 else ChargeSum(l, b, rs, i, j - 1) + Charge(l, b, rs, j - 1)
  }

  ghost predicate AllGranted(l: Limit, b: Option<Bucket>, rs: seq<Request>, n: nat)
    requires n <= |rs|
  {
    forall k | 0 <= k < n :: Grants(l, b, rs, k)
  }

  /** The tokens request j finds. */
  function Found(l: Limit, b: Option<Bucket>, rs: seq<Request>, j: nat): u64
    requires j < |rs|
  {
    match LazyAfter(l, b, rs[..j])
    case None => l.burst
    case Some(v) => Level(l, v, rs[j].at)
  }

  /** The tokens a stretch can count on: at its start the burst, or, from the first request
      on, what that one finds. */
  function Start(l: Limit, b: Option<Bucket>, rs: seq<Request>, first: bool): u64
    requires rs != []
  {
    if first && b.Some? then Level(l, b.value, rs[0].at) else l.burst
  }

  predicate StretchFits(l: Limit, b: Option<Bucket>, rs: seq<Request>, i: nat, j: nat, first: bool)
    requires i <= j < |rs|
  {
    ChargeSum(l, b, rs, i, j + 1) <= Start(l, b, rs, first) + TicksBetween(l, Anchor(b, rs), rs[i].at, rs[j].at)
  }

  /** Every stretch i..j of requests costs at most the burst plus the ticks inside it, and
      every stretch from the first request at most what is there plus the ticks. */
  ghost predicate Conforms(l: Limit, b: Option<Bucket>, rs: seq<Request>) {
    && (forall i, j | 0 <= i <= j < |rs| :: StretchFits(l, b, rs, i, j, false))
    && (forall j | 0 <= j < |rs| :: StretchFits(l, b, rs, 0, j, true))
  }

  lemma Shape(l: Limit, b: Option<Bucket>, rs: seq<Request>, k: nat)
    requires 1 <= k <= |rs| && Ordered(rs) && l.burst < TWO63 && OptionOk(l, b, rs[0].at)
    ensures LazyAfter(l, b, rs[..k]).Some?
    ensures BucketOk(l, LazyAfter(l, b, rs[..k]).value, rs[k - 1].at)
    ensures Aligned(l, Anchor(b, rs), LazyAfter(l, b, rs[..k]).value.last)
  {
    Ledger(l, b, rs[..k]);
  }

  lemma FoundNext(l: Limit, b: Option<Bucket>, rs: seq<Request>, j: nat)
    requires j + 1 < |rs| && Ordered(rs) && l.burst < TWO63 && OptionOk(l, b, rs[0].at) && Grants(l, b, rs, j)
    ensures TicksBetween(l, Anchor(b, rs), rs[j].at, rs[j + 1].at) >= 0
    ensures var sum := Found(l, b, rs, j) - Charge(l, b, rs, j)
                       + TicksBetween(l, Anchor(b, rs), rs[j].at, rs[j + 1].at);
            Found(l, b, rs, j + 1) == (if sum > l.burst then l.burst else sum)
  {
    Shape(l, b, rs, j + 1);
    assert rs[..j + 1][..j] == rs[..j];
    SpendLater(l, Anchor(b, rs), LazyAfter(l, b, rs[..j + 1]).value, rs[j].at, rs[j + 1]);
    LeftOver(l, b, rs, j);
  }

  /** What a granted request leaves. */
  lemma LeftOver(l: Limit, b: Option<Bucket>, rs: seq<Request>, j: nat)
    requires j < |rs| && Ordered(rs) && l.burst < TWO63 && OptionOk(l, b, rs[0].at) && Grants(l, b, rs, j)
    ensures var after := Serve(l, LazyAfter(l, b, rs[..j]), rs[j]).bucket;
            Level(l, after, rs[j].at) == Found(l, b, rs, j) - Charge(l, b, rs, j)
  {
    if j == 0 {
      match b
      case None => FreshKeeps(l, rs[0]);
      case Some(v) => SpendKeeps(l, v, rs[0]);
    } else {
      Shape(l, b, rs, j);
      LevelLater(l, LazyAfter(l, b, rs[..j]).value, rs[j - 1].at, rs[j].at);
      SpendKeeps(l, LazyAfter(l, b, rs[..j]).value, rs[j]);
    }
  }

  /** While everything is granted, what request j finds is bounded by every earlier stretch ... */
  lemma {:induction false} FoundUpper(l: Limit, b: Option<Bucket>, rs: seq<Request>, i: nat, j: nat, first: bool)
    requires i <= j < |rs| && Ordered(rs) && l.burst < TWO63 && OptionOk(l, b, rs[0].at) && AllGranted(l, b, rs, j)
    requires first ==> i == 0
    ensures Found(l, b, rs, j)
            <= Start(l, b, rs, first) - ChargeSum(l, b, rs, i, j) + TicksBetween(l, Anchor(b, rs), rs[i].at, rs[j].at)
    decreases j - i
  {
    if i < j {
      assert Grants(l, b, rs, j - 1);
      FoundUpper(l, b, rs, i, j - 1, first);
      FoundNext(l, b, rs, j - 1);
      TicksAdd(l, Anchor(b, rs), rs[i].at, rs[j - 1].at, rs[j].at);
    }
  }

  /** The stretch from i on accounts for exactly what request j finds. */
  ghost predicate Accounts(l: Limit, b: Option<Bucket>, rs: seq<Request>, i: nat, j: nat, first: bool)
    requires i <= j < |rs|
  {
    && (first ==> i == 0)
    && Found(l, b, rs, j)
       == Start(l, b, rs, first) - ChargeSum(l, b, rs, i, j) + TicksBetween(l, Anchor(b, rs), rs[i].at, rs[j].at)
  }

  lemma AccountsNext(l: Limit, b: Option<Bucket>, rs: seq<Request>, i: nat, j: nat, first: bool)
    requires i <= j && j + 1 < |rs| && Accounts(l, b, rs, i, j, first)
    requires Ordered(rs) && l.burst < TWO63 && OptionOk(l, b, rs[0].at) && Grants(l, b, rs, j)
    ensures Accounts(l, b, rs, i, j + 1, first) || Accounts(l, b, rs, j + 1, j + 1, false)
  {
    FoundNext(l, b, rs, j);
    TicksAdd(l, Anchor(b, rs), rs[i].at, rs[j].at, rs[j + 1].at);
  }

  /** ... and attained by one of them. */
  lemma {:induction false} FoundAttained(l: Limit, b: Option<Bucket>, rs: seq<Request>, j: nat)
    returns (i: nat, first: bool)
    requires j < |rs| && Ordered(rs) && l.burst < TWO63 && OptionOk(l, b, rs[0].at) && AllGranted(l, b, rs, j)
    ensures i <= j && Accounts(l, b, rs, i, j, first)
  {
    if j == 0 {
      i, first := 0, true;
    } else {
      assert Grants(l, b, rs, j - 1);
      i, first := FoundAttained(l, b, rs, j - 1);
      AccountsNext(l, b, rs, i, j - 1, first);
      if !Accounts(l, b, rs, i, j, first) {
        i, first := j, false;
      }
    }
  }

  lemma GrantedIfCovered(l: Limit, b: Option<Bucket>, rs: seq<Request>, j: nat)
    requires j < |rs| && Ordered(rs) && l.burst < TWO63 && OptionOk(l, b, rs[0].at)
    ensures Grants(l, b, rs, j) <==> Charge(l, b, rs, j) <= Found(l, b, rs, j)
  {
    if j > 0 { Shape(l, b, rs, j); }
  }

  lemma {:induction false} GrantedIfConforms(l: Limit, b: Option<Bucket>, rs: seq<Request>, n: nat)
    requires n <= |rs| && Ordered(rs) && l.burst < TWO63 && Conforms(l, b, rs)
    requires rs != [] ==> OptionOk(l, b, rs[0].at)
    ensures AllGranted(l, b, rs, n)
  {
    if n > 0 {
      var j := n - 1;
      GrantedIfConforms(l, b, rs, j);
      var i, first := FoundAttained(l, b, rs, j);
      assert StretchFits(l, b, rs, i, j, first);
      GrantedIfCovered(l, b, rs, j);
    }
  }

  lemma FitsIfGranted(l: Limit, b: Option<Bucket>, rs: seq<Request>, i: nat, j: nat, first: bool)
    requires i <= j < |rs| && Ordered(rs) && l.burst < TWO63 && OptionOk(l, b, rs[0].at)
    requires AllGranted(l, b, rs, |rs|) && (first ==> i == 0)
    ensures StretchFits(l, b, rs, i, j, first)
  {
    assert AllGranted(l, b, rs, j) && Grants(l, b, rs, j);
    FoundUpper(l, b, rs, i, j, first);
    GrantedIfCovered(l, b, rs, j);
  }

  /** A run is granted in full if and only if every stretch of it conforms, whether the run
      creates the bucket or finds one. */
  lemma ExactAdmission(l: Limit, b: Option<Bucket>, rs: seq<Request>)
    requires Ordered(rs) && l.burst < TWO63 && (rs != [] ==> OptionOk(l, b, rs[0].at))
    ensures AllGranted(l, b, rs, |rs|) <==> Conforms(l, b, rs)
  {
    if Conforms(l, b, rs) {
      GrantedIfConforms(l, b, rs, |rs|);
    }
    if AllGranted(l, b, rs, |rs|) {
      forall i, j | 0 <= i <= j < |rs| ensures StretchFits(l, b, rs, i, j, false) {
        FitsIfGranted(l, b, rs, i, j, false);
      }
      forall j | 0 <= j < |rs| ensures StretchFits(l, b, rs, 0, j, true) {
        FitsIfGranted(l, b, rs, 0, j, true);
      }
    }
  }

  function CostSum(rs: seq<Request>, i: nat, j: nat): nat
    requires i <= j <= |rs|
  {
    if i == j then 0 else CostSum(rs, i, j - 1) + rs[j - 1].cost
  }

  lemma {:induction false} ChargeAtMostCost(l: Limit, b: Option<Bucket>, rs: seq<Request>, i: nat, j: nat)
    requires i <= j <= |rs|
    ensures ChargeSum(l, b, rs, i, j) <= CostSum(rs, i, j)
    decreases j - i
  {
    if i < j { ChargeAtMostCost(l, b, rs, i, j - 1); }
  }

  /** Whole periods in a stretch of time. */
  function WholeTicks(l: Limit, length: nat): nat {
    if l.period > 0 then
      DivMono(0, length, l.period);
      DivUnique(0, l.period, 0, 0);
      length / l.period
    else 0
  }

  /** Between any two of its requests a caller spends no more than the burst plus the whole
      periods elapsed. */
  ghost predicate Spaced(l: Limit, rs: seq<Request>) {
    forall i, j | 0 <= i <= j < |rs| :: Fits(l, rs, i, j)
  }

  predicate Fits(l: Limit, rs: seq<Request>, i: nat, j: nat)
    requires i <= j < |rs|
  {
    rs[i].at <= rs[j].at && CostSum(rs, i, j + 1) <= l.burst + WholeTicks(l, rs[j].at - rs[i].at)
  }

  lemma SpacedConforms(l: Limit, rs: seq<Request>, i: nat, j: nat, first: bool)
    requires i <= j < |rs| && Ordered(rs) && Fits(l, rs, i, j)
    ensures StretchFits(l, None, rs, i, j, first)
  {
    ChargeAtMostCost(l, None, rs, i, j + 1);
    if l.period > 0 {
      QuotientGap(rs[i].at - rs[0].at, rs[j].at - rs[0].at, l.period);
    }
  }

  /** No false drops: a caller whose requests are spaced is never refused. */
  lemma NoFalseDrop(l: Limit, rs: seq<Request>)
    requires Ordered(rs) && l.burst < TWO63 && Spaced(l, rs)
    ensures false !in LazyDecisions(l, None, rs)
  {
    forall i, j | 0 <= i <= j < |rs| ensures StretchFits(l, None, rs, i, j, false) {
      SpacedConforms(l, rs, i, j, false);
    }
    forall j | 0 <= j < |rs| ensures StretchFits(l, None, rs, 0, j, true) {
      SpacedConforms(l, rs, 0, j, true);
    }
    ExactAdmission(l, None, rs);
    DecisionsAreGrants(l, None, rs);
  }

  // ---- Fewer requests are spaced if more are ----

  /** The requests rs are some of those in all: from each of them on, no more is spent. */
  ghost predicate Covered(rs: seq<Request>, all: seq<Request>, at: seq<nat>) {
    && |at| == |rs|
    && forall i | 0 <= i < |rs| ::
         at[i] < |all| && all[at[i]].at == rs[i].at && CostSum(rs, i, |rs|) <= CostSum(all, at[i], |all|)
  }

  lemma {:induction false} CostSumPrefix(rs: seq<Request>, r: Request, i: nat, j: nat)
    requires i <= j <= |rs|
    ensures CostSum(rs + [r], i, j) == CostSum(rs, i, j)
    decreases j - i
  {
    if i < j { CostSumPrefix(rs, r, i, j - 1); }
  }

  lemma CostSumSnoc(rs: seq<Request>, r: Request, i: nat)
    requires i <= |rs|
    ensures CostSum(rs + [r], i, |rs| + 1) == CostSum(rs, i, |rs|) + r.cost
  {
    CostSumPrefix(rs, r, i, |rs|);
  }

  lemma CoveredSkip(rs: seq<Request>, all: seq<Request>, at: seq<nat>, a: Request)
    requires Covered(rs, all, at)
    ensures Covered(rs, all + [a], at)
  {
    forall i | 0 <= i < |rs| ensures CostSum(rs, i, |rs|) <= CostSum(all + [a], at[i], |all| + 1) {
      CostSumSnoc(all, a, at[i]);
    }
  }

  lemma CoveredTake(rs: seq<Request>, all: seq<Request>, at: seq<nat>, a: Request)
    requires Covered(rs, all, at)
    ensures Covered(rs + [a], all + [a], at + [|all|])
  {
    forall i | 0 <= i <= |rs|
      ensures CostSum(rs + [a], i, |rs| + 1) <= CostSum(all + [a], (at + [|all|])[i], |all| + 1)
    {
      CostSumSnoc(rs, a, i);
      CostSumSnoc(all, a, (at + [|all|])[i]);
    }
  }

  /** A request taken from a spaced sequence keeps the ones taken before it spaced. */
  lemma SpacedTake(l: Limit, rs: seq<Request>, all: seq<Request>, at: seq<nat>, a: Request)
    requires Spaced(l, rs) && Covered(rs, all, at) && Spaced(l, all + [a])
    ensures Spaced(l, rs + [a])
  {
    var more := rs + [a];
    CoveredTake(rs, all, at, a);
    forall i, j | 0 <= i <= j < |more| ensures Fits(l, more, i, j) {
      if j < |rs| {
        assert Fits(l, rs, i, j);
        CostSumPrefix(rs, a, i, j + 1);
      } else {
        assert Fits(l, all + [a], (at + [|all|])[i], |all|);
      }
    }
  }

  lemma SpacedPrefix(l: Limit, all: seq<Request>, a: Request)
    requires Spaced(l, all + [a])
    ensures Spaced(l, all)
  {
    forall i, j | 0 <= i <= j < |all| ensures Fits(l, all, i, j) {
      assert Fits(l, all + [a], i, j);
      CostSumPrefix(all, a, i, j + 1);
    }
  }
}
