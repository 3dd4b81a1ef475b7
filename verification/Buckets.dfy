/** The lazy token bucket shared by the global, per-IP and per-connection limits,
    and its refinement of a bucket that ticks with the clock.

    A bucket stores a token count and the time up to which it has been refilled.
    Nothing happens between requests: a request adds the whole periods that have
    passed, caps at the burst, and writes back only when it succeeds. */
module Buckets {
  import opened Words
  import opened Maps
  import opened Division

  datatype Limit = Limit(period: u64, burst: u64)
  datatype Bucket = Bucket(tokens: u64, last: u64)
  datatype Request = Request(at: u64, cost: u64)
  datatype Served = Served(bucket: Bucket, ok: bool)

  function Refill(l: Limit, b: Bucket, now: u64): u64 {
    if l.period > 0 then
      var elapsed := Sub64(now, b.last);
      QuotientShrinks(elapsed, l.period);
      elapsed / l.period
    else 0
  }

  function Level(l: Limit, b: Bucket, now: u64): u64 {
    var t := Add64(b.tokens, Refill(l, b, now));
    if t > l.burst then l.burst else t
  }

  /** The entry a first request creates; that request is admitted whatever it costs. */
  function Fresh(l: Limit, r: Request): Bucket {
    Bucket(if l.burst > r.cost then l.burst - r.cost else 0, r.at)
  }

  function Spend(l: Limit, b: Bucket, r: Request): Served {
    var t := Level(l, b, r.at);
    if t < r.cost then Served(b, false)
    else Served(Bucket(t - r.cost, Add64(b.last, Mul64(Refill(l, b, r.at), l.period))), true)
  }

  function Serve(l: Limit, b: Option<Bucket>, r: Request): Served {
    match b
    case None => Served(Fresh(l, r), true)
    case Some(b) => Spend(l, b, r)
  }

  // ---- Runs ----

  function LazyAfter(l: Limit, b: Option<Bucket>, rs: seq<Request>): Option<Bucket> {
    if rs == [] then b
    else Some(Serve(l, LazyAfter(l, b, rs[..|rs| - 1]), rs[|rs| - 1]).bucket)
  }

  function LazyDecisions(l: Limit, b: Option<Bucket>, rs: seq<Request>): seq<bool> {
    if rs == [] then []
    else
      var before := rs[..|rs| - 1];
      LazyDecisions(l, b, before) + [Serve(l, LazyAfter(l, b, before), rs[|rs| - 1]).ok]
  }

  lemma SnocDecides(l: Limit, b: Option<Bucket>, rs: seq<Request>, r: Request)
    ensures LazyDecisions(l, b, rs + [r]) == LazyDecisions(l, b, rs) + [Serve(l, LazyAfter(l, b, rs), r).ok]
  {
    assert (rs + [r])[..|rs|] == rs;
  }

  /** Requests in clock order, before the clock's top bit is ever set. */
  ghost predicate Ordered(rs: seq<Request>) {
    && (forall i | 0 <= i < |rs| :: rs[i].at < TWO63)
    && (forall i, j | 0 <= i <= j < |rs| :: rs[i].at <= rs[j].at)
  }

  // ---- What a bucket reached with a forward clock satisfies ----

  ghost predicate BucketOk(l: Limit, b: Bucket, now: u64) {
    b.tokens <= l.burst < TWO63 && b.last <= now < TWO63
  }

  ghost predicate OptionOk(l: Limit, b: Option<Bucket>, now: u64) {
    b.Some? ==> BucketOk(l, b.value, now)
  }

  lemma QuotientShrinks(a: nat, p: nat)
    requires p > 0
    ensures 0 <= a / p <= a
  {
    DivMod(a, p);
    DivMono(0, a, p);
    if a / p > 0 { MulGrows(p, a / p); }
  }

  /** No subtraction, sum or product of a refill wraps, and the refill time never
      passes the clock. */
  lemma RefillIsExact(l: Limit, b: Bucket, now: u64)
    requires BucketOk(l, b, now)
    ensures Sub64(now, b.last) == now - b.last
    ensures Add64(b.tokens, Refill(l, b, now)) == b.tokens + Refill(l, b, now)
    ensures Mul64(Refill(l, b, now), l.period) == Refill(l, b, now) * l.period
    ensures Add64(b.last, Mul64(Refill(l, b, now), l.period)) == b.last + Refill(l, b, now) * l.period <= now
  {
    if l.period > 0 {
      QuotientShrinks(now - b.last, l.period);
      DivMod(now - b.last, l.period);
      var product := Refill(l, b, now) * l.period;
      assert 0 <= product <= now - b.last;
      DivUnique(product, TWO64, 0, product);
    }
  }

  /** Ticks of the clock anchor, anchor + period, ... that fall in (s, t]. */
  function TicksBetween(l: Limit, anchor: int, s: int, t: int): int {
    if l.period > 0 then (t - anchor) / l.period - (s - anchor) / l.period else 0
  }

  ghost predicate Aligned(l: Limit, anchor: int, x: int) {
    anchor <= x && if l.period > 0 then (x - anchor) % l.period == 0 else x == anchor
  }

  lemma TicksRebase(l: Limit, anchor: int, x: int, s: int, t: int)
    requires Aligned(l, anchor, x)
    ensures TicksBetween(l, anchor, s, t) == TicksBetween(l, x, s, t)
  {
    if l.period > 0 {
      var m := (x - anchor) / l.period;
      DivMod(x - anchor, l.period);
      DivShift(t - x, l.period, m);
      DivShift(s - x, l.period, m);
      assert t - anchor == t - x + m * l.period && s - anchor == s - x + m * l.period;
    }
  }

  lemma AlignedTrans(l: Limit, a: int, b: int, c: int)
    requires Aligned(l, a, b) && Aligned(l, b, c)
    ensures Aligned(l, a, c)
  {
    if l.period > 0 {
      DivMod(b - a, l.period);
      DivMod(c - b, l.period);
      var q := (b - a) / l.period + (c - b) / l.period;
      assert c - a == q * l.period;
      DivUnique(c - a, l.period, q, 0);
    }
  }

  /** Refilling late equals refilling in two steps: the part period carries over. */
  lemma LevelLater(l: Limit, b: Bucket, s: u64, t: u64)
    requires BucketOk(l, b, s) && s <= t < TWO63
    ensures BucketOk(l, b, t) && TicksBetween(l, b.last, s, t) >= 0
    ensures var sum := Level(l, b, s) + TicksBetween(l, b.last, s, t);
            Level(l, b, t) == (if sum > l.burst then l.burst else sum)
  {
    RefillIsExact(l, b, s);
    RefillIsExact(l, b, t);
    if l.period > 0 {
      DivMono(s - b.last, t - b.last, l.period);
    }
  }

  lemma SpendKeeps(l: Limit, b: Bucket, r: Request)
    requires BucketOk(l, b, r.at)
    ensures var o := Spend(l, b, r);
            && BucketOk(l, o.bucket, r.at) && Aligned(l, b.last, o.bucket.last)
            && Level(l, o.bucket, r.at) == Level(l, b, r.at) - if o.ok then r.cost else 0
  {
    RefillIsExact(l, b, r.at);
    var o := Spend(l, b, r);
    if o.ok {
      var k := Refill(l, b, r.at);
      if l.period > 0 {
        DivMod(r.at - b.last, l.period);
        DivUnique(k * l.period, l.period, k, 0);
        DivUnique(r.at - o.bucket.last, l.period, 0, (r.at - b.last) % l.period);
      }
      RefillIsExact(l, o.bucket, r.at);
    } else {
      if l.period > 0 {
        DivUnique(0, l.period, 0, 0);
      }
    }
  }

  lemma TicksAdd(l: Limit, anchor: int, s: int, t: int, u: int)
    ensures TicksBetween(l, anchor, s, u) == TicksBetween(l, anchor, s, t) + TicksBetween(l, anchor, t, u)
  {
  }

  /** One later request: what it takes and leaves is what was there plus the ticks between. */
  lemma SpendLater(l: Limit, anchor: int, b: Bucket, s: u64, r: Request)
    requires BucketOk(l, b, s) && Aligned(l, anchor, b.last) && s <= r.at < TWO63
    ensures var o := Spend(l, b, r);
            var sum := Level(l, b, s) + TicksBetween(l, anchor, s, r.at);
            && BucketOk(l, o.bucket, r.at) && Aligned(l, anchor, o.bucket.last)
            && Level(l, b, r.at) == (if sum > l.burst then l.burst else sum)
            && Level(l, o.bucket, r.at) == Level(l, b, r.at) - (if o.ok then r.cost else 0)
            && TicksBetween(l, anchor, s, r.at) >= 0
  {
    LevelLater(l, b, s, r.at);
    TicksRebase(l, anchor, b.last, s, r.at);
    SpendKeeps(l, b, r);
    AlignedTrans(l, anchor, b.last, Spend(l, b, r).bucket.last);
  }

  lemma FreshKeeps(l: Limit, r: Request)
    requires l.burst < TWO63 && r.at < TWO63
    ensures BucketOk(l, Fresh(l, r), r.at) && Level(l, Fresh(l, r), r.at) == Fresh(l, r).tokens
  {
    RefillIsExact(l, Fresh(l, r), r.at);
    if l.period > 0 {
      DivUnique(0, l.period, 0, 0);
    }
  }

  lemma ServeKeeps(l: Limit, b: Option<Bucket>, r: Request)
    requires OptionOk(l, b, r.at) && l.burst < TWO63 && r.at < TWO63
    ensures BucketOk(l, Serve(l, b, r).bucket, r.at)
  {
    match b
    case None => FreshKeeps(l, r);
    case Some(v) => SpendKeeps(l, v, r);
  }

  // ---- The eager bucket ----

  /** A bucket that gains a token, up to the burst, at every tick start + k * period. */
  datatype Eager = Eager(start: int, tokens: int, seen: int)

  /** The eager bucket watches the clock nanosecond by nanosecond. */
  function Watch(l: Limit, start: int, tokens: int, from: int, until: int): int
    decreases until - from
  {
    if until <= from then tokens
    else
      var before := Watch(l, start, tokens, from, until - 1);
      if l.period > 0 && (until - start) % l.period == 0 && before < l.burst then before + 1 else before
  }

  function EagerServe(l: Limit, e: Option<Eager>, r: Request): (Eager, bool) {
    match e
    case None => (Eager(r.at, if l.burst > r.cost then l.burst - r.cost else 0, r.at), true)
    case Some(e) =>
      var t := Watch(l, e.start, e.tokens, e.seen, r.at);
      if t < r.cost then (Eager(e.start, t, r.at), false) else (Eager(e.start, t - r.cost, r.at), true)
  }

  function EagerAfter(l: Limit, e: Option<Eager>, rs: seq<Request>): Option<Eager> {
    if rs == [] then e
    else Some(EagerServe(l, EagerAfter(l, e, rs[..|rs| - 1]), rs[|rs| - 1]).0)
  }

  function EagerDecisions(l: Limit, e: Option<Eager>, rs: seq<Request>): seq<bool> {
    if rs == [] then []
    else
      var before := rs[..|rs| - 1];
      EagerDecisions(l, e, before) + [EagerServe(l, EagerAfter(l, e, before), rs[|rs| - 1]).1]
  }

  lemma {:induction false} WatchCountsTicks(l: Limit, start: int, tokens: int, from: int, until: int)
    requires start <= from <= until && tokens <= l.burst
    decreases until - from
    ensures TicksBetween(l, start, from, until) >= 0
    ensures var sum := tokens + TicksBetween(l, start, from, until);
            Watch(l, start, tokens, from, until) == (if sum > l.burst then l.burst else sum)
  {
    if from < until {
      WatchCountsTicks(l, start, tokens, from, until - 1);
      if l.period > 0 {
        DivStep(until - 1 - start, l.period);
        assert until - 1 - start + 1 == until - start;
      }
    }
  }

  ghost predicate Related(l: Limit, b: Option<Bucket>, e: Option<Eager>) {
    && (b.Some? <==> e.Some?)
    && (b.Some? ==>
          && 0 <= e.value.start <= e.value.seen < TWO63
          && BucketOk(l, b.value, e.value.seen)
          && Aligned(l, e.value.start, b.value.last)
          && e.value.tokens == Level(l, b.value, e.value.seen))
  }

  lemma Lockstep(l: Limit, b: Option<Bucket>, e: Option<Eager>, r: Request)
    requires l.burst < TWO63 && r.at < TWO63 && Related(l, b, e)
    requires e.Some? ==> e.value.seen <= r.at
    ensures Serve(l, b, r).ok == EagerServe(l, e, r).1
    ensures Related(l, Some(Serve(l, b, r).bucket), Some(EagerServe(l, e, r).0))
    ensures EagerServe(l, e, r).0.seen == r.at
  {
    match b
    case None =>
      FreshKeeps(l, r);
      if l.period > 0 { DivUnique(0, l.period, 0, 0); }
    case Some(v) =>
      WatchCountsTicks(l, e.value.start, e.value.tokens, e.value.seen, r.at);
      SpendLater(l, e.value.start, v, e.value.seen, r);
  }

  /** From related states the lazy bucket answers every request as the eager one does. */
  lemma {:induction false} LazyRefinesEager(l: Limit, b: Option<Bucket>, e: Option<Eager>, rs: seq<Request>)
    requires l.burst < TWO63 && Ordered(rs) && Related(l, b, e)
    requires rs != [] && e.Some? ==> e.value.seen <= rs[0].at
    ensures LazyDecisions(l, b, rs) == EagerDecisions(l, e, rs)
    ensures Related(l, LazyAfter(l, b, rs), EagerAfter(l, e, rs))
    ensures rs != [] ==> EagerAfter(l, e, rs).value.seen == rs[|rs| - 1].at
  {
    if rs != [] {
      var n := |rs| - 1;
      LazyRefinesEager(l, b, e, rs[..n]);
      Lockstep(l, LazyAfter(l, b, rs[..n]), EagerAfter(l, e, rs[..n]), rs[n]);
    }
  }

  /** A per-IP bucket: created by its first request, then ticking from that instant. */
  lemma PerIpBucketTicksFromFirstRequest(l: Limit, rs: seq<Request>)
    requires l.burst < TWO63 && Ordered(rs)
    ensures LazyDecisions(l, None, rs) == EagerDecisions(l, None, rs)
  {
    LazyRefinesEager(l, None, None, rs);
  }

  /** A global per-CPU bucket: zeroed at boot, then ticking from boot. */
  lemma GlobalBucketTicksFromBoot(l: Limit, rs: seq<Request>)
    requires l.burst < TWO63 && Ordered(rs)
    ensures LazyDecisions(l, Some(Bucket(0, 0)), rs) == EagerDecisions(l, Some(Eager(0, 0, 0)), rs)
  {
    RefillIsExact(l, Bucket(0, 0), 0);
    if l.period > 0 { DivUnique(0, l.period, 0, 0); }
    LazyRefinesEager(l, Some(Bucket(0, 0)), Some(Eager(0, 0, 0)), rs);
  }
}
