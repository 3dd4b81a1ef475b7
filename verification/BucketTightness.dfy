/** The window bound of module BucketBounds is attained: a caller that spends the whole
    burst just before a tick, and then one token at every tick. */
module BucketTightness {
  import opened Words
  import opened Maps
  import opened Division
  import opened Buckets
  import opened BucketBounds

  /** So many requests at one instant. */
  function Salvo(n: nat, t: u64): seq<Request> {
    if n == 0 then [] else Salvo(n - 1, t) + [Request(t, 1)]
  }

  /** One request at each of the ticks 2, 3, ... of a bucket that ticks from zero. */
  function OnTicks(p: u64, k: nat): seq<Request>
    requires (k + 1) * p < TWO63
  {
    if k == 0 then []
    else
      assert (k + 1) * p == k * p + p;
      OnTicks(p, k - 1) + [Request((k + 1) * p, 1)]
  }

  lemma LastRequest(l: Limit, b: Option<Bucket>, rs: seq<Request>, r: Request)
    ensures LazyAfter(l, b, rs + [r]) == Some(Serve(l, LazyAfter(l, b, rs), r).bucket)
    ensures Spent(l, b, rs + [r]) == Spent(l, b, rs) + if Serve(l, LazyAfter(l, b, rs), r).ok then r.cost else 0
  {
    assert (rs + [r])[..|rs|] == rs;
  }

  lemma {:induction false} RunsJoin(l: Limit, b: Option<Bucket>, x: seq<Request>, y: seq<Request>)
    ensures LazyAfter(l, b, x + y) == LazyAfter(l, LazyAfter(l, b, x), y)
    ensures Spent(l, b, x + y) == Spent(l, b, x) + Spent(l, LazyAfter(l, b, x), y)
  {
    if y == [] {
      assert x + y == x;
    } else {
      var n := |y| - 1;
      RunsJoin(l, b, x, y[..n]);
      LastRequest(l, b, x + y[..n], y[n]);
      LastRequest(l, LazyAfter(l, b, x), y[..n], y[n]);
      assert y == y[..n] + [y[n]] && x + y == x + y[..n] + [y[n]];
    }
  }

  /** A bucket on the grid of ticks from zero, holding so many tokens now. */
  ghost predicate Holds(l: Limit, b: Option<Bucket>, now: u64, tokens: nat) {
    b.Some? && BucketOk(l, b.value, now) && Aligned(l, 0, b.value.last) && Level(l, b.value, now) == tokens
  }

  lemma {:induction false} SalvoSpends(l: Limit, b: Option<Bucket>, n: nat, t: u64, tokens: nat)
    requires Holds(l, b, t, tokens) && n <= tokens
    ensures Holds(l, LazyAfter(l, b, Salvo(n, t)), t, tokens - n) && Spent(l, b, Salvo(n, t)) == n
  {
    if n > 0 {
      SalvoSpends(l, b, n - 1, t, tokens);
      var v := LazyAfter(l, b, Salvo(n - 1, t)).value;
      LastRequest(l, b, Salvo(n - 1, t), Request(t, 1));
      SpendKeeps(l, v, Request(t, 1));
      AlignedTrans(l, 0, v.last, Spend(l, v, Request(t, 1)).bucket.last);
    }
  }

  /** The last instant before tick k + 2, or that of the tick before it. */
  function Before(p: u64, k: nat): int {
    if k == 0 then 2 * p - 1 else (k + 1) * p
  }

  lemma OneTick(l: Limit, k: nat)
    requires l.period > 0 && k >= 1
    ensures TicksBetween(l, 0, Before(l.period, k - 1), (k + 1) * l.period) == 1
  {
    var p: int := l.period;
    DivUnique((k + 1) * p, p, k + 1, 0);
    if k == 1 {
      DivUnique(2 * p - 1, p, 1, p - 1);
    } else {
      DivUnique(k * p, p, k, 0);
    }
  }

  lemma TickSpends(l: Limit, v: Option<Bucket>, k: nat)
    requires l.period > 0 && l.burst >= 1 && k >= 1 && (k + 1) * l.period < TWO63
    requires 0 <= Before(l.period, k - 1) <= (k + 1) * l.period
    requires Holds(l, v, Before(l.period, k - 1), 0)
    ensures var r := Request((k + 1) * l.period, 1);
            Serve(l, v, r).ok && Holds(l, Some(Serve(l, v, r).bucket), r.at, 0)
  {
    OneTick(l, k);
    SpendLater(l, 0, v.value, Before(l.period, k - 1), Request((k + 1) * l.period, 1));
  }

  lemma BeforeIsBefore(p: u64, k: nat)
    requires p > 0 && k >= 1
    ensures 0 <= Before(p, k - 1) <= (k + 1) * p && k * p < (k + 1) * p
  {
    assert (k + 1) * p == k * p + p;
    if k == 1 { assert (k + 1) * p == 2 * p; }
  }

  /** One more request on its tick. */
  lemma NextTickSpends(l: Limit, b: Option<Bucket>, rs: seq<Request>, k: nat)
    requires l.period > 0 && l.burst >= 1 && k >= 1 && (k + 1) * l.period < TWO63
    requires 0 <= Before(l.period, k - 1) <= (k + 1) * l.period
    requires Holds(l, LazyAfter(l, b, rs), Before(l.period, k - 1), 0)
    ensures var r := Request((k + 1) * l.period, 1);
            && Holds(l, LazyAfter(l, b, rs + [r]), r.at, 0)
            && Spent(l, b, rs + [r]) == Spent(l, b, rs) + 1
  {
    TickSpends(l, LazyAfter(l, b, rs), k);
    LastRequest(l, b, rs, Request((k + 1) * l.period, 1));
  }

  lemma {:induction false} TicksSpend(l: Limit, b: Option<Bucket>, k: nat)
    requires l.period > 0 && l.burst >= 1 && (k + 1) * l.period < TWO63 && 2 * l.period <= TWO63
    requires Holds(l, b, 2 * l.period - 1, 0)
    ensures Holds(l, LazyAfter(l, b, OnTicks(l.period, k)), Before(l.period, k), 0)
    ensures Spent(l, b, OnTicks(l.period, k)) == k
  {
    if k > 0 {
      BeforeIsBefore(l.period, k);
      TicksSpend(l, b, k - 1);
      NextTickSpends(l, b, OnTicks(l.period, k - 1), k);
    }
  }

  lemma {:induction false} SalvoIsAt(n: nat, t: u64)
    ensures |Salvo(n, t)| == n && forall i | 0 <= i < n :: Salvo(n, t)[i] == Request(t, 1)
  {
    if n > 0 { SalvoIsAt(n - 1, t); }
  }

  ghost predicate Between(rs: seq<Request>, first: int, last: int) {
    Ordered(rs) && forall i | 0 <= i < |rs| :: first <= rs[i].at <= last
  }

  lemma {:induction false} TicksAreAt(p: u64, k: nat)
    requires p > 0 && (k + 1) * p < TWO63
    ensures Between(OnTicks(p, k), 2 * p, (k + 1) * p)
  {
    if k > 0 {
      BeforeIsBefore(p, k);
      TicksAreAt(p, k - 1);
      TwiceAtMost(p, k);
    }
  }

  lemma TwiceAtMost(p: u64, k: nat)
    requires k >= 1
    ensures 2 * p <= (k + 1) * p
  {
    assert (k + 1) * p == 2 * p + (k - 1) * p;
  }

  /** What a caller does in such a window. */
  function FullWindow(l: Limit, length: nat): seq<Request>
    requires l.period > 0 && 2 * l.period + length < TWO63
  {
    LastTick(l, length);
    Salvo(l.burst, 2 * l.period - 1) + OnTicks(l.period, TicksAtMost(l, length))
  }

  lemma LastTick(l: Limit, length: nat)
    requires l.period > 0 && 2 * l.period + length < TWO63
    ensures (TicksAtMost(l, length) + 1) * l.period <= 2 * l.period - 1 + length
  {
    DivMod(length + l.period - 1, l.period);
    assert (TicksAtMost(l, length) + 1) * l.period == TicksAtMost(l, length) * l.period + l.period;
  }

  lemma FreshIsFull(l: Limit)
    requires l.period > 0 && 1 <= l.burst < TWO63 && 2 * l.period < TWO63
    ensures Holds(l, Some(Fresh(l, Request(0, 1))), 2 * l.period - 1, l.burst)
  {
    var b := Fresh(l, Request(0, 1));
    FreshKeeps(l, Request(0, 1));
    LevelLater(l, b, 0, 2 * l.period - 1);
    DivUnique(2 * l.period - 1, l.period, 1, l.period - 1);
    DivUnique(0, l.period, 0, 0);
  }

  lemma FullWindowSpans(l: Limit, length: nat)
    requires l.period > 0 && 2 * l.period + length < TWO63
    ensures Between(FullWindow(l, length), 2 * l.period - 1, 2 * l.period - 1 + length)
  {
    LastTick(l, length);
    SalvoIsAt(l.burst, 2 * l.period - 1);
    TicksAreAt(l.period, TicksAtMost(l, length));
  }

  /** The bound is attained: for every period, positive burst and length there is a run of
      unit requests from the first on, and a window of it of that length, that admits the
      burst plus one for every period begun. */
  lemma WindowBoundIsAttained(l: Limit, length: nat)
    requires l.period > 0 && 1 <= l.burst < TWO63 && 2 * l.period + length < TWO63
    ensures var first, win := [Request(0, 1)], FullWindow(l, length);
            && Ordered(first + win) && Between(win, 2 * l.period - 1, 2 * l.period - 1 + length)
            && Spent(l, LazyAfter(l, None, first), win) == l.burst + TicksAtMost(l, length)
  {
    var k := TicksAtMost(l, length);
    var salvo := Salvo(l.burst, 2 * l.period - 1);
    LastTick(l, length);
    FullWindowSpans(l, length);
    LastRequest(l, None, [], Request(0, 1));
    assert [] + [Request(0, 1)] == [Request(0, 1)];
    var b := LazyAfter(l, None, [Request(0, 1)]);
    assert b == Some(Fresh(l, Request(0, 1)));
    FreshIsFull(l);
    SalvoSpends(l, b, l.burst, 2 * l.period - 1, l.burst);
    TicksSpend(l, LazyAfter(l, b, salvo), k);
    RunsJoin(l, b, salvo, OnTicks(l.period, k));
  }
}
