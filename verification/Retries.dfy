/** open_count_dec on one CPU while others write the counter: the eight tries of its
    compare-and-swap loop, given what the others write and when. */
module Retries {
  import opened Words
  import opened Maps
  import opened Policy

  /** What the other CPUs leave in the counter before a try reads it, and before the swap of
      that try; None where they leave it alone. */
  datatype Moment = Moment(beforeRead: Option<u64>, beforeSwap: Option<u64>)

  const QUIET := Moment(None, None)

  datatype Ending = Swapped | SawZero | GaveUp

  function Rival(s: IpState, write: Option<u64>): (u: IpState)
    requires s.openCount.Some?
    ensures u.openCount.Some?
  {
    if write.Some? then s.(openCount := write) else s
  }

  function MomentAt(race: seq<Moment>, i: nat): Moment {
    if i < |race| then race[i] else QUIET
  }

  /** The tries from number i on. */
  function RacedDec(s: IpState, race: seq<Moment>, i: nat): (IpState, Ending)
    requires s.openCount.Some?
    decreases MAX_TRIES - i
  {
    if i >= MAX_TRIES then (s, GaveUp)
    else
      var read := Rival(s, MomentAt(race, i).beforeRead);
      if read.openCount.value == 0 then (read, SawZero)
      else
        var held := Rival(read, MomentAt(race, i).beforeSwap);
        if held.openCount == read.openCount then (OpenDec(held), Swapped) else RacedDec(held, race, i + 1)
  }

  /** Undisturbed, the first try swaps. */
  lemma UndisturbedSwaps(s: IpState)
    requires s.openCount.Some?
    ensures RacedDec(s, [], 0).0 == OpenDec(s)
    ensures RacedDec(s, [], 0).1 == if s.openCount.value == 0 then SawZero else Swapped
  {
  }

  // ---- Which races are lost ----

  /** The counter as try i reads it, and as its swap finds it. */
  function ReadAt(c: u64, race: seq<Moment>, i: nat): u64
    decreases i, 0
  {
    var before := if i == 0 then c else HeldAt(c, race, i - 1);
    if MomentAt(race, i).beforeRead.Some? then MomentAt(race, i).beforeRead.value else before
  }

  function HeldAt(c: u64, race: seq<Moment>, i: nat): u64
    decreases i, 1
  {
    if MomentAt(race, i).beforeSwap.Some? then MomentAt(race, i).beforeSwap.value else ReadAt(c, race, i)
  }

  /** Try i fails: it reads a positive count and finds another. */
  predicate Loses(c: u64, race: seq<Moment>, i: nat) {
    ReadAt(c, race, i) != 0 && HeldAt(c, race, i) != ReadAt(c, race, i)
  }

  lemma {:induction false} LosesOn(s: IpState, c: u64, race: seq<Moment>, i: nat)
    requires i <= MAX_TRIES && s.openCount == Some(if i == 0 then c else HeldAt(c, race, i - 1))
    ensures RacedDec(s, race, i).1 == GaveUp <==> forall j | i <= j < MAX_TRIES :: Loses(c, race, j)
    ensures RacedDec(s, race, i).1 == GaveUp && i < MAX_TRIES ==>
              RacedDec(s, race, i).0 == s.(openCount := Some(HeldAt(c, race, MAX_TRIES - 1)))
    decreases MAX_TRIES - i
  {
    if i < MAX_TRIES {
      var held := s.(openCount := Some(HeldAt(c, race, i)));
      if Loses(c, race, i) {
        LosesOn(held, c, race, i + 1);
      }
    }
  }

  /** A close gives up if and only if others change the positive count between the read and
      the swap in every one of the eight tries. It then leaves their count as it is, and
      establishment, trust and first-data mark alone. */
  lemma GivesUpIffEveryTryLoses(s: IpState, race: seq<Moment>)
    requires s.openCount.Some?
    ensures var c := s.openCount.value;
            var (u, ending) := RacedDec(s, race, 0);
            && (ending == GaveUp <==> forall j | 0 <= j < MAX_TRIES :: Loses(c, race, j))
            && (ending == GaveUp ==> u == s.(openCount := Some(HeldAt(c, race, MAX_TRIES - 1))))
  {
    LosesOn(s, s.openCount.value, race, 0);
  }

  /** A swap that succeeds takes one from the count it found, and clears trust exactly if
      that was the last. */
  lemma {:induction false} SwapTakesOne(s: IpState, race: seq<Moment>, i: nat)
    requires s.openCount.Some? && i <= MAX_TRIES && RacedDec(s, race, i).1 == Swapped
    ensures exists j | i <= j < MAX_TRIES :: TakesOne(s, RacedDec(s, race, i).0, TriedAt(s, race, i, j))
    decreases MAX_TRIES - i
  {
    var read := Rival(s, MomentAt(race, i).beforeRead);
    var held := Rival(read, MomentAt(race, i).beforeSwap);
    if held.openCount == read.openCount {
      assert TakesOne(s, RacedDec(s, race, i).0, TriedAt(s, race, i, i));
    } else {
      SwapTakesOne(held, race, i + 1);
      var j :| i + 1 <= j < MAX_TRIES && TakesOne(held, RacedDec(held, race, i + 1).0, TriedAt(held, race, i + 1, j));
      assert TakesOne(s, RacedDec(s, race, i).0, TriedAt(s, race, i, j));
    }
  }

  /** The count that try j finds, the tries from i on having failed. */
  function TriedAt(s: IpState, race: seq<Moment>, i: nat, j: nat): u64
    requires s.openCount.Some? && i <= j
    decreases j - i
  {
    var held := Rival(Rival(s, MomentAt(race, i).beforeRead), MomentAt(race, i).beforeSwap);
    if i == j then held.openCount.value else TriedAt(held, race, i + 1, j)
  }

  predicate TakesOne(s: IpState, u: IpState, count: u64) {
    && count > 0 && u.openCount == Some(count - 1)
    && u == if count == 1 then s.(openCount := Some(0), established := None, whitelist := None, firstData := None)
            else s.(openCount := Some(count - 1))
  }
}
