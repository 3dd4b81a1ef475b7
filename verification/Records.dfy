/** The records and indices the two BPF programs share. */
module Records {
  import opened Words

  datatype ConnLimit = ConnLimit(pktTokens: u64, pktLast: u64, byteTokens: u64, byteLast: u64)

  datatype Health = Health(anomalies: u32, windowStart: u64, blacklistUntil: u64)

  const NUM_DROP_REASONS := 10

  datatype Reason =
    | NoSyn | TooManyOpen | GlobalRatelimit | StatusRatelimit | LoginRatelimit
    | MalformedHandshake | Unhealthy | BadFlags | ConnRatelimit | ConnRate
  {
    function Index(): (i: nat)
      ensures i < NUM_DROP_REASONS
    {
      match this
      case NoSyn => 0
      case TooManyOpen => 1
      case GlobalRatelimit => 2
      case StatusRatelimit => 3
      case LoginRatelimit => 4
      case MalformedHandshake => 5
      case Unhealthy => 6
      case BadFlags => 7
      case ConnRatelimit => 8
      case ConnRate => 9
    }

    /** The stat slot that counts the same drops. */
    function Slot(): Stat {
      match this
      case NoSyn => DropNoSyn
      case TooManyOpen => DropTooManyOpen
      case GlobalRatelimit => DropGlobalRatelimit
      case StatusRatelimit => DropStatusRatelimit
      case LoginRatelimit => DropLoginRatelimit
      case MalformedHandshake => DropMalformedHandshake
      case Unhealthy => DropUnhealthy
      case BadFlags => DropBadFlags
      case ConnRatelimit => DropConnRatelimit
      case ConnRate => DropConnRate
    }
  }

  type Counts = c: seq<nat> | |c| == NUM_DROP_REASONS witness [0, 0, 0, 0, 0, 0, 0, 0, 0, 0]

  datatype DropHistory = DropHistory(first: u64, last: u64, counts: Counts)

  const STAT_MAX := 16

  datatype Stat =
    | PassTcp | EstablishedInserts | Promotions | MatchNoEst | StatusSeen | LoginSeen
    | DropNoSyn | DropTooManyOpen | DropGlobalRatelimit | DropStatusRatelimit | DropLoginRatelimit
    | DropMalformedHandshake | DropUnhealthy | DropBadFlags | DropConnRatelimit | DropConnRate
  {
    function Index(): (i: nat)
      ensures i < STAT_MAX
    {
      match this
      case PassTcp => 0
      case EstablishedInserts => 1
      case Promotions => 2
      case MatchNoEst => 3
      case StatusSeen => 4
      case LoginSeen => 5
      case DropNoSyn => 6
      case DropTooManyOpen => 7
      case DropGlobalRatelimit => 8
      case DropStatusRatelimit => 9
      case DropLoginRatelimit => 10
      case DropMalformedHandshake => 11
      case DropUnhealthy => 12
      case DropBadFlags => 13
      case DropConnRatelimit => 14
      case DropConnRate => 15
    }
  }

  /** The stat slots, each summed over the CPUs. */
  type Stats = s: seq<nat> | |s| == STAT_MAX witness [0, 0, 0, 0, 0, 0, 0, 0, 0, 0, 0, 0, 0, 0, 0, 0]

  const ZERO_COUNTS: Counts := [0, 0, 0, 0, 0, 0, 0, 0, 0, 0]
  const ZERO_STATS: Stats := [0, 0, 0, 0, 0, 0, 0, 0, 0, 0, 0, 0, 0, 0, 0, 0]

  function Bump(s: Stats, slot: Stat): Stats {
    s[slot.Index() := s[slot.Index()] + 1]
  }
}
