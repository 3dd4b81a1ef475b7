# A model of the minecraft-ebpf datapath

The filter is two BPF programs that share about a dozen maps. `minecraft_xdp` sees every packet and
decides to pass or drop it; `minecraft_sockops` sees sockets being established and closed. A loader
writes the operator's rates into the programs before they run. This project models those three, and
proves what they keep over every run.

| module | what it holds |
|---|---|
| `Words`, `Division`, `Maps` | 64- and 32-bit words with wrap-around, facts about integer division, map lookups |
| `Buckets`, `BucketBounds`, `BucketTightness` | the lazy token bucket, the bucket that ticks with the clock, what either admits |
| `Varints`, `Handshakes`, `HandshakeGrammar` | the handshake parser, the wire grammar, the encoder |
| `Records`, `Policy` | the shared records; what one packet or socket event does to one source, as functions |
| `World` | all sources, the per-CPU breaker buckets and the stat slots; one event of the whole datapath |
| `Datapath` | the programs themselves: a class with the maps as fields, updated in place, proved to take the steps of `World` |
| `Retries` | the eight tries of the compare-and-swap loop while other CPUs write the counter |
| `Effects` | a summary of one packet, map by map, on which the theorems about runs rest |
| `Verdicts` | rules on the packet and the records of its source, in any order, and the proof that the program follows exactly these |
| `Runs`, `Isolation` | runs of one source, runs of the world, and the projection of one onto the other |
| `Meters`, `EagerRuns`, `Throughput`, `Breaker` | the buckets of a run: refinement, and bounds over every window |
| `Compliance` | the other half: what a source that keeps to its limits never loses |
| `Bans`, `BanTightness`, `Trust`, `Lifecycle`, `Conservation` | anomalies and bans, the trust chain, sockets and sessions, drop accounting |
| `Sockets` | every socket of the host and every callback, of any port and family |
| `OpenCounter` | the open counter under every interleaving of atomic steps |
| `Loader` | from configured rates to periods, and back from periods to what runs admit |

A run is any sequence of packets, socket events and, where a theorem says it survives them, evictions
of arbitrary entries. Runs start from empty maps unless a theorem takes any state. Clocks are
nondecreasing and below 2^63, bursts and the ban length are below 2^63. The model computes with the
wrapping operators; `Breaker.WorldArithmeticSafety` shows that under those bounds no 64-bit time, token
count or product of any source or breaker bucket wraps after any run. The one counter that can wrap is the
32-bit anomaly count, and only if one of its windows counts 2^32 anomalies (`Bans.AnomalyCounterIsExact`).

Theorems about one source (`Runs`) treat the answer of the global breaker as an input of each packet, so
they hold whatever other sources do. `Isolation.ProjectionIsARun` says that what the world does to a source
is such a run, and `Isolation.WindowsProject` that a window of the world is a window of that run, no longer
and with the same outcomes: by these two the theorems about one source hold in the world.

## Where the code differs from what one might expect

The model follows the code.

- `README.md:23` of the repository says that a malformed handshake counts as an anomaly. It does not, and
  it leaves no drop history either (`bpf/minecraft_xdp.bpf.c:444-447`): `Bans.MalformedLeavesNoTrace`,
  `Conservation.DropConservation`.
- The same line says that an over-long address is malformed. The parser returns no match
  (`bpf/minecraft_xdp.bpf.c:115-116`): `HandshakeGrammar.ClassifierIsGrammar`.
- The first anomaly of a source never bans it: with a threshold of at most one an anomaly sets a ban if and
  only if one was recorded before (`Bans.BansFromTheSecondOn`), and `BanTightness.FirstAnomalyIsSpared` has a
  run whose only anomaly bans at no time.
- A handshake whose body is 254 bytes long starts with the byte 0xFE and reads as a legacy ping:
  `HandshakeGrammar.EncodeThenClassify`, `HandshakeGrammar.LoginTakenForPing`.
- The pass counter (`STAT_PASS_TCP`) does not count passes: it misses those with a bad TCP header length and
  counts packets past the SYN gates that are dropped further down. It is the number of passes if and only if
  these are equally many (`Conservation.PassConservation`); `Conservation.PassSlotMisses` and
  `Conservation.PassSlotExceeds` have runs in which it is too low and too high.
- The request that creates a bucket is admitted whatever it costs and even if the burst is zero
  (`BucketBounds.CreatingRequestIsAdmitted`), so the bound of burst plus periods begun holds throughout a run
  exactly if that request costs no more than the burst (`BucketBounds.PlainBoundIff`).
- A cap of more than one event per nanosecond gets the period zero and is silently off; a status or login
  rate above one per nanosecond gives a bucket that never refills: `Loader.CapsThatAreOn`, `Loader.ZeroPeriod`.
- With fewer SYNs of global rate than CPUs, each CPU still gets one, so that the shares add up to more
  than the rate: `Loader.SharesAddUp`.
- A close can give up after exactly eight updates of the counter by others, and not after fewer
  (`OpenCounter.EightIsExact`, with the run in `OpenCounter.EightSuffice`). The counter then stays one too
  high for good, and trust of that source is never cleaned up again: `OpenCounter.GivingUpIsForever`.
- A close that empties the counter may delete `tcp_established` after another socket of that source has
  opened: `OpenCounter.ClashHappens`; `OpenCounter.SafeUnlessClash` says exactly when a source with an open
  socket stays established.

## Model

| member | source | states |
|---|---|---|
| `Buckets.RefillIsExact` | bpf/minecraft_xdp.bpf.c:218-227 | no subtraction, refill sum or refill product wraps, and the refill time never passes the clock |
| `Buckets.LevelLater` | bpf/minecraft_xdp.bpf.c:218-222 | refilling late equals refilling in two steps: the part period carries over, the cap is the same |
| `Buckets.SpendLater` | bpf/minecraft_xdp.bpf.c:218-228 | what a later request finds and leaves, in ticks of the fixed grid of the bucket; a refusal loses no tick |
| `Buckets.LazyRefinesEager` | bpf/minecraft_xdp.bpf.c:204-229 | the lazy bucket answers every monotone request sequence, of any costs, as a bucket that ticks every period |
| `Buckets.PerIpBucketTicksFromFirstRequest` | bpf/minecraft_xdp.bpf.c:209-216 | a per-source bucket ticks from its first request |
| `Buckets.GlobalBucketTicksFromBoot` | bpf/minecraft_xdp.bpf.c:190-201 | a breaker bucket, zeroed at boot, ticks from boot |
| `BucketBounds.Ledger` | bpf/minecraft_xdp.bpf.c:204-229 | cost admitted plus tokens left never exceeds capacity plus ticks |
| `BucketBounds.WindowBound` | bpf/minecraft_xdp.bpf.c:218-228 | any window admits at most the burst plus one token per period begun; only the creating request can exceed it |
| `BucketBounds.CreatingRequestIsAdmitted` | bpf/minecraft_xdp.bpf.c:209-216 | the request that creates a bucket is admitted and spends its whole cost |
| `BucketBounds.PlainBoundIff` | bpf/minecraft_xdp.bpf.c:204-229 | every prefix of a run that creates its bucket spends at most burst plus periods begun if and only if the creating request costs no more than the burst |
| `BucketTightness.WindowBoundIsAttained` | bpf/minecraft_xdp.bpf.c:218-228 | for every period, positive burst and length, unit requests and a window that admits exactly burst plus periods begun |
| `BucketBounds.ZeroBurstAdmitsNothing` | bpf/minecraft_xdp.bpf.c:221-224 | with a zero burst an existing bucket never admits anything again |
| `BucketBounds.ExactAdmission` | bpf/minecraft_xdp.bpf.c:190-229 | a run that creates its bucket or finds one is granted in full if and only if every stretch of it costs at most the burst plus the ticks inside it, and every stretch from its start at most what is there plus the ticks |
| `BucketBounds.NoFalseDrop` | bpf/minecraft_xdp.bpf.c:266-287 | whoever spends at most burst plus whole periods elapsed between any two requests is never refused, for any period, zero included |
| `Varints.LoadVarint` | bpf/minecraft_xdp.bpf.c:50-67 | the loop reads the VarInt that starts there, within the declared and the present bytes, or reports failure |
| `Varints.OrAddsGroup` | bpf/minecraft_xdp.bpf.c:60 | the bitwise OR of the next group, shifted within 32 bits, adds that group to what was read |
| `Varints.VarintIsRead` | bpf/minecraft_xdp.bpf.c:50-67 | every VarInt of up to five bytes is read with its value, whatever follows |
| `Varints.ReadIsVarint` | bpf/minecraft_xdp.bpf.c:50-67 | whatever is read is such a VarInt, inside both bounds |
| `Varints.VarintRoundTrip` | bpf/minecraft_xdp.bpf.c:50-67 | every 32-bit value reads back from its encoding |
| `Handshakes.ClassifyHandshake` | bpf/minecraft_xdp.bpf.c:69-92 | the parser on 32-bit offsets computes the classification, and no offset wraps or goes below zero |
| `Handshakes.ClassifyFrame` | bpf/minecraft_xdp.bpf.c:94-133 | the same for the fields of the frame |
| `HandshakeGrammar.FrameIsRecognised` | bpf/minecraft_xdp.bpf.c:81-132 | every valid frame is classified by its next state: 1 is a ping, 2 and 3 are logins, all others malformed |
| `HandshakeGrammar.RecognisedIsFrame` | bpf/minecraft_xdp.bpf.c:81-132 | whatever is matched is a valid frame with such a next state |
| `HandshakeGrammar.ClassifierIsGrammar` | bpf/minecraft_xdp.bpf.c:69-133 | the class is c if and only if the visible payload opens with a frame whose next state says c, or with the legacy byte for a ping |
| `HandshakeGrammar.FragmentsAreUnmatched` | bpf/minecraft_xdp.bpf.c:90-91 | a frame cut anywhere, in declared or in present bytes, is no handshake |
| `HandshakeGrammar.CoalescedKeepsClass` | bpf/minecraft_xdp.bpf.c:90-92 | bytes behind a frame leave it the class of its next state |
| `HandshakeGrammar.EncodeThenClassify` | bpf/minecraft_xdp.bpf.c:75-133 | whatever the version, the address up to 255 bytes and the port: next state 1 classifies as a ping, 2 and 3 as a login, others as malformed; except that a body of 254 bytes is a ping |
| `HandshakeGrammar.LoginTakenForPing` | bpf/minecraft_xdp.bpf.c:78-79 | a login of body length 254 that is taken for a ping |
| `Datapath.Programs.constructor` | bpf/shared/maps.h:27-150 | the maps start empty, the breaker buckets zeroed |
| `Datapath.Programs.HealthIsBlacklisted` | bpf/minecraft_xdp.bpf.c:135-141 | a source is banned while its ban end lies ahead |
| `Datapath.Programs.RecordDrop` | bpf/minecraft_xdp.bpf.c:143-158 | the history of the source, and no other, gains one drop of that reason; the first time stays |
| `Datapath.Programs.HealthRecordAnomaly` | bpf/minecraft_xdp.bpf.c:160-180 | the health record moves as specified, no other source's does |
| `Datapath.Programs.TcpGlobalRatelimitTake` | bpf/minecraft_xdp.bpf.c:182-202 | the bucket of this CPU serves one request and no other bucket changes; the answer is whether it was admitted |
| `Datapath.Programs.RatelimitTake` | bpf/minecraft_xdp.bpf.c:204-229 | the chosen map serves one request; the other two maps stay |
| `Datapath.Programs.ConnRatelimitTake` | bpf/minecraft_xdp.bpf.c:245-289 | both connection buckets move as specified; a packet the byte bucket refuses has paid for the packet bucket |
| `Datapath.Programs.PunishTrusted` | bpf/minecraft_xdp.bpf.c:344-351 | one anomaly and one drop are recorded, and trust goes exactly if the source is banned now |
| `Datapath.Programs.TrustedPacket` | bpf/minecraft_xdp.bpf.c:344-362 | state, outcome and verdict are those of `Policy.TrustedStep`, a drop is recorded once under its reason, no other source and no breaker bucket changes |
| `Datapath.Programs.SynGates` | bpf/minecraft_xdp.bpf.c:373-396 | the SYN gates in order: a SYN refused by one is recorded once under that reason and not charged to the next |
| `Datapath.Programs.ClassifySegment` | bpf/minecraft_xdp.bpf.c:413-430 | only a first segment is parsed, an established source is never malformed, and the first-data mark is set once |
| `Datapath.Programs.RouteSegment` | bpf/minecraft_xdp.bpf.c:432-477 | state, outcome and verdict are those of `Policy.RouteStep` for the class, with the slots bumped after the passing count |
| `Datapath.Programs.InspectPayload` | bpf/minecraft_xdp.bpf.c:398-478 | state, outcome, verdict and slots are those of `Policy.PayloadStep`: short headers pass uncounted, empty payloads pass counted, the rest is classified |
| `Datapath.Programs.MinecraftXdp` | bpf/minecraft_xdp.bpf.c:291-478 | one packet takes the maps to the state the model gives, touching one source only, and passes if and only if it offends against no rule of `Verdicts` |
| `Datapath.Programs.OpenCountInc` | bpf/minecraft_sockops.bpf.c:13-19 | the counter of the source is one more, created at zero if missing |
| `Datapath.Programs.OpenCountDec` | bpf/minecraft_sockops.bpf.c:21-39 | while other CPUs write the counter at any moment, the loop leaves the state and ends as `Retries.RacedDec` says |
| `Retries.UndisturbedSwaps` | bpf/minecraft_sockops.bpf.c:26-38 | undisturbed, one less, and the last close deletes establishment, trust and first-data mark |
| `Retries.GivesUpIffEveryTryLoses` | bpf/minecraft_sockops.bpf.c:26-39 | the loop gives up if and only if others change the positive count between read and swap in each of the eight tries; it then leaves count and trust alone |
| `Retries.SwapTakesOne` | bpf/minecraft_sockops.bpf.c:30-37 | a swap that succeeds takes one from the count of one of the eight tries, and clears trust exactly if that was the last |
| `Datapath.Programs.MinecraftSockops` | bpf/minecraft_sockops.bpf.c:41-78 | one socket callback takes the maps to the state the model gives, which `Sockets.CallbackExactly` spells out |
| `Sockets.CallbackExactly` | bpf/minecraft_sockops.bpf.c:41-78 | callbacks for the server port, of family 2 or 10, with a peer address, and no others: an accepted connection establishes the source now, counts one more and bumps slot 1; a close from a state of an established connection counts one fewer, the last clearing establishment, trust and first-data mark; nothing else changes |
| `Sockets.EveryConnectionCounts` | bpf/minecraft_sockops.bpf.c:41-78 | after any legal run of sockets of any ports, families and peers, with packets in between: the open count of each source is its live connections to the server, and it is established exactly while it has one |
| `Effects.PacketMoves` | bpf/minecraft_xdp.bpf.c:324-478 | for every outcome: which maps it may write, what it writes, and what it says about the state it met |
| `Effects.PacketParses` | bpf/minecraft_xdp.bpf.c:426-463 | login, status and malformed outcomes are those of the parser |
| `Verdicts.EndsExactly` | bpf/minecraft_xdp.bpf.c:322-478 | each of the 22 ways a packet can end, if and only if its rule on packet fields, payload bytes and the records of the source holds |
| `Verdicts.DropsExactly` | bpf/minecraft_xdp.bpf.c:322-472 | a packet is dropped for a reason if and only if it offends against the rule behind it |
| `Verdicts.PassesExactly` | bpf/minecraft_xdp.bpf.c:322-478 | it passes if and only if it offends against none; a packet that is not for the server always passes |
| `Verdicts.SegmentPassesIff` | bpf/minecraft_xdp.bpf.c:432-441 | past the gates an intact segment that is no handshake passes if and only if its source is not established or both connection buckets admit it |
| `Verdicts.GreetingIsHandled` | bpf/minecraft_xdp.bpf.c:415-477 | past the gates a payload that opens with a ping or a login is handled as one if and only if the source is not established, has no first-data mark, or has more than one connection open; one with a wrong next state is dropped as malformed if and only if the source is not established |
| `Verdicts.FirstLoginPromotes` | bpf/minecraft_xdp.bpf.c:415-477 | the first payload of an established source, if it opens with a login frame and the login bucket admits it, passes and whitelists the source now |
| `Runs.ArithmeticSafety` | bpf/minecraft_xdp.bpf.c:172-227 | in every reachable state of a source stored times are past, tokens within bursts, and no time, token sum or refill product of the next step wraps |
| `Breaker.WorldArithmeticSafety` | bpf/minecraft_xdp.bpf.c:190-227 | the same after any run of the world, for every source and for the breaker bucket of every CPU |
| `Bans.AnomalyCounterIsExact` | bpf/minecraft_xdp.bpf.c:172-176 | after any run the counter holds exactly the anomalies recorded since its window opened, unless one of its windows counts 2^32 |
| `Bans.TripsExactly` | bpf/minecraft_xdp.bpf.c:163-179 | exactly which anomalies set a ban: all but the first, from the one on that makes the threshold in its window |
| `Isolation.ProjectionIsARun` | bpf/minecraft_xdp.bpf.c:291-478 | what the world does to a source is a run of that source alone, given the breaker's answers |
| `Isolation.WindowsProject` | bpf/minecraft_xdp.bpf.c:291-478 | a window of the world is, for each source, a window of its run: in clock order, no longer, with the same outcomes |
| `Isolation.PerIpIsolation` | bpf/minecraft_xdp.bpf.c:182-184 | with the breaker off, deleting every other source's events changes no outcome and no record of a source |
| `Isolation.CountersDecideNothing` | bpf/minecraft_xdp.bpf.c:143-158 | stat slots and drop histories influence no outcome of any run |
| `Meters.MeterOfRun` | bpf/minecraft_xdp.bpf.c:344-468 | over a run each bucket of a source is the lazy bucket of the requests the run makes of it |
| `Meters.UnitWindow` | bpf/minecraft_xdp.bpf.c:204-229 | in any window of any run a unit-cost bucket admits at most its burst plus one per period begun; on a zero burst one, and only where the window creates it |
| `EagerRuns.RunsRefineEager` | bpf/minecraft_xdp.bpf.c:344-468 | the verdicts of any run show, for each meter whose answer they show, the decisions of a bucket that ticks from its first request |
| `EagerRuns.ChargesRefineEager` | bpf/minecraft_xdp.bpf.c:266-288 | with both connection limits on, a charged packet is within the rate exactly if the ticking packet bucket admits it and then the ticking byte bucket does |
| `Compliance.CompliantLosesNothing` | bpf/minecraft_xdp.bpf.c:324-472 | a source whose packets are spaced as every limit allows has none dropped, whatever paths they take, but for illegal flags, a missing SYN, too many open connections, the breaker or a malformed handshake; it records no anomaly |
| `Compliance.SpacedMeterAdmits` | bpf/minecraft_xdp.bpf.c:204-289 | a meter whose arrivals are spaced refuses no request of the run, whichever of them it is asked |
| `Throughput.ThroughputBound` | bpf/minecraft_xdp.bpf.c:338-478 | an established source gets at most the packet-cap, status and login bounds through, whatever paths its packets take |
| `Throughput.PromotionBound` | bpf/minecraft_xdp.bpf.c:468-477 | promotions obey the login bucket alone |
| `Throughput.SynBound` | bpf/minecraft_xdp.bpf.c:382-388 | admitted untrusted SYNs obey the new-connection bucket |
| `Throughput.ByteBound` | bpf/minecraft_xdp.bpf.c:253-287 | bytes passed are at most the byte burst plus one per period begun; only the window that creates the record may pass one packet larger than the burst |
| `Breaker.BreakerOfRun` | bpf/minecraft_xdp.bpf.c:182-202 | over a run each CPU's bucket is the lazy bucket of the SYNs that asked it |
| `Breaker.BreakerBound` | bpf/minecraft_xdp.bpf.c:389-393 | in any window the CPUs together admit at most burst plus periods begun, each |
| `Breaker.BreakerOff` | bpf/minecraft_xdp.bpf.c:183-184 | without a period or without a burst the breaker drops nothing and changes no bucket |
| `Breaker.BreakerRefinesEager` | bpf/minecraft_xdp.bpf.c:190-201 | over every run of the world the breaker lets through, on each CPU, the SYNs a bucket admits that is empty at boot and ticks from then on |
| `Breaker.BreakerDropsNoneIff` | bpf/minecraft_xdp.bpf.c:389-393 | it drops no SYN of a CPU if and only if those that ask it conform to the burst and the ticks, and to the ticks since boot |
| `Breaker.RefusalIsTheDrop` | bpf/minecraft_xdp.bpf.c:389-393 | a SYN is dropped for the breaker exactly when it asked and was refused |
| `Bans.BanIsWitnessed` | bpf/minecraft_xdp.bpf.c:160-180 | a ban rests on the last `threshold` recorded anomalies, all within the window |
| `Bans.BanSoundness` | bpf/minecraft_xdp.bpf.c:160-180 | the same for every run that ends in a ban |
| `Bans.OnlyTripsBan` | bpf/minecraft_xdp.bpf.c:177-179 | nothing but such an anomaly bans a source |
| `Bans.BanCoverage` | bpf/minecraft_xdp.bpf.c:172-179 | with threshold T >= 2, a window of a run in which nothing trips holds at most 2T - 3 anomalies |
| `Bans.QuietBoundIsTight` | bpf/minecraft_xdp.bpf.c:172-179 | for every T >= 2 and every window, 2T - 3 anomalies within one window can set no ban |
| `BanTightness.CoverageIsTight` | bpf/minecraft_xdp.bpf.c:160-180 | and so do runs: under every packet limit and for every such T and window, a run and a window of it that meet every condition of `Bans.BanCoverage` and hold 2T - 3 anomalies |
| `BanTightness.VolleyHits` | bpf/minecraft_xdp.bpf.c:432-441 | under every packet limit, at any instant enough packets of an established, untrusted, unbanned source record exactly one anomaly |
| `Bans.BanTakesTwo` | bpf/minecraft_xdp.bpf.c:163-179 | a run that leaves a source banned at any time has recorded at least two anomalies, and at least the threshold |
| `Bans.BansFromTheSecondOn` | bpf/minecraft_xdp.bpf.c:163-179 | with a threshold of at most one an anomaly of a run sets a ban if and only if the source has recorded one before |
| `BanTightness.FirstAnomalyIsSpared` | bpf/minecraft_xdp.bpf.c:163-171 | whatever the threshold, a run whose only anomaly is recorded and bans at no time |
| `Bans.MalformedLeavesNoTrace` | bpf/minecraft_xdp.bpf.c:444-447 | a malformed handshake is no anomaly, leaves no history, and is dropped for unestablished sources only |
| `Bans.BanHolds` | bpf/minecraft_xdp.bpf.c:330-334 | until a ban ends every packet for the server is dropped and the health record is frozen |
| `Bans.BanLastsExactly` | bpf/minecraft_xdp.bpf.c:135-179 | a ban ends exactly the blacklist time after the anomaly that tripped it |
| `Bans.BannedIsNotTrusted` | bpf/minecraft_xdp.bpf.c:344-348 | in every reachable state a banned source is not whitelisted, evictions included |
| `Trust.TrustedPassIsBacked` | bpf/minecraft_xdp.bpf.c:338-364 | every trusted pass chains back, with gaps within the TTL, to a promotion of an established source |
| `Trust.StampIsLastRenewal` | bpf/minecraft_xdp.bpf.c:360-475 | the stored stamp is the time of the last trusted pass or promotion |
| `Trust.TrustInRuns` | bpf/minecraft_xdp.bpf.c:338-343 | after any run a source is trusted if and only if it has a stamp no older than the TTL, or any stamp without a TTL |
| `Trust.PromotionIsLogin` | bpf/minecraft_xdp.bpf.c:415-477 | a promotion needs an established source and a payload that opens with a valid login frame and may be the first |
| `Trust.NoEvidenceNoAccounting` | bpf/minecraft_xdp.bpf.c:413-478 | a source never established never enters health, connection, status, login, first-data or whitelist, evictions included |
| `Trust.PassesAreEvidenced` | bpf/minecraft_xdp.bpf.c:366-372 | every passed packet that is no SYN follows an admitted SYN or an establishment, evictions included |
| `Lifecycle.PathStaysCounted` | bpf/minecraft_sockops.bpf.c:64-71 | every way an established connection goes, by section 3.3.2 of RFC 9293, ends in a state counted as a close |
| `Lifecycle.EveryCountedStateIsReached` | bpf/minecraft_sockops.bpf.c:64-71 | and each counted state lies on such a way |
| `Lifecycle.LifecycleInvariant` | bpf/minecraft_sockops.bpf.c:21-75 | the open count is the live sockets, a source is established exactly while it has one, trust and first-data mark imply that |
| `Lifecycle.CapHolds` | bpf/minecraft_xdp.bpf.c:352-381 | while the cap's number of sockets is live, no SYN of the source passes, trusted or not |
| `Lifecycle.CapIsExact` | bpf/minecraft_xdp.bpf.c:352-381 | a packet is dropped for too many connections if and only if it is a SYN that got as far as the cap and as many sockets are live as the cap allows |
| `Lifecycle.SessionParsesOnce` | bpf/minecraft_xdp.bpf.c:413-430 | a lone connection has exactly one segment parsed as a handshake once a payload has come, and that is the first; it always starts afresh |
| `Lifecycle.SessionLogsIn` | bpf/minecraft_xdp.bpf.c:413-477 | if that first payload is a login within the login bucket, the source is trusted from then on |
| `Conservation.CountsOnce` | bpf/shared/maps.h:152-156 | a packet bumps the drop slots once if it is dropped, in the slot of its reason, else not at all |
| `Conservation.IndicesAreFixed` | bpf/shared/maps.h:117-128 | each drop reason has its number in the histories, and six more in the stat slots |
| `Conservation.SlotsAreExact` | bpf/shared/stats.h:4-22 | over every run, evictions included, each of the 16 slots by its number is the number of events it is named after |
| `Conservation.DropConservation` | bpf/minecraft_xdp.bpf.c:143-158 | the drop slots add up to the drops; each reason's slot is its drops and the sum of its history column, but the malformed column stays zero |
| `Conservation.HandshakeConservation` | bpf/minecraft_xdp.bpf.c:449-477 | handshakes seen are pings passed, logins promoted, those dropped over rate and those without an establishment, added up |
| `Conservation.PassConservation` | bpf/minecraft_xdp.bpf.c:398-405 | over every run the pass slot is the packets passed, less those passed for a bad header length, plus those dropped after it was bumped; it is the packets passed if and only if these are equally many |
| `Conservation.PassSlotMisses` | bpf/minecraft_xdp.bpf.c:398-403 | a run in which a packet passes and the slot is zero |
| `Conservation.PassSlotExceeds` | bpf/minecraft_xdp.bpf.c:405-447 | a run in which no packet passes and the slot is one |
| `Conservation.HistoriesAreOrdered` | bpf/minecraft_xdp.bpf.c:149-156 | first drop <= last drop <= now |
| `Conservation.HistoryIsExact` | bpf/minecraft_xdp.bpf.c:143-158 | the history of a source tells when its first and last packet was dropped and, in each column, how many for that reason; malformed handshakes leave no trace |
| `OpenCounter.CounterIsExact` | bpf/minecraft_sockops.bpf.c:13-39 | under every interleaving: counter == adds executed - swaps that succeeded == sockets added and not swapped, no wrap, never below the live sockets, one cleaner per swap of 1 for 0, no paired close sees zero |
| `OpenCounter.GivingUpTakesEight` | bpf/minecraft_sockops.bpf.c:26-38 | a close that gives up has seen at least eight updates of the counter by others since it was live |
| `OpenCounter.EightSuffice` | bpf/minecraft_sockops.bpf.c:26-38 | a run in which eight opens on other CPUs make a close give up |
| `OpenCounter.EightIsExact` | bpf/minecraft_sockops.bpf.c:26-38 | a close can give up with at most n updates since it began if and only if n is at least eight |
| `OpenCounter.QuietCounter` | bpf/minecraft_sockops.bpf.c:21-39 | at rest the counter is the live sockets plus the closes that gave up |
| `OpenCounter.GivingUpIsForever` | bpf/minecraft_sockops.bpf.c:26-39 | after that the counter is never emptied again |
| `OpenCounter.SafeUnlessClash` | bpf/minecraft_sockops.bpf.c:32-59 | a source with an open socket is established throughout if and only if no cleaner deletes while another socket is open |
| `OpenCounter.ClashHappens` | bpf/minecraft_sockops.bpf.c:32-56 | an interleaving in which one does |
| `OpenCounter.QuietTrust` | bpf/minecraft_sockops.bpf.c:32-36 | under every interleaving, packets included: at rest a trusted source, and one with a first-data mark, is established |
| `OpenCounter.OpensAlone` | bpf/minecraft_sockops.bpf.c:13-19 | undisturbed, the atomic steps of an open are the socket event of the other modules |
| `OpenCounter.ClosesAlone` | bpf/minecraft_sockops.bpf.c:21-39 | and so are those of a close, last or not |
| `Loader.Spec.LoadXdp` | internal/loader/loader.go:143-237 | every constant of the program is set from the options and the CPU count; no default survives |
| `Loader.SplitGlobal` | internal/loader/loader.go:174-189 | the breaker's rate and burst per CPU, at least one of each that is not zero |
| `Loader.RateOfPeriod` | internal/loader/loader.go:155-157 | the rate a period gives is the rate asked for plus exactly (scale mod rate) / period; equal if and only if scale mod rate is below the period |
| `Loader.SlowRatesAreExact` | internal/loader/loader.go:155-157 | a rate no larger than its period comes out exactly |
| `Loader.ZeroPeriod` | internal/loader/loader.go:155-157 | the period is zero if and only if the rate is zero or above the scale |
| `Loader.CapsThatAreOn` | internal/loader/loader.go:178-222 | for which options each optional cap is on |
| `Loader.SharesAddUp` | internal/loader/loader.go:180-189 | the shares stay within the amount if and only if it is zero or at least the CPU count |
| `Loader.ShareIsExact` | internal/loader/loader.go:180-189 | a share is the amount per CPU rounded down, but one if that would be nothing of something |
| `Loader.CastIsModular` | internal/loader/loader.go:150-231 | a duration is taken modulo 2^64, one that is not negative as it is |
| `Loader.LimitIsOfRate` | internal/loader/loader.go:155-228 | each bucket has the burst and the whole nanoseconds per event of its own rate |
| `Loader.EventsPerScale` | internal/loader/loader.go:155-228 | in any minute, or second, of any run a bucket that counts events admits at most its burst, its rate, what truncation adds, and one |
| `Loader.BytesPerSecond` | internal/loader/loader.go:209-216 | the same for the bytes passed in any second |
| `Loader.LoginsPerMinute` | internal/loader/loader.go:164-173 | promotions of a source in any minute, from the configured rate and burst |
| `Loader.SynsPerSecond` | internal/loader/loader.go:174-189 | SYNs the breaker admits in any second, for every rate up to one per nanosecond and CPU |
| `Loader.ConfiguredSynRate` | internal/loader/loader.go:174-189 | with rate and burst of at least one per CPU and a slow share, at most burst + rate + CPUs in any second |
| `Loader.BansAsConfigured` | internal/loader/loader.go:229-237 | a ban follows the threshold of anomalies within the window and lasts the time asked for, both in nanoseconds |
| `Loader.TrustAsConfigured` | internal/loader/loader.go:150-152 | trust lasts the TTL asked for after its last renewal, for good if that is zero |
| `Loader.CapAsConfigured` | internal/loader/loader.go:147-196 | with the cap asked for reached, no SYN to the port asked for passes |

## Left out

- Time within a packet: the programs read the clock up to four times a packet; here a packet happens at one instant.
- Races on bucket fields and records between CPUs, and between a packet and another packet: packet steps are atomic. Only the open counter, the establishment and the deletions of the last close are interleaved (`OpenCounter`).
- Stat slots are summed over the CPUs and, like the counts of a drop history, do not wrap at 2^64.
- The raw Ethernet, IPv4 and TCP pointer checks of lines 293-322: a packet starts as parsed header fields and the bytes of the frame. That a frame may end before its declared length is kept.
- Evictions by the LRU maps, and entries an operator clears: an environment step, used only by the theorems that survive it. The bucket, ban, lifecycle and conservation theorems assume none.
- Updates of a full map that fail, and maps shared with an earlier run of the daemon through pinning: every run starts empty.
- A byte that cannot be loaded is one past the end of the frame; other failures of `bpf_xdp_load_bytes` are not modelled.
- Datapath.Programs.MinecraftSockops: calls the decrement with nobody racing; what others write in between is an input of `Datapath.Programs.OpenCountDec`, and whole opens and closes are interleaved in `OpenCounter`.
- Bans.BanCoverage: needs that no window of the record counts 2^32 anomalies, because the 32-bit counter wraps and could then skip the threshold; `Bans.FewPerWindowFit` gives a condition on the anomaly times alone.
- Isolation.PerIpIsolation: needs the global breaker off, because its buckets are shared by design.
- `setVar`, `Load`, attaching, pinning and closing in the loader; the sockops port, which the loader sets alike; CLI, HTTP and metrics; IPv6; daemon restarts.
