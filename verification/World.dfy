/** The whole datapath state as a value: every source address, the per-CPU breaker
    buckets they share, and the stat slots; and what one event does to it. */
module World {
  import opened Words
  import opened Records
  import opened Buckets
  import opened Policy

  type IP = u32

  datatype World = World(ips: map<IP, IpState>, breakers: seq<Bucket>, stats: Stats) {
    function At(ip: IP): IpState {
      if ip in ips then ips[ip] else UNKNOWN
    }
  }

  /** Empty maps; the breaker buckets are zeroed array slots. */
  function Boot(cpus: nat): World {
    World(map[], seq(cpus, _ => Bucket(0, 0)), ZERO_STATS)
  }

  datatype WorldEvent =
    | Packet(src: IP, cpu: nat, pkt: Policy.Packet, now: u64)
    | Socket(src: IP, op: SocketOp, now: u64)
    | Evict(src: IP, table: Table, now: u64)

  /** tcp_global_ratelimit_take on one CPU. */
  function BreakerTake(cfg: Config, breakers: seq<Bucket>, cpu: nat, now: u64): (seq<Bucket>, bool) {
    if !cfg.GlobalOn() || cpu >= |breakers| then (breakers, true)
    else
      var t := Spend(cfg.GlobalLimit(), breakers[cpu], Request(now, 1));
      (breakers[cpu := t.bucket], t.ok)
  }

  function PacketNext(cfg: Config, w: World, src: IP, cpu: nat, pkt: Policy.Packet, now: u64): (World, Outcome) {
    var (taken, ok) := BreakerTake(cfg, w.breakers, cpu, now);
    var d := PacketStep(cfg, w.At(src), pkt, now, ok);
    var asked := AsksBreaker(cfg, w.At(src), pkt, now);
    (World(w.ips[src := d.state], if asked then taken else w.breakers, d.outcome.Count(w.stats)),
     d.outcome)
  }

  function SocketNext(w: World, src: IP, op: SocketOp, now: u64): World {
    w.(ips := w.ips[src := SocketStep(w.At(src), op, now)],
       stats := if op.PassiveEstablished? then Bump(w.stats, EstablishedInserts) else w.stats)
  }

  // ---- Socket callbacks ----

  /** The fields of bpf_sock_ops the program reads. */
  datatype SockOps = SockOps(localPort: u32, family: u32, remoteIp4: IP, op: SocketOp)

  const AF_INET := 2
  const AF_INET6 := 10

  predicate Monitored(cfg: Config, skops: SockOps) {
    && skops.localPort == cfg.targetPort
    && (skops.family == AF_INET || skops.family == AF_INET6)
    && skops.remoteIp4 != 0
  }

  /** minecraft_sockops: what one callback does. */
  function CallbackNext(cfg: Config, w: World, skops: SockOps, now: u64): World {
    if Monitored(cfg, skops) then SocketNext(w, skops.remoteIp4, skops.op, now) else w
  }

  // ---- Events ----

  function Next(cfg: Config, w: World, e: WorldEvent): (World, Outcome) {
    match e
    case Packet(src, cpu, pkt, now) => PacketNext(cfg, w, src, cpu, pkt, now)
    case Socket(src, op, now) => (SocketNext(w, src, op, now), NoPacket)
    case Evict(src, table, now) => (w.(ips := w.ips[src := Forget(w.At(src), table)]), NoPacket)
  }

  // ---- Runs of the world ----

  function After(cfg: Config, w: World, es: seq<WorldEvent>): World {
    if es == [] then w else Next(cfg, After(cfg, w, es[..|es| - 1]), es[|es| - 1]).0
  }

  /** Events in clock order, before the clock's top bit is ever set. */
  ghost predicate WorldClocked(es: seq<WorldEvent>) {
    && (forall i | 0 <= i < |es| :: es[i].now < TWO63)
    && (forall i, j | 0 <= i <= j < |es| :: es[i].now <= es[j].now)
  }

  ghost predicate WorldUnevicted(es: seq<WorldEvent>) {
    forall i | 0 <= i < |es| :: !es[i].Evict?
  }
}
