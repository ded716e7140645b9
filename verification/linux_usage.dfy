/** One run of the plugin's FetchMetrics (main.go:131-299) as a pure state
    transition: from the snapshot store, the environment and what was read
    from /proc, to the new store, the metric values, the returned error and
    the error written to stderr by the deferred snapshot refresh. */
module LinuxUsage {
  import opened Common
  import opened Cpu
  import opened Processes
  import opened SnapshotStore

  datatype LoadAvg = LoadAvg(load1: real, load5: real, load15: real)

  /** TCP counters from /proc/self/net/snmp and /proc/self/net/netstat. */
  datatype TcpCounters = TcpCounters(activeOpens: real, passiveOpens: real, listenOverflows: real, listenDrops: real)

  /** Everything one run reads from /proc: the aggregate CPU times, the
      number of per-CPU lines, the load averages, the stat-read outcome of
      every process, and the TCP counters. */
  datatype Reading = Reading(
    cpuTotal: CpuTimes, cpuCount: nat, load: LoadAvg,
    procs: seq<Option<string>>, tcp: TcpCounters)

  /** The run's environment: the plugin work directory, the current user's
      uid (None when the lookup gives no user), the unix time in seconds,
      and how writing the snapshot file goes. */
  datatype Env = Env(workDir: string, user: Option<string>, now: Int64, write: WriteEffect)

  /** The metrics the plugin reports; KeyName gives the name each is
      reported under. */
  datatype MetricKey =
    | LoadAvg1 | LoadAvg5 | LoadAvg15
    | AllProcs | RunningProcs
    | ActiveOpens | PassiveOpens | ListenOverflows | ListenDrops
    | CpuShare(state: State)

  function KeyName(key: MetricKey): string
  {
    match key
    case LoadAvg1 => "loadavg1"
    case LoadAvg5 => "loadavg5"
    case LoadAvg15 => "loadavg15"
    case AllProcs => "all"
    case RunningProcs => "running"
    case ActiveOpens => "active"
    case PassiveOpens => "passive"
    case ListenOverflows => "overflows"
    case ListenDrops => "drops"
    case CpuShare(k) => Name(k)
  }

  /** The metric a reported name stands for. */
  function KeyNamed(name: string): Option<MetricKey>
  {
    if name == "loadavg1" then Some(LoadAvg1)
    else if name == "loadavg5" then Some(LoadAvg5)
    else if name == "loadavg15" then Some(LoadAvg15)
    else if name == "all" then Some(AllProcs)
    else if name == "running" then Some(RunningProcs)
    else if name == "active" then Some(ActiveOpens)
    else if name == "passive" then Some(PassiveOpens)
    else if name == "overflows" then Some(ListenOverflows)
    else if name == "drops" then Some(ListenDrops)
    else if name == "user" then Some(CpuShare(User))
    else if name == "nice" then Some(CpuShare(Nice))
    else if name == "system" then Some(CpuShare(System))
    else if name == "idle" then Some(CpuShare(Idle))
    else if name == "iowait" then Some(CpuShare(Iowait))
    else if name == "irq" then Some(CpuShare(Irq))
    else if name == "softirq" then Some(CpuShare(SoftIrq))
    else if name == "steal" then Some(CpuShare(Steal))
    else if name == "guest" then Some(CpuShare(Guest))
    else if name == "guest_nice" then Some(CpuShare(GuestNice))
    else None
  }

  /** Every metric is reported under a name of its own: the name determines
      the metric, so no two metrics overwrite each other in the output. */
  lemma KeyNamesDistinct(key: MetricKey)
    ensures KeyNamed(KeyName(key)) == Some(key)
  {
    match key
    case CpuShare(k) => {
      match k
      case User => case Nice => case System => case Idle => case Iowait =>
      case Irq => case SoftIrq => case Steal => case Guest => case GuestNice =>
    }
    case _ =>
  }

  type Metrics = map<MetricKey, Float>

  /** The new store, the metric map FetchMetrics returns, the error it
      returns, and the error the deferred snapshot refresh logs. */
  datatype Outcome = Outcome(store: Store, metrics: Metrics, err: Option<Error>, logged: Option<Error>)

  const BaseKeys: set<MetricKey> :=
    {LoadAvg1, LoadAvg5, LoadAvg15, AllProcs, RunningProcs, ActiveOpens, PassiveOpens, ListenOverflows, ListenDrops}

  const CpuKeys: set<MetricKey> :=
    {CpuShare(User), CpuShare(Nice), CpuShare(System), CpuShare(Idle), CpuShare(Iowait),
     CpuShare(Irq), CpuShare(SoftIrq), CpuShare(Steal), CpuShare(Guest), CpuShare(GuestNice)}

  /** The CPU metrics are exactly the per-state shares, and none of them is
      a base metric. */
  lemma KeyFamilies()
    ensures forall k :: CpuShare(k) in CpuKeys
    ensures forall key :: key in CpuKeys <==> key.CpuShare?
    ensures BaseKeys !! CpuKeys
  {
    forall k
      ensures CpuShare(k) in CpuKeys
    {
      match k
      case User => case Nice => case System => case Idle => case Iowait =>
      case Irq => case SoftIrq => case Steal => case Guest => case GuestNice =>
    }
  }

  /** A snapshot older than this many seconds is refused. */
  const MaxElapsed: int := 600

  function SnapshotPath(env: Env): string
  {
    TempfilePath(env.workDir, env.user)
  }

  /** The nine metrics every run reports: the load averages per CPU, the
      process counts, and the TCP counters copied unchanged. */
  function BaseMetrics(r: Reading): (m: Metrics)
    ensures m.Keys == BaseKeys
    ensures m[LoadAvg1].Finite? <==> r.cpuCount > 0
    ensures m[LoadAvg5].Finite? <==> r.cpuCount > 0
    ensures m[LoadAvg15].Finite? <==> r.cpuCount > 0
    ensures r.cpuCount > 0 ==>
      && m[LoadAvg1] == Finite(r.load.load1 / r.cpuCount as real)
      && m[LoadAvg5] == Finite(r.load.load5 / r.cpuCount as real)
      && m[LoadAvg15] == Finite(r.load.load15 / r.cpuCount as real)
    ensures m[AllProcs] == Finite((|r.procs| - multiset(r.procs)[None]) as real)
    ensures m[RunningProcs] == Finite(multiset(r.procs)[Some(RunningState)] as real)
    ensures 0.0 <= m[RunningProcs].value <= m[AllProcs].value <= |r.procs| as real
    ensures m[ActiveOpens] == Finite(r.tcp.activeOpens) && m[PassiveOpens] == Finite(r.tcp.passiveOpens)
    ensures m[ListenOverflows] == Finite(r.tcp.listenOverflows) && m[ListenDrops] == Finite(r.tcp.listenDrops)
  {
    var cores := r.cpuCount as real;
    var counts := CountProcesses(r.procs);
    map[
      LoadAvg1 := Div(r.load.load1, cores),
      LoadAvg5 := Div(r.load.load5, cores),
      LoadAvg15 := Div(r.load.load15, cores),
      AllProcs := Finite(counts.all as real),
      RunningProcs := Finite(counts.running as real),
      ActiveOpens := Finite(r.tcp.activeOpens),
      PassiveOpens := Finite(r.tcp.passiveOpens),
      ListenOverflows := Finite(r.tcp.listenOverflows),
      ListenDrops := Finite(r.tcp.listenDrops)]
  }

  /** A per-state map of values as the ten CPU metrics. */
  function ByState(p: map<State, Float>): (m: Metrics)
    requires forall k :: k in p
    ensures m.Keys == CpuKeys
    ensures forall k :: CpuShare(k) in m && m[CpuShare(k)] == p[k]
  {
    KeyFamilies();
    map key | key in CpuKeys :: p[key.state]
  }

  /** The ten CPU metrics, each the percentage of its state. */
  function CpuMetrics(cur: CpuTimes, prev: CpuTimes): (m: Metrics)
    ensures m.Keys == CpuKeys
    ensures forall k :: CpuShare(k) in m && m[CpuShare(k)] == Percentages(cur, prev)[k]
  {
    ByState(Percentages(cur, prev))
  }

  /** Seconds since the snapshot, computed with int64 subtraction. It is the
      true difference whenever that fits in int64. */
  function Elapsed(now: Int64, t: Int64): (d: Int64)
    ensures Int64Min <= now - t <= Int64Max ==> d == now - t
    ensures (now - t - d) % TwoTo64 == 0
  {
    Wrap64(now - t)
  }

  /** What the run reports once a snapshot file exists: the stored sample is
      read, refused when its time is 0 or more than 600 seconds old, and
      otherwise compared with the current sample. */
  function Compare(store: Store, path: string, now: Int64, cur: CpuTimes, base: Metrics): (res: (Metrics, Option<Error>))
    requires base.Keys == BaseKeys
    ensures res.1.Some? ==> res.0 == base
    ensures res.1.None? ==> res.0.Keys == BaseKeys + CpuKeys
    ensures res.1.None? <==>
      path in store && store[path].Saved? && store[path].time != 0 && Elapsed(now, store[path].time) <= MaxElapsed
    ensures res.1.None? ==> res.0 == base + CpuMetrics(cur, store[path].cpu)
    ensures forall s :: s in BaseKeys ==> res.0[s] == base[s]
  {
    KeyFamilies();
    match ReadStats(store, path)
    case Failure(e) => (base, Some(e))
    case Success((t, prev)) =>
      if t == 0 then (base, Some(NoPreviousTime))
      else if Elapsed(now, t) > MaxElapsed then (base, Some(TooLongDuration))
      else (base + CpuMetrics(cur, prev), None)
  }

  /** One run of FetchMetrics. Without a snapshot file the current sample is
      written and only the nine base metrics are reported; a failure of that
      write is the run's error. With a snapshot file the current sample is
      written on the way out whatever happens, and a failure of that write is
      only logged. */
  function Fetch(store: Store, env: Env, r: Reading): (o: Outcome)
    ensures forall p :: p != SnapshotPath(env) ==> (p in o.store <==> p in store)
    ensures forall p :: p != SnapshotPath(env) && p in store ==> o.store[p] == store[p]
    ensures forall s :: s in BaseKeys ==> s in o.metrics && o.metrics[s] == BaseMetrics(r)[s]
    ensures o.logged.Some? ==> SnapshotPath(env) in store && env.write != Written
  {
    var base := BaseMetrics(r);
    var path := SnapshotPath(env);
    var w := WriteStats(store, path, env.now, r.cpuTotal, env.write);
    if path !in store then
      Outcome(w.store, base, w.err, None)
    else
      var deferred := Compare(store, path, env.now, r.cpuTotal, base);
      Outcome(w.store, deferred.0, deferred.1, w.err)
  }

  /** Every run reports the nine base metrics; the ten CPU metrics come on
      top exactly when a snapshot file existed and the run succeeded. */
  lemma CpuMetricsOnlyOnSuccess(store: Store, env: Env, r: Reading)
    ensures Fetch(store, env, r).metrics.Keys == BaseKeys || Fetch(store, env, r).metrics.Keys == BaseKeys + CpuKeys
    ensures Fetch(store, env, r).metrics.Keys == BaseKeys + CpuKeys <==> SnapshotPath(env) in store && Fetch(store, env, r).err.None?
  {
    KeyFamilies();
  }

  /** Cold start: with no snapshot file the run reports exactly the nine base
      metrics, no CPU metrics, and stores the current sample; it fails only
      when that write fails, and then with the write's error. */
  lemma ColdStart(store: Store, env: Env, r: Reading)
    requires SnapshotPath(env) !in store
    ensures Fetch(store, env, r).metrics == BaseMetrics(r)
    ensures Fetch(store, env, r).metrics.Keys !! CpuKeys
    ensures Fetch(store, env, r).logged == None
    ensures Fetch(store, env, r).err.None? <==> env.write == Written
    ensures env.write == Written ==> Fetch(store, env, r).store == store[SnapshotPath(env) := Saved(env.now, r.cpuTotal)]
    ensures env.write == CreateFails ==> Fetch(store, env, r).err == Some(CreateFailed)
    ensures env.write == WriteFails ==> Fetch(store, env, r).err == Some(WriteFailed)
  {
    KeyFamilies();
  }

  /** When a snapshot file existed, the deferred refresh runs on every path,
      error or not: a successful write leaves the current sample with the
      current time in the store; a failed create leaves the old file, a
      failed write leaves an unreadable one, and either error is logged. */
  lemma SnapshotRefreshed(store: Store, env: Env, r: Reading)
    requires SnapshotPath(env) in store
    ensures env.write == Written ==>
      && Fetch(store, env, r).store == store[SnapshotPath(env) := Saved(env.now, r.cpuTotal)]
      && Fetch(store, env, r).logged == None
    ensures env.write == CreateFails ==> Fetch(store, env, r).logged == Some(CreateFailed)
    ensures env.write == WriteFails ==> Fetch(store, env, r).logged == Some(WriteFailed)
  {
  }

  /** The outcome of the deferred write never changes the metrics or the
      error the run returns. */
  lemma DeferredWriteOnlyLogged(store: Store, env: Env, r: Reading, effect: WriteEffect)
    requires SnapshotPath(env) in store
    ensures Fetch(store, env.(write := effect), r).metrics == Fetch(store, env, r).metrics
    ensures Fetch(store, env.(write := effect), r).err == Fetch(store, env, r).err
  {
  }

  /** A snapshot file that cannot be read or decoded is the run's error. */
  lemma UnreadableSnapshot(store: Store, env: Env, r: Reading)
    requires SnapshotPath(env) in store && store[SnapshotPath(env)].Corrupt?
    ensures Fetch(store, env, r).err == Some(ReadFailed)
    ensures Fetch(store, env, r).metrics == BaseMetrics(r)
  {
  }

  /** A stored time of 0 is refused before the elapsed time is looked at. */
  lemma MissingPreviousTime(store: Store, env: Env, r: Reading)
    requires SnapshotPath(env) in store && store[SnapshotPath(env)].Saved?
    requires store[SnapshotPath(env)].time == 0
    ensures Fetch(store, env, r).err == Some(NoPreviousTime)
    ensures Fetch(store, env, r).metrics == BaseMetrics(r)
  {
  }

  /** Where the elapsed time does not overflow, a snapshot more than 600
      seconds old is refused with "too long duration", and one exactly 600
      seconds old (or younger, or from the future) is used. */
  lemma StalenessBoundary(store: Store, env: Env, r: Reading)
    requires SnapshotPath(env) in store && store[SnapshotPath(env)].Saved?
    requires store[SnapshotPath(env)].time != 0
    requires Int64Min <= env.now - store[SnapshotPath(env)].time <= Int64Max
    ensures Fetch(store, env, r).err == Some(TooLongDuration) <==> env.now - store[SnapshotPath(env)].time > 600
    ensures Fetch(store, env, r).err.None? <==> env.now - store[SnapshotPath(env)].time <= 600
  {
  }

  /** A usable snapshot yields the nine base metrics plus the ten CPU
      percentages against the stored sample; with a non-zero total those ten
      add up to 100. */
  lemma FreshSnapshotMetrics(store: Store, env: Env, r: Reading)
    requires SnapshotPath(env) in store && store[SnapshotPath(env)].Saved?
    requires store[SnapshotPath(env)].time != 0
    requires Elapsed(env.now, store[SnapshotPath(env)].time) <= MaxElapsed
    ensures Fetch(store, env, r).err == None
    ensures Fetch(store, env, r).metrics == BaseMetrics(r) + CpuMetrics(r.cpuTotal, store[SnapshotPath(env)].cpu)
    ensures forall k :: CpuShare(k) in Fetch(store, env, r).metrics
    ensures Total(Gaps(r.cpuTotal, store[SnapshotPath(env)].cpu)) != 0.0 ==>
      var m := Fetch(store, env, r).metrics;
      && (forall k :: m[CpuShare(k)].Finite?)
      && m[CpuShare(User)].value + m[CpuShare(Nice)].value + m[CpuShare(System)].value
         + m[CpuShare(Idle)].value + m[CpuShare(Iowait)].value + m[CpuShare(Irq)].value
         + m[CpuShare(SoftIrq)].value + m[CpuShare(Steal)].value + m[CpuShare(Guest)].value
         + m[CpuShare(GuestNice)].value == 100.0
  {
    var prev := store[SnapshotPath(env)].cpu;
    var m := Fetch(store, env, r).metrics;
    var c := CpuMetrics(r.cpuTotal, prev);
    KeyFamilies();
    assert forall k :: CpuShare(k) in m && m[CpuShare(k)] == c[CpuShare(k)];
    if Total(Gaps(r.cpuTotal, prev)) != 0.0 {
      SharesSumTo100(r.cpuTotal, prev);
    }
  }

  /** The elapsed time is an int64 difference, so a snapshot dated close to
      the smallest int64 wraps to a negative age and is used even though it
      is far older than 600 seconds. */
  lemma AncientSnapshotLooksFresh(store: Store, env: Env, r: Reading)
    requires env.now == 1_700_000_000
    requires SnapshotPath(env) in store && store[SnapshotPath(env)].Saved?
    requires store[SnapshotPath(env)].time == Int64Min + 1
    ensures env.now - store[SnapshotPath(env)].time > MaxElapsed
    ensures Fetch(store, env, r).err == None
  {
    var t := store[SnapshotPath(env)].time;
    var d := env.now - t;
    assert d - TwoTo64 == Int64Min + 1_700_000_000 - 1;
    assert Wrap64(d) == d - TwoTo64;
  }
}
