# linux-usage plugin: CPU-utilisation delta engine

This project models one run of `LinuxUsagePlugin.FetchMetrics` of the Mackerel
linux-usage plugin. The run is a pure transition. Its inputs are:

- the snapshot store, which maps file paths to stored snapshots;
- the environment: the work directory, the current user's uid, the unix time and how the snapshot write goes;
- what was read from /proc: the aggregate CPU sample, the number of per-CPU lines, the load averages, the stat-read outcome of every process and the TCP counters.

Its outputs are:

- the new store;
- the metric map the plugin returns;
- the error it returns;
- the error the deferred snapshot refresh writes to stderr.

Modules, one per concern of the source:

- `Common`: `Option`/`Result`, the errors, Go's int64 wrap-around (`Wrap64`), and the float64 values a metric can take (`Float`: a finite real, or the +Inf/-Inf/NaN that a division by zero yields).
- `Cpu`: the ten clamped per-state gaps, the guest adjustment, the total, and the ten percentages.
- `Processes`: the count of all and of running processes.
- `SnapshotStore`: the snapshot file path and the read and write of the snapshot, over an abstract store.
- `LinuxUsage`: the metric keys and the whole run (`Fetch`), with lemmas for each of its paths.

Arithmetic on CPU seconds is exact `real` arithmetic. A division by a zero total gives the IEEE non-finite value, so nothing needs a `total != 0` or `cores > 0` precondition. The elapsed time `n - t` is computed with int64 wrap-around, as in the source. As a result, a stored time near the smallest int64 wraps to a negative age and passes the 600-second test (`LinuxUsage.AncientSnapshotLooksFresh`). Only a damaged snapshot file can hold such a time.

## Model

| member | source | states |
|---|---|---|
| Common.Wrap64 | main.go:212-213 | the int64 result is congruent to the true value modulo 2^64, and equal to it when the true value fits in int64 |
| Common.Div | main.go:178-180 | float64 division by a non-zero or +0 divisor: the exact quotient, or NaN, +Inf or -Inf by the sign of the dividend when the divisor is zero |
| Cpu.Gap | main.go:220-223 | one clamped gap is never negative, never below cur - prev, and equal to cur - prev or to 0 |
| Cpu.Gaps | main.go:218-278 | all ten gaps are non-negative |
| Cpu.GapsAreClamped | main.go:218-278 | the gap of every state k is max(cur_k - prev_k, 0) |
| Cpu.Total | main.go:218-285 | the total is the sum of the user, nice, system, idle, iowait, irq, softirq and steal gaps, without guest and guest_nice; it is non-negative, and zero exactly when those eight gaps are zero |
| Cpu.Adjust | main.go:280-285 | the adjusted user gap plus the guest gap is the raw user gap, the same holds for nice and guest_nice, the other gaps are unchanged, and the adjusted gaps add up to the total |
| Cpu.Percentages | main.go:287-296 | all ten states have a percentage, each its adjusted gap times 100 divided by the total |
| Cpu.ShareValues | main.go:287-296 | with a non-zero total every percentage is finite and equals the adjusted gap times 100 over the total |
| Cpu.SharesSumTo100 | main.go:280-296 | with a non-zero total the ten percentages are finite and add up to exactly 100 |
| Cpu.SharesWithinRange | main.go:280-296 | with a positive total, guest <= user and guest_nice <= nice, every percentage is finite and lies in [0, 100] |
| Cpu.ZeroTotalShares | main.go:287-296 | with a zero total the six states other than user, nice, guest and guest_nice are NaN; guest and guest_nice are +Inf if their gap is positive (else NaN), and user and nice are then -Inf (else NaN) |
| Cpu.NegativeUserOrNiceShare | main.go:280-288 | with a positive total the user percentage is negative exactly when the guest gap exceeds the user gap, and likewise nice against guest_nice |
| Processes.CountProcesses | main.go:162-173 | all counts the processes whose stat read succeeded, running counts exactly those in state "R", and running <= all <= the number of processes |
| Processes.UnreadableProcessIgnored | main.go:164-168 | inserting a process whose stat read fails anywhere in the table changes neither count |
| SnapshotStore.Join | main.go:38 | an empty directory gives the name alone; otherwise the path is the directory, then one '/' exactly when the directory does not already end with '/', then the name |
| SnapshotStore.JoinInjective | main.go:38 | two names joined onto the same directory give the same path only if the names are equal |
| SnapshotStore.UidOf | main.go:33-37 | the uid is the user's uid, or "0" when the lookup gives no user |
| SnapshotStore.TempfilePath | main.go:31-40 | the snapshot path is the work directory, then a '/' unless the directory ends with one, then "mackerel-plugin-linux-usage-" followed by the uid |
| SnapshotStore.TempfilePathPerUser | main.go:31-40 | in one work directory two users share a snapshot path exactly when their uids (after the "0" fallback) are equal |
| SnapshotStore.ReadStats | main.go:62-73 | reading succeeds exactly when the file exists and decodes, then it gives the stored time and sample; otherwise it is a read error |
| SnapshotStore.WriteStats | main.go:47-60 | only the written path changes; a successful write reads back as the current time and sample; a failed create leaves the store unchanged; a failed write leaves an unreadable file; the error is absent exactly on success |
| LinuxUsage.KeyNamesDistinct | main.go:178-296 | every metric is reported under its own name: the name determines the metric |
| LinuxUsage.KeyFamilies | main.go:178-296 | the CPU metrics are exactly the per-state shares, and none of them is a base metric |
| LinuxUsage.BaseMetrics | main.go:162-186 | the nine base metrics: load averages divided by the CPU count (finite exactly when there is a CPU), the process counts with running <= all <= the number of processes, and the TCP counters copied unchanged |
| LinuxUsage.ByState | main.go:287-296 | a per-state map becomes the ten CPU metrics, state by state |
| LinuxUsage.CpuMetrics | main.go:287-296 | the ten CPU metrics are keyed by state and each is that state's percentage |
| LinuxUsage.Elapsed | main.go:212-213 | the elapsed time is now - t whenever that fits in int64, and is congruent to it modulo 2^64 |
| LinuxUsage.Compare | main.go:205-298 | once a snapshot exists, the run succeeds exactly when the snapshot decodes, its time is not 0 and the int64-wrapped age now - t is at most 600; it then adds the CPU metrics against the stored sample; the base metrics are never changed |
| LinuxUsage.Fetch | main.go:162-298 | one run: no path but the snapshot path changes in the store, the nine base metrics are always reported, and an error is logged only when a snapshot existed and its refresh failed |
| LinuxUsage.CpuMetricsOnlyOnSuccess | main.go:188-298 | a run reports either the nine base metrics or those plus the ten CPU metrics, the latter exactly when a snapshot existed and the run returned no error |
| LinuxUsage.ColdStart | main.go:188-196 | with no snapshot, only the base metrics are reported and nothing is logged; the run fails exactly when the write fails, with the write's error, and when the write succeeds the store holds the current time and sample |
| LinuxUsage.SnapshotRefreshed | main.go:198-203 | with a snapshot, whichever path the run takes, a successful refresh leaves the store holding the current time and sample, and a failed refresh is logged with its error |
| LinuxUsage.DeferredWriteOnlyLogged | main.go:198-203 | with a snapshot, how the refresh goes changes neither the metrics nor the returned error |
| LinuxUsage.UnreadableSnapshot | main.go:205-208 | a snapshot that cannot be read or decoded is the run's error, and only the base metrics are reported |
| LinuxUsage.MissingPreviousTime | main.go:209-211 | a stored time of 0 gives "failed to get previous time", and only the base metrics are reported |
| LinuxUsage.StalenessBoundary | main.go:212-216 | where now - t fits in int64, the run fails with "too long duration" exactly when now - t > 600, and succeeds exactly when now - t <= 600 |
| LinuxUsage.FreshSnapshotMetrics | main.go:218-298 | a usable snapshot gives no error, the base metrics plus the ten CPU percentages against the stored sample, and with a non-zero total the ten percentages are finite and sum to 100 |
| LinuxUsage.AncientSnapshotLooksFresh | main.go:212-216 | a stored time of int64 min + 1 at now 1700000000 is more than 600 seconds old but wraps to a negative age and is accepted |

## Left out

- `GraphDefinition`: static graph schema with no behaviour.
- `_main`, flag parsing and version printing: command-line plumbing.
- The procfs reads at the start of `FetchMetrics`, including their early error returns: a foreign library over /proc. What they read is a parameter (`LinuxUsage.Reading`).
- The JSON encoding of the snapshot: the store holds either a decodable time and sample, or an entry that does not decode (`SnapshotStore.Entry`).
- `time.Now()`: a parameter. `writeStats` reads the clock itself; the model uses the same `now` for the write and for the elapsed time.
- The user lookup and `pluginutil.PluginWorkDir`: parameters.
- Whether the snapshot write succeeds: a parameter (`SnapshotStore.WriteEffect`).
- IEEE-754 rounding: CPU seconds and percentages are exact reals. `SharesSumTo100` therefore holds exactly, where float64 can be off by rounding. The comparison `float64(n - t) > 600` is taken as the integer comparison, which rounding does not change.
- Cpu.ZeroTotalShares: holds for an exactly zero total only. In float64 the add-then-subtract total can be a tiny non-zero value when only guest time passed (guest gap 0.1 and guest_nice gap 0.2 give about 2.8e-17), and the shares are then huge finite numbers, not the infinities the lemma states.
- SnapshotStore.Join: does not model `filepath.Clean` beyond an empty directory and a trailing slash.
- The nil-pointer panic when a TCP counter is missing: the counters are plain values.
- What the plugin framework does with the returned error and metrics: outside the run.
