# CPU-overload thread-dump watchdog, modelled in Dafny

This project models the decision logic of a sidecar that watches one pod's CPU
usage and takes a `jstack` thread dump of the pod's JVM when the usage stays
high. The whole program is `cmd/main.go`. Its core is the assessor goroutine.
It samples the pod's CPU usage rate (usage divided by the CPU limit, as a
percentage). It counts the samples above `alertCpuAvgRate` inside an
assessment window of `assessTotalSeconds`. Once `alertThreshold` hits have
been seen, it sends a dump signal. It then stays silent for
`assessSilentSeconds` before it assesses afresh.

Around the assessor sit three pure helpers, all modelled here:

- the PromQL query string sent to the metrics service;
- the search of the process table for the first executable named like `java`;
- the path of the dump file.

Modules:

- `Assessor` (assessor.dfy): the configuration, the loop state, one pass of the
  loop as the function `Step`, and sequences of passes as `Run`. The class
  `CpuAssessor` holds the goroutine's three loop variables. Its `Tick` runs one
  pass in place and `Assess` runs the loop over a finite list of readings. Both
  are proved equal to `Step` and `Run`. The lemmas state the window rules, the
  firing rule, the silence rule, the invariant bounding `hits`, and the
  scenarios of a five-breach alert and of an expired window.
- `ProcessLookup` (process_lookup.dfy): `findJavaPid` as a loop with an early
  exit, specified as "the pid of the first match, or -1 when there is none".
- `PromQuery` (query.dfy): `buildQueryParam`, and a parser proved to be its
  exact inverse.
- `DumpFile` (dump_file.dfy): the dump path, and the read-back of its
  timestamp in both directions.
- `Decimal` (decimal.dfy): `strconv.Itoa` on integers, and a parser of
  canonical decimal text that is its exact inverse.
- `Strings`, `Wrappers`: small generic helpers (last index of a character,
  splitting and joining strings, `Option`).

Time is an integer count of nanoseconds, given to each pass. A rate sample is
a `real`, given to each pass; the value `FetchFailed` (-1) stands for a
failed fetch. The dump signal on the channel is the `fired` result of a pass.
How long the pass sleeps is its `pause` result. A silent pass fetches no sample, so it ignores the rate it is given.

Some behaviour of the code that a reader might not expect of such a watchdog, and
that the model keeps:

- Firing does not clear `hits`. The count stays at the threshold through the silence. Only leaving silence clears it (cmd/main.go:71). `FiveBreachesFireOnce` shows this.
- A breach is a sample strictly above the alert rate (cmd/main.go:80), not "at or above".
- The pass that finds the window expired still sleeps for the sampling interval when it does not fire (cmd/main.go:89-94). `ExpiredTick` states this.
- A failed fetch leaves the count and the window alone only while the window is open. On an expired window the window is restarted whatever the sample was (cmd/main.go:74-88). The window test does not look at whether the fetch failed.

## Model

| member | source | states |
|---|---|---|
| `Assessor.Config` | cmd/main.go:38-46 | the `cliArg` record: pod name, CPU limit, hit threshold, alert rate and the window, silence and interval lengths in seconds |
| `Assessor.FetchFailed` | cmd/main.go:112-115 | the -1 sample the fetch returns when the request fails or the status is not 200 |
| `Assessor.DefaultConfig` | cmd/main.go:50-58 | the built-in configuration: threshold 5 hits, alert rate 35, window 120 s, interval 15 s, silence 120 s, CPU limit 8 |
| `Assessor.Initial` | cmd/main.go:60-62 | the starting state: no hits, sampling, window opened at the start time |
| `Assessor.InWindow` | cmd/main.go:75-76 | definition of the window test: the gap from the window start is strictly below the window length |
| `Assessor.IsBreach` | cmd/main.go:80 | definition of a breach: the sample is strictly above the alert rate |
| `Assessor.Step` | cmd/main.go:66-95 | definition of one pass of the loop body (silent branch, in-window and expired sampling, firing check, sleep); its properties are the lemmas below |
| `Assessor.RunPrefix` | cmd/main.go:65-96 | the fired flags of the first j passes do not depend on the passes after them |
| `Assessor.SilentAfterPass` | cmd/main.go:89-91 | after pass i the assessor is silent exactly when pass i fired |
| `Assessor.PassAfterFiring` | cmd/main.go:66-72 | the pass that follows a firing does not fire and leaves hits 0, sampling, and the window at its own time |
| `Assessor.Run` | cmd/main.go:65-96 | the loop over a sequence of readings yields exactly one fired flag per pass |
| `Assessor.InWindowTick` | cmd/main.go:75-83 | on a sampling pass inside the window, hits grows by exactly one when the rate is strictly above the alert rate and is unchanged otherwise; the window start is untouched |
| `Assessor.ExpiredTick` | cmd/main.go:76-93 | when the gap since the window start is at least the window length (so exactly at the length too), hits becomes 0 and the window starts at now; with a threshold of at least 1 the pass does not fire, stays sampling and still sleeps the interval |
| `Assessor.SamplingFireRule` | cmd/main.go:89-94 | a sampling pass fires exactly when the updated hits reach the threshold, goes silent exactly when it fires, and sleeps the interval only when it does not fire |
| `Assessor.SilentTick` | cmd/main.go:66-72 | a silent pass never fires, sleeps the silence period, and leaves hits 0, silent false and the window start at now, whatever the prior hits and sample |
| `Assessor.SilentIffFired` | cmd/main.go:66-94 | after any pass the assessor is silent exactly when that pass sent the dump signal |
| `Assessor.FailedFetchTick` | cmd/main.go:80-83 | with an alert rate not below the -1 sentinel, a failed fetch inside the window changes neither hits nor the window start |
| `Assessor.StepPreservesInv` | cmd/main.go:80-91 | with a threshold of at least 1, one pass keeps hits below the threshold while sampling and equal to it while silent, so hits stays within 0..alertThreshold |
| `Assessor.RunPreservesInv` | cmd/main.go:59-96 | the same bound on hits holds after any sequence of passes |
| `Assessor.RunNeverFiresTwiceInARow` | cmd/main.go:66-94 | over a whole run from any state: each pass leaves the assessor silent exactly when it fired, and the pass after a firing does not fire and leaves hits 0 with a window opened at its own time, so a silent pass separates every firing from the next sample |
| `Assessor.RunCountsBreaches` | cmd/main.go:75-83 | while the window stays open and the threshold is not reached, hits grows by the number of breaching samples, consecutive or not; the window start stays and nothing fires |
| `Assessor.RunFiresOnThreshold` | cmd/main.go:80-91 | inside the window, the breach that brings the count to the threshold fires, with no earlier pass firing, and leaves the assessor silent with hits equal to the threshold |
| `Assessor.FourBreachesCount` | cmd/main.go:50-58 | with the default configuration, readings at 10, 40, 70 and 100 s above 35 count four breaches, all inside the 120 s window |
| `Assessor.FiveBreachesFireOnce` | cmd/main.go:50-94 | with the defaults, breaches at 10, 40, 70, 100 and 115 s fire once, at the fifth, leaving hits 5 and silent; the following silent pass clears hits and opens a window at its own time |
| `Assessor.FourBreachesThenExpiry` | cmd/main.go:76-88 | with the defaults, four breaches followed by a pass at exactly 120 s reset hits to 0 and the window to 120 s, and nothing fires |
| `Assessor.CpuAssessor.constructor` | cmd/main.go:60-62 | the goroutine starts sampling with hits 0 and the window opened at the start time |
| `Assessor.CpuAssessor.Tick` | cmd/main.go:66-95 | one pass on the three fields gives exactly the state, signal and sleep that `Step` gives, and keeps the hits invariant |
| `Assessor.CpuAssessor.Assess` | cmd/main.go:65-96 | iterating the pass over a list of readings leaves the state and the fired flags that `Run` gives |
| `ProcessLookup.Contains` | cmd/main.go:138 | substring containment as `strings.Contains`: the needle occurs at some position of the text; the empty needle occurs everywhere |
| `ProcessLookup.IsJava` | cmd/main.go:138 | a process matches when its executable name contains "java" |
| `ProcessLookup.NotFound` | cmd/main.go:142 | the -1 pid returned when no process matches |
| `ProcessLookup.FindJavaPid` | cmd/main.go:137-142 | returns -1 exactly when no executable contains "java" (so for an empty table), and otherwise the pid of the first process whose executable does |
| `ProcessLookup.LookupExample` | cmd/main.go:137-142 | a table of a bash process 1 and a java process 42 yields 42 |
| `ProcessLookup.LookupMissingExample` | cmd/main.go:137-142 | a table with no java process, and the empty table, yield -1 |
| `PromQuery.BuildQueryParam` | cmd/main.go:127-129 | definition of the query `container_cpu_usage_rate{pod="<pod>"}/<limit>*100`, with the limit spelt by `Itoa`; its properties are the three lemmas below |
| `PromQuery.QueryParamRoundTrip` | cmd/main.go:127-129 | the pod name and the CPU limit are read back unchanged from the query `container_cpu_usage_rate{pod="<pod>"}/<limit>*100` |
| `PromQuery.QueryParamSound` | cmd/main.go:127-129 | every string the query parser accepts is the query built from the pod and limit it returns |
| `PromQuery.QueryParamInjective` | cmd/main.go:127-129 | different pods or limits never produce the same query |
| `Decimal.NatToDecimal` | cmd/main.go:128 | the decimal digits of a natural number are non-empty, digits only, and start with 0 only for zero |
| `Decimal.Itoa` | cmd/main.go:128 | the text is non-empty, starts with '-' exactly for negative numbers, and every character after the first is a digit |
| `Decimal.NatToDecimalRoundTrip` | cmd/main.go:128 | the digits denote the number they were made from |
| `Decimal.DecimalValueRoundTrip` | cmd/main.go:128 | every canonical digit string is the spelling of its value |
| `Decimal.ItoaRoundTrip` | cmd/main.go:128 | parsing the text of an integer gives that integer back |
| `Decimal.ParseIntSound` | cmd/main.go:128 | every accepted text is the spelling of what it parses to |
| `Decimal.ItoaInjective` | cmd/main.go:128 | two integers never share a spelling |
| `DumpFile.DumpFilePath` | cmd/main.go:154 | definition of the dump path `/root/logs/` + pod + `-` + timestamp + `-jstack.txt`; its properties are the lemmas below |
| `DumpFile.DumpFilePathShape` | cmd/main.go:154 | every dump path starts with `/root/logs/` + pod name + `-` and ends with `-jstack.txt` |
| `DumpFile.DumpTimestampRoundTrip` | cmd/main.go:153-154 | the capture timestamp is read back unchanged from the dump path |
| `DumpFile.DumpTimestampSound` | cmd/main.go:154 | a path from which a timestamp is read back is exactly the dump path for that timestamp |
| `DumpFile.DumpFilePathInjective` | cmd/main.go:153-154 | dumps of one pod taken at different timestamps go to different files |

## Left out

- The HTTP query and the JSON decoding in `fetchCurrentCpuAvgRate` (cmd/main.go:109-125) are network I/O and library code. Each pass takes its sample, or the -1 sentinel, as an input. The nil-response dereference at line 113 and the unchecked `Result[0].Value[1]` at line 122 are crashes of that I/O code and are not modelled.
- `strconv.ParseFloat` and float64 arithmetic: a rate is a `real`, and only its strict comparison with the alert rate is modelled.
- The goroutine, the unbuffered channel and the main loop's `select` with its 5-second polling sleep (cmd/main.go:49, 59, 90, 98-105) are concurrency. A send on the channel is the `fired` result. The time the assessor blocks on the send is not modelled; the firing pass has a `pause` of 0.
- `time.Now`, `time.Sleep` and `time.Format(time.RFC3339)` are the clock. Time is an integer nanosecond input. A sleep is reported as the pass's `pause` result and is not performed. The RFC 3339 timestamp is an opaque string.
- Assessor.Step: the expiry path reads the clock twice, once for the gap (line 75) and once for the new window start (line 87). The model takes both readings as the same instant `now`.
- Assessor.Step: `time.Duration` is a 64-bit count of nanoseconds. The model uses unbounded integers, so the overflow of `seconds * time.Second` and of the gap is not modelled. It cannot happen with the configured values.
- Process enumeration through the go-ps library (cmd/main.go:133-136) is a foreign call. `FindJavaPid` takes the list it returned. On an enumeration error the code scans whatever list came back, and so does the model.
- ProcessLookup.FindJavaPid: a pid is a `nat`, because operating-system pids are never negative, so the -1 sentinel cannot be mistaken for a real pid.
- Spawning `jstack`, writing the dump with `os.WriteFile`, and all logging (cmd/main.go:146-158) are OS I/O. Only the dump file name is modelled.
- Strings: Go strings are bytes and Dafny strings are characters. Every string of the model (the query, the dump path, the executable names) is a sequence of characters, and its encoding is not modelled. For the match test this changes nothing: the needle "java" is ASCII, and an ASCII needle occurs in the UTF-8 bytes of a name exactly where it occurs in its characters.
