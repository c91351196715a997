# cpu_shield decision core in Dafny

This project models the decision logic of `cpu_shield.py`, a host-local CPU guard.
Each tick it takes a CPU reading. A reading strictly above 80% is an alert. An alert
produces a report of the three busiest processes that are not whitelisted. It then
runs an "active defense" pass, which terminates listed processes above 90%: first
gracefully, then forcefully if they survive. After three consecutive alert ticks the
session ends in a simulated protective hibernation.

The operating system is taken out. Readings, process snapshots and the outcome of each
termination call are plain inputs:

- a reading is a `real`, because percentages are only ever compared;
- a snapshot is a sequence of `Entry` values, each `Listed(ProcessInfo)` or
  `Unreadable(NoSuchProcess | AccessDenied)`;
- for each ranked candidate, an `Oracle` says which call raises (lookup, terminate or
  kill), if any, and whether the process is still running after the grace period;
- the session runs over a finite stream of ticks. When the stream runs out, the
  session is `Stopped`. This stands for the keyboard interrupt arriving between ticks.

Modules:

- `Config`: the constants (thresholds 80.0 and 90.0, limit 3, top 3, the whitelist).
- `Text`: ASCII lower-casing.
- `Processes`: the process records and the case-insensitive whitelist test.
- `Sampler`: the threshold classification of a reading.
- `Ranker`: filtering, descending sort, truncation to the top three.
- `Escalation`: the consecutive-alert counter and hibernation.
  - `Monitor` is the counter loop written as a fold over alert flags.
  - `Escalate` is the same loop written imperatively, as in the source, and is proved
    to compute the same session.
- `Mitigation`: the per-candidate decision and the termination requests it issues.
- `Shield`: the whole session, tick by tick, composed from the parts above.

## Model

| member | source | states |
|---|---|---|
| `Sampler.Analyze` | cpu_shield.py:15-18 | The sample keeps the reading; it is an alert if and only if the reading is strictly above 80.0 |
| `Sampler.ThresholdIsStrict` | cpu_shield.py:17-18 | Exactly 80.0 is not an alert; every reading at or below 80.0 is stable and every reading above it alerts |
| `Text.LowerChar` | cpu_shield.py:46 | Lowering never leaves an ASCII capital, moves capitals to their lower-case letter and leaves every other character alone |
| `Text.SameLowerIffPointwise` | cpu_shield.py:46 | Two names have the same lower-case form exactly when they have equal length and agree letter by letter once lowered |
| `Processes.Whitelisted` | cpu_shield.py:46 | The whitelist test used by the ranker and the mitigation pass (also cpu_shield.py:83): the lower-cased name equals a lower-cased whitelist entry. Its meaning is stated by `Processes.WhitelistIgnoresCase` and `Processes.SystemInAnyCase` |
| `Processes.WhitelistIgnoresCase` | cpu_shield.py:46 | Two names that differ only in letter case are both whitelisted or both not |
| `Processes.SystemInAnyCase` | cpu_shield.py:13 | "System", "SYSTEM", "system" and "PYTHON.EXE" are whitelisted; "systemd" and "chrome.exe" are not |
| `Ranker.Eligible` | cpu_shield.py:41-49 | Each process occurs in the filtered list as often as it is listed in the snapshot when its name is not whitelisted, and not at all otherwise; failed entries are skipped |
| `Ranker.Insert` | cpu_shield.py:52 | Insertion adds exactly the one process to the list and puts either it or the old head first |
| `Ranker.InsertKeepsOrder` | cpu_shield.py:52 | Inserting into a list sorted highest first keeps it sorted |
| `Ranker.SortDesc` | cpu_shield.py:52 | The sorted list is ordered by CPU usage from highest to lowest and is a permutation of its input |
| `Ranker.PrefixOfSortedIsTop` | cpu_shield.py:52-53 | The first k entries of a descending list come from it, and no entry left out is busier than any entry kept |
| `Ranker.Rank` | cpu_shield.py:39-53 | The heavy list has length min(3, n), where n counts the readable non-whitelisted processes, and is sorted highest first |
| `Ranker.RankExcludesWhitelisted` | cpu_shield.py:46-47 | The heavy list holds no process whose lower-cased name equals a lower-cased whitelist entry |
| `Ranker.RankFromEligible` | cpu_shield.py:42-53 | Every process in the heavy list comes from the filtered snapshot, at most as often as it occurs there |
| `Ranker.RankIsTop` | cpu_shield.py:51-53 | The heavy list is a true top 3: no filtered process left out uses more CPU than any process returned |
| `Escalation.Advance` | cpu_shield.py:110-114 | One tick's counter update: plus one on an alert, back to 0 otherwise. Its meaning is stated by `Escalation.CounterResetsOrClimbs` |
| `Escalation.Drive` | cpu_shield.py:106-121 | The loop from a given tick on: update the counter, count a report on an alert, stop once the counter reaches 3. Its meaning is stated by the `Escalation` lemmas below |
| `Escalation.Monitor` | cpu_shield.py:104-121 | The counter loop of a session as a fold over alert flags, from counter 0. Its meaning is stated by `Escalation.CounterIsTrailingRun`, `Escalation.HibernatesAtFirstRun`, `Escalation.ReportsCountAlerts` and `Escalation.CounterBounded` |
| `Escalation.TrailingRun` | cpu_shield.py:110-114 | The reference counter: the length k of the final run of alerts, such that the last k samples are alerts and the one before them is not |
| `Escalation.TrailingRunStep` | cpu_shield.py:110-114 | The trailing run after a tick is the previous one plus one on an alert, and zero on a stable tick |
| `Escalation.CounterIsTrailingRun` | cpu_shield.py:104-114 | After every processed tick the loop's counter equals the length of the trailing run of alert samples |
| `Escalation.CounterResetsOrClimbs` | cpu_shield.py:110-114 | A stable tick sets the counter to exactly 0, not a decremented value; an alert tick sets it to one more than the previous tick's value |
| `Escalation.HibernatesAtFirstRun` | cpu_shield.py:117-121 | The session hibernates at the first tick that completes three consecutive alerts, never earlier. Its trace then ends at that tick. Without such a tick it processes every supplied tick |
| `Escalation.ReportsCountAlerts` | cpu_shield.py:110-112 | Reports equal the number of alert ticks up to and including the stopping one, one report per alert tick |
| `Escalation.CounterBounded` | cpu_shield.py:117-121 | The counter never exceeds the limit of 3, because the loop stops when it reaches it |
| `Escalation.ResetThenHibernate` | cpu_shield.py:104-121 | Flags alert, stable, alert, alert, alert give counters 1, 0, 1, 2, 3, four reports and hibernation at the fifth tick |
| `Escalation.Escalate` | cpu_shield.py:102-123 | The loop, written as in the source, computes the same counters, ending and report count as the fold |
| `Mitigation.Decide` | cpu_shield.py:80-100 | No action exactly when usage is at most 90.0. A whitelist skip exactly when usage is above 90.0 and the name is whitelisted. A caught error exactly when the candidate is a target and the lookup or terminate raises, or the kill raises after the process survived the grace period; the error names the call that raised. A kill that would raise on a process that already exited is never reached, so the outcome is a plain terminate. Requests go only to targets, graceful first. A forceful request is made only if the process is still running after the grace period |
| `Mitigation.Mitigate` | cpu_shield.py:78-100 | One outcome per candidate, in rank order. Each outcome depends only on that candidate and its own answers, so an error on one candidate never affects later ones |
| `Mitigation.ForcefulFollowsGraceful` | cpu_shield.py:91-95 | In the requests of a whole pass, every forceful kill comes immediately after a graceful terminate to the same process |
| `Mitigation.OnlyTargetsSignalled` | cpu_shield.py:81-89 | Every request in a pass goes to a candidate above 90.0 whose name is not whitelisted |
| `Mitigation.RankedNeverSkipped` | cpu_shield.py:83-85 | On candidates from the ranker the whitelist branch of the pass never fires |
| `Mitigation.HeavyProcessEscalates` | cpu_shield.py:81-97 | A process at 95% that is not whitelisted gets a graceful request alone if it exits during the grace period, and a graceful then a forceful request if it does not. "SYSTEM" at 95% is skipped |
| `Shield.Flags` | cpu_shield.py:108-110 | Each tick's alert flag is true exactly when its reading is above 80.0 |
| `Shield.Handle` | cpu_shield.py:108-115 | A tick above 80.0 gives an alert record. Its heavy list is that tick's ranking, and the k-th outcome is the decision for the k-th ranked process. Any other tick gives a stable record |
| `Shield.Guard` | cpu_shield.py:102-123 | Each processed tick gets one record. The record is an alert exactly when the reading is above 80.0, and an alert record carries that tick's ranking and, for the k-th ranked process, its mitigation decision. Each counter is the run of alert readings ending at that tick. The session hibernates at the first tick completing three consecutive readings above 80.0, with no record after it; without such a tick every tick is handled. Counters and ending agree with `Escalation.Monitor` |
| `Shield.AlertRecordsAreReports` | cpu_shield.py:110-112 | The alert records of a session are exactly the reports the escalation loop counts |
| `Shield.NoWhitelistedProcessTouched` | cpu_shield.py:26-37 | No report lists a whitelisted process. Every listed process that receives a request is above 90.0 and not whitelisted |
| `Shield.RankedBelowKill` | cpu_shield.py:81 | If no listed process is above 90.0, the ranking holds none either |
| `Shield.SustainedLoadWithoutHog` | cpu_shield.py:106-121 | Three readings above 80.0 with no process above 90.0 give three alert records, counters 1, 2, 3, hibernation at the third tick, and no action on any candidate |
| `Shield.StableTickResetsProgress` | cpu_shield.py:106-121 | Readings 85, 70, 85, 85, 85 give counters 1, 0, 1, 2, 3 and hibernation at the fifth tick |

## Left out

- psutil: the CPU measurement, process enumeration, lookup, terminate, kill and liveness check (cpu_shield.py:17, 42, 87-94). They become the reading, the snapshot and the per-candidate `Oracle`.
- A failure of the CPU measurement is not modelled. The source does not catch it, so it would end the program. The model takes readings as given.
- Desktop notifications through PowerShell, osascript or notify-send (cpu_shield.py:55-76). This is foreign process I/O whose errors are swallowed.
- The log file append and the console messages (cpu_shield.py:20-34, 84-100, 115, 118, 126). A report is modelled as an `Alert` record carrying the reading and the ranked processes; the text format depends on the clock and on float formatting.
- Sleeps, the interval and the random hibernation duration (cpu_shield.py:92, 120, 123). They are timing and randomness only. Hibernation is the `Hibernating` ending.
- A keyboard interrupt arriving during a tick (cpu_shield.py:125-127). Only an interrupt between ticks is modelled, as the end of the input stream.
- `Text.LowerChar`: lowers ASCII letters only, while Python's `lower()` also folds non-ASCII letters. A name that only matches a whitelist entry through such folding (for example one spelled with the Kelvin sign U+212A in place of "k") is whitelisted by the source but not by the model.
- The order among processes with equal CPU usage. The insertion sort keeps the earlier process first, like Python's stable sort, but no contract states this.
- `Mitigation.Mitigate`: requires exactly one oracle answer per candidate. That is the shape of the environment script, not a demand of the source. `Shield.Handle` takes one answer per rank position, at least three per tick.
- `Mitigation.Decide`: when terminate or kill raises, the request counts as attempted. Whether the host acted on it is not modelled.
- Whitelisted candidates: the source checks the whitelist only for candidates above 90.0. A whitelisted candidate at or below 90.0 therefore gets "no action", not a whitelist skip. The model follows the code.
- The hibernation message says "more than 3 consecutive checks". The code hibernates when the counter reaches exactly 3 (`>=`), and the model follows the code.
