# overc: adaptive check scheduler and alert fan-out, modelled in Dafny

This project models the two sequential decision cores of the overc
health-check agent:

* the **services monitor** of `overcli/monitor.py`: each `Service` has a
  nominal period, a measured execution lag and the stamp of its last test.
  The monitor derives an effective period (`real_period`) and a remaining
  delay (`next_update_in`) from them. On construction it calibrates every
  lag. `sleep_time` is the smallest delay. `check` selects the services
  within the largest lag, reports the truncated largest period of that
  selection, runs their checks and stamps them;
* the **alert dispatcher** of `overc/lib/alerts.py`: `send_alert_to_subscribers`
  sends a message to every configured alert plugin, collects the failures,
  and then always sends a newline-joined failure report to every plugin,
  only logging what that second pass raises.

Everything is a pure function over immutable records, except the alert fan-out,
which is a method with the two loops of the Python code. Time is a `real` number
of seconds. The two clock readings of a check pass are the parameters
`selectAt` (the reading `check` uses for selection) and `stampAt` (the one
`_check_services` writes to `lastTested`). What an external process does is
given as a parameter. `SpawnOutcome` covers a check command: its command line
did not split, it could not start, or it exited with a code and output.
`Launcher` covers an alert plugin: it ran with some exit code, or launching it
raised. Calibration takes the measured durations as a parameter.

The monitor runs under Python 2, where a check's name, command output and
error messages are byte strings (`str`). Formatting them into a `u'…'`
template decodes them as ASCII. So the model also covers what escapes
`get_state` other than `OSError`:

* the `ValueError` of `shlex.split` (monitor.py:63);
* the `UnicodeDecodeError` of the start-failure message (monitor.py:71);
* the `UnicodeDecodeError` of the out-of-table error log (monitor.py:88).

It also covers the eager debug line of a check worker (monitor.py:149-153). A
worker thread that raises dies alone, and the steps after the raise are
skipped:

* a calibration worker whose `get_state` raises stores no lag;
* a check worker whose `get_state` raises appends no state and stamps nothing;
* a check worker whose debug line raises has appended its state but stamps
  nothing.

Modules: `Wrappers` (Option, Result), `Builtins` (the Python built-ins whose
exact behaviour matters: `max`, `min`, `int()`, list subscripts, `str.join`,
filtering comprehensions), `Services`, `Executor` (`get_state`), `Monitor`,
`Alerts`.

Behaviour of the code a reader may not expect:

* The escalation pass runs unconditionally (alerts.py:66-71): there is no test
  of `plugin_failures` before the second loop. When nothing failed, every
  plugin receives the empty string (`Alerts.SendAlertToSubscribers`).
* The service with the largest lag is not always selected. The window is
  the largest lag (monitor.py:178), but a service is selected only when its
  own delay is within it (monitor.py:182). When no service is within the
  window, `max()` over the empty selection raises (monitor.py:184), and
  `CheckPass` returns `Err(NothingDue)` (`Monitor.MaxLagServiceNotAlwaysSelected`).
* The state table is a Python list subscripted by the exit code
  (monitor.py:86). Negative exit codes -1..-4 index it from its end and give
  UNK, FAIL, WARN, OK. Only codes above 3 or below -4 reach the `IndexError`
  branch and UNK.
* The stamp given to checked services is a second clock reading, taken at
  the start of `_check_services` (monitor.py:141). It is not the reading
  used for selection (monitor.py:179).
* An alert plugin that runs but exits non-zero is not a failure. The docstring
  of `execute_alert_plugin` says `CalledProcessError` is raised
  (alerts.py:29), but the code only waits and never looks at the return code
  (alerts.py:43-45).
* A check that exits with a table code (-4..3) and output that is not ASCII
  reports its state, but the debug line raises before the stamp
  (monitor.py:149-156). The service stays due until a check of it completes
  (`Monitor.NonAsciiOutputSkipsStamp`, `Monitor.CrashedWorkerStaysDue`). With
  any other code, the error log at monitor.py:88 raises and no state is
  reported (`Executor.GetStateCanRaise`).

## Model

| member | source | states |
|---|---|---|
| `Builtins.Max` | overcli/monitor.py:35 | `max(a, b)` is at least both arguments and equals one of them |
| `Builtins.MinOf` | overcli/monitor.py:170 | `min` of a non-empty list is one of its elements and no element is smaller |
| `Builtins.MaxOf` | overcli/monitor.py:178 | `max` of a non-empty list is one of its elements and no element is larger |
| `Builtins.Trunc` | overcli/monitor.py:190 | `int()` truncates toward zero: for x >= 0 it is the largest integer at most x; for x < 0 it is the smallest integer at least x |
| `Builtins.PyIndex` | overcli/monitor.py:86-89 | a list subscript succeeds exactly for indices in -len..len-1, picks element `i mod len` (negative indices count from the end), and otherwise raises `IndexError` |
| `Builtins.Join` | overc/lib/alerts.py:66 | `sep.join` of no pieces is empty; otherwise the result starts with the first piece and ends with the last |
| `Builtins.JoinAppend` | overc/lib/alerts.py:66 | joining one more piece appends the separator and that piece, so pieces appear in list order |
| `Builtins.JoinEmptyIff` | overc/lib/alerts.py:66 | joining non-empty strings gives the empty string exactly when there is nothing to join |
| `Builtins.JoinContainsEach` | overc/lib/alerts.py:66 | a given joined piece occurs in the joined string |
| `Builtins.JoinContainsAll` | overc/lib/alerts.py:66 | every joined piece occurs in the joined string |
| `Builtins.Where` | overcli/monitor.py:180-183 | the filter keeps exactly the indices satisfying the condition, each once, in increasing (list) order |
| `Services.NewService` | overcli/monitor.py:10-27 | a new service has the given period, name, directory and command, lag 0 and no test stamp |
| `Services.RealPeriod` | overcli/monitor.py:32-35 | the effective period is never negative, and it is 0 once three lags reach 80% of the period |
| `Services.RealPeriodBounds` | overcli/monitor.py:33-35 | for a non-negative period and lag, the effective period lies in [0, 0.8*period] and equals 0.8*period - 3*lag while that is positive |
| `Services.RealPeriodAntitone` | overcli/monitor.py:33-35 | a larger lag never gives a longer effective period |
| `Services.NextUpdateIn` | overcli/monitor.py:37-51 | the delay is never negative, is 0 for a never-tested service, and equals effective period minus elapsed time whenever that is positive |
| `Services.DueIff` | overcli/monitor.py:44-51 | the delay is 0 exactly when the service was never tested or its effective period has elapsed |
| `Services.NextUpdateInAntitone` | overcli/monitor.py:48-51 | the delay never grows as the clock advances |
| `Services.NextUpdateInElapses` | overcli/monitor.py:48-51 | once the reported delay has passed, the service is due |
| `Services.NextUpdateInAtStamp` | overcli/monitor.py:48-51 | at the instant of its stamp a service's delay is its whole effective period |
| `Services.NewServiceIsDue` | overcli/monitor.py:44-46 | a newly constructed service is due at every time |
| `Executor.StateOfCode` | overcli/monitor.py:85-89 | codes 0,1,2,3 map to OK, WARN, FAIL, UNK; -1,-2,-3,-4 to UNK, FAIL, WARN, OK; the lookup fails exactly for codes above 3 or below -4 |
| `Executor.SpawnFailureInfo` | overcli/monitor.py:71 | the start-failure text is 29 characters longer than name and message together, holds the name between backquotes at offset 26, and ends with the message |
| `Executor.GetState` | overcli/monitor.py:54-98 | an unsplittable command line raises `ValueError`; a start failure gives UNK with info "Failed to execute plugin `name`: msg", and it returns exactly when name and message are ASCII; a table code returns its table state with the output as info; an out-of-table code returns UNK with the output exactly when name and output are ASCII; every other raise is `UnicodeDecodeError`; the name is the service's |
| `Executor.NonNegativeCodes` | overcli/monitor.py:84-89 | for non-negative codes, when `get_state` returns: 0 is OK, 1 WARN, 2 FAIL, every other code UNK; codes 0..3 always return |
| `Executor.GetStateCanRaise` | overcli/monitor.py:63-88 | `get_state` raises on an unbalanced quote in the command line, and on exit code 7 with output holding the byte 0xB0 |
| `Monitor.MaxLag` | overcli/monitor.py:178 | the window is the largest lag, one of the services' lags |
| `Monitor.CalibrateService` | overcli/monitor.py:115-127 | when `get_state` raises the service is untouched and no warning branch is taken; otherwise the measured duration is stored as the lag, nothing else changes, and the high-lag branch is taken iff that lag exceeds half the period |
| `Monitor.Calibrate` | overcli/monitor.py:112-132 | every service whose `get_state` returns gets its own measured duration as lag; one whose `get_state` raises keeps its lag; test stamps and all other fields are unchanged; a service is flagged exactly when it returned and its lag exceeds half its period |
| `Monitor.SleepTime` | overcli/monitor.py:165-170 | with no services it raises; otherwise the result is at most every delay and equal to one of them, is non-negative, and is 0 when any service is untested |
| `Monitor.Selection` | overcli/monitor.py:180-183 | the selection is exactly the services whose delay is within the window, in list order |
| `Monitor.CheckWorker` | overcli/monitor.py:145-156 | the worker yields a state exactly when `get_state` returns, and that state; it stamps the service exactly when the command splits and every text formatted on the way (start-failure message, debug line) is ASCII, and otherwise leaves it unchanged |
| `Monitor.SelectedStates` | overcli/monitor.py:147-148 | no more states than selected services; one per selected service when every `get_state` returns; every returned state is there, and every state there was returned for a selected service |
| `Monitor.SelectedStatesOfOne` | overcli/monitor.py:147-148 | one selected check contributes its state when `get_state` returns and nothing when it raises |
| `Monitor.SelectedStatesAppend` | overcli/monitor.py:145-161 | the states of consecutive selections concatenate, so each selected check contributes exactly its own state list |
| `Monitor.SelectedStatesCount` | overcli/monitor.py:145-161 | there is exactly one state per selected check whose `get_state` returns |
| `Monitor.CheckServices` | overcli/monitor.py:134-163 | each selected service whose worker completes gets the one batch stamp, every other service is unchanged, and the states are the ones the selected checks returned (as a multiset) |
| `Monitor.MaxSelectedPeriod` | overcli/monitor.py:184 | the reported period is the period of one selected service and no selected period is larger |
| `Monitor.CheckPass` | overcli/monitor.py:172-190 | no services or an empty selection is an error (exactly then); otherwise due services (delay within the max lag at `selectAt`) whose worker completes get `lastTested = stampAt`, the others are unchanged, the period is the truncated largest period of a due service, and the states are those the due services' checks returned, as a multiset |
| `Monitor.SelectsIffSleepTimeWithinLag` | overcli/monitor.py:165-184 | on a non-empty monitor, a pass succeeds exactly when `sleep_time` at the same instant is within the largest lag |
| `Monitor.SleepThenCheckSelects` | overcli/monitor.py:165-184 | with non-negative lags, a pass started after sleeping the reported time always selects a service |
| `Monitor.MaxLagServiceNotAlwaysSelected` | overcli/monitor.py:178-184 | a single service with period 100 and lag 0.1, tested 1 s earlier, is not selected, and the pass raises |
| `Monitor.CheckPassKeepsLags` | overcli/monitor.py:141-163 | a check pass writes no lag, so the largest lag is unchanged |
| `Monitor.CheckPassStampsMoveForward` | overcli/monitor.py:141-156 | if the batch stamp is no earlier than any recorded stamp, no test stamp moves backward |
| `Monitor.CheckPassRestartsPeriods` | overcli/monitor.py:141-156 | at the batch stamp, a checked service whose worker completed has its whole effective period as delay, whatever its check took; every other service's delay is unchanged at every time |
| `Monitor.CrashedWorkerStaysDue` | overcli/monitor.py:145-156 | a due service whose worker dies before the stamp is still due at every later selection time |
| `Monitor.SingleServicePass` | overcli/monitor.py:145-190 | a pass over one due service succeeds; the service is stamped exactly when its worker completes; the states are its returned state, or none when `get_state` raised |
| `Monitor.NonAsciiOutputSkipsStamp` | overcli/monitor.py:147-156 | a fresh service whose check exits 0 with output holding a non-ASCII byte reports OK with that output, but stays unstamped |
| `Monitor.CalibratedMonitorIsDue` | overcli/monitor.py:102-132 | calibrating never-tested services leaves them untested, whether or not their checks raise, so the first sleep time is 0 |
| `Alerts.Command` | overc/lib/alerts.py:33 | the argument vector is the program followed by its arguments |
| `Alerts.ExecuteAlertPlugin` | overc/lib/alerts.py:18-45 | running a plugin raises exactly when launching it raises, with that error; the exit code of a program that ran is ignored |
| `Alerts.Invoke` | overc/lib/alerts.py:59-63 | the argument vector is exactly the entry's argument list; an empty list raises `IndexError`; a plugin that ran with any exit code is not a failure; any raised error is caught and returned |
| `Alerts.Failures` | overc/lib/alerts.py:58-63 | there are no more failures than attempts; the list is empty exactly when no attempt failed; every failed attempt's (name, error) is in it, and every entry comes from a failed attempt |
| `Alerts.FailuresOfOne` | overc/lib/alerts.py:60-63 | a single attempt contributes its (name, error) when it failed and nothing otherwise |
| `Alerts.FailuresAppend` | overc/lib/alerts.py:58-63 | failures are collected in attempt order: those of consecutive attempts are concatenated |
| `Alerts.FailuresCount` | overc/lib/alerts.py:58-66 | there is exactly one failure, and so one report line, per attempt that raised |
| `Alerts.FailureLine` | overc/lib/alerts.py:66 | a report line is 24 characters longer than name and error together, holds the name between backquotes at offset 14, and ends with the error text |
| `Alerts.ReportLines` | overc/lib/alerts.py:66 | one report line "Alert plugin `name` failed: err" per failure, in order |
| `Alerts.Report` | overc/lib/alerts.py:66 | the report is the empty string exactly when nothing failed, and every failure's line occurs in it |
| `Alerts.SingleFailureReport` | overc/lib/alerts.py:66 | with one failure the report is exactly that failure's line, with no separator |
| `Alerts.ReportNamesEveryFailure` | overc/lib/alerts.py:66 | every pass-one failure's line, with its name and error text, occurs in the report |
| `Alerts.FanOut` | overc/lib/alerts.py:59-63 | one pass tries every entry exactly once, in config order, with the same message, and collects the (name, error) of every failure; nothing escapes |
| `Alerts.SendAlertToSubscribers` | overc/lib/alerts.py:48-71 | pass one sends the message to every entry; the report is the joined failure lines (empty iff nothing failed); pass two always sends the report to every entry, failed ones included; exactly 2 x entries attempts, and nothing is raised |
| `Alerts.EscalationScenario` | overc/lib/alerts.py:58-69 | with three subscribers of which only the second fails, the report is that single failure line |

## Left out

- Process execution (`subprocess.Popen`, pipe reads and writes, `wait`) is library I/O. Its outcome is given as a `SpawnOutcome` or a `Launcher` result. `shlex.split` is represented only by whether it raises (`Unsplittable`), not by how it splits. A hung process, which the code never times out, is not represented.
- Text is modelled as Python 2 byte strings, where a character below 128 is an ASCII byte. A service name, message or output that is already `unicode` would not raise where byte text with the same characters does, and the model does not distinguish the two kinds.
- Alerts.SendAlertToSubscribers: the report is built at alerts.py:66 outside any `try`. A `unicode` plugin name or exception text that does not encode as ASCII would make that `str.format` raise before pass two, and the model does not represent that raise.
- Threads in calibration and check passes are modelled sequentially, since each worker touches only its own service. The order in which worker threads append states is nondeterministic, so states are compared as multisets. The traceback a dying thread prints is left out.
- The clock (`datetime.utcnow()`, `total_seconds()`) is replaced by real-valued timestamps and measured durations passed in. Float rounding is not modelled; `real` is exact for 0.8, 3.0 and 0.5.
- What the log lines write is left out: the exception log on a start failure, the error log for an out-of-table exit code, the debug line per check, and the logged pass-two failures. Only whether building those lines raises is modelled. The calibration warning's format string has two placeholders but only one argument, so it raises inside the worker after the lag is stored; since nothing follows it in the worker, only the condition of that branch is modelled (`Monitor.CalibrateService`).
- Calibration discards the state `get_state` returns, so the model takes only the measured durations and whether `get_state` raised.
- `list_alert_plugins` is a bare directory listing, and it is not part of this model.
- Exception texts (`e.message`, `str(e)`) are opaque strings. Under Python 2 the `message` of an `OSError` raised with an errno is empty, which an opaque text covers. An empty `plugin_args` gives the `IndexError` text "list index out of range".
- `alerts_config` is a dict in overc. It is modelled as a sequence of (name, arguments) entries, taken in the dict's iteration order, which is the same for both passes.
- Service periods are `real` numbers. The code documents them as integers; the reported period goes through `int()` in either case.
- The order of the two clock readings of a check pass (`selectAt` before `stampAt`) is not required, because no property depends on it.
