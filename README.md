# space-oddity: a verified model of the access-log monitor

`process_log.py` follows a web server's access log. Each line is parsed into a
request: host, timestamp, method, resource, protocol, reply code and reply bytes.
Four features are fed from each request:

- the visits per host;
- the bytes served per resource;
- the visits per second of time;
- a guardian of failed logins.

The guardian blocks a host after three failed `/login` attempts within 20
seconds. It lifts the block with the first login request 300 seconds or more
later, and in the meantime it keeps every line the host sends. When the log is
exhausted, the monitor writes a summary:

- the ten busiest hosts;
- every resource, by bytes;
- the ten busiest one-hour windows.

The repository holds two copies of the script, `src/process_log.py` and
`insight_testsuite/temp/src/process_log.py`. Their counters, guardian and parser
are the same. The second copy differs in these ways:

- it also accepts typographic double quotes around the request;
- it computes the windows with an inclusive bound and a shortcut;
- it counts a host only when the host is nonempty;
- it credits bytes to any nonempty resource, a byte count of 0 included;
- it runs the guardian's log check only for a nonempty host;
- it runs the log check between `update_block` and `update_attempts` rather than last;
- its summary uses its own window computation, and the monitor exits after the first summary instead of polling.

The Dafny project models both copies.

- `wrappers.dfy`: `Option` and `Result`.
- `text.dfy`: the Python string operations the parser uses. `str.split(' ')` is modelled with its inverse `Join`, plus `int(...)` on digit strings and `str.replace`.
- `instants.dfy`: an instant is a whole number of seconds, and `calc_delta_time` is a subtraction. It also gives the chronological listing of a set of instants, which is what `sorted(timedict.keys())` produces.
- `requests.dfy`: the `Request` constructor as a function `Parse` returning a `Result`. Its partner is `Format`, which writes a request out as a log line. The date parser is a parameter.
- `counters.dfy`: the `Counter` class. `Update` changes the `counts` field in place, and `Logger` returns the lines it writes.
- `guardians.dfy`: the `Guardian` class. Its methods are proved against the pure transitions `RecordFailure` and `ExpireBlock` on a `Guard` value.
- `windows.dfy`: `calc_time_windows` of `src/process_log.py` as a loop-for-loop method. It is proved equal, for every instant, to the reference definition `Window`: the visits at the logged instants in `[t, t + span)`.
- `process_log.dfy`: one step of the read loop of `main`, the loop itself over a sequence of parsed lines, and the summary.
- `process_log_temp.dfy`: the second copy's window computation, modelled as written, and its per-line step.

Where the code and its documentation disagree, the model follows the code:

- A line that does not parse makes `Request` raise, and `main` does not catch it, so the monitor stops. `Requests.Parse` returns a `Failure` for such a line, and nothing in the model skips it.
- `update_block` runs only for `/login` requests. A blocked host that sends anything else stays blocked and has every line kept, however much later it comes (`ProcessLog.BlockOutlastsOtherRequests`).
- The window docstrings speak of "the next 60 second pairs". The code sums over an hour: `< 3600` in `src/process_log.py` and `<= 3600` in the second copy.

## Model

| member | source | states |
|---|---|---|
| Text.JoinSplit | src/process_log.py:64-65 | Joining the pieces of `s.split(sep)` with `sep` gives `s` back. |
| Text.SplitJoin | src/process_log.py:48-58 | Splitting pieces that do not contain `sep`, once joined, gives the pieces back. |
| Text.DecimalRoundTrip | src/process_log.py:64-69 | `int` reads back the number that `'{}'.format` writes. |
| Requests.Host | src/process_log.py:34 | The host is a prefix of the line. It ends at the first `' - - '`, or at the end of the line when there is none. |
| Requests.SpanMatches | src/process_log.py:37-43 | Semantics of the lazy patterns `\[(.*?)\]` and `"(.*?)"`. A match is the first opening character, then the first closing character after it. There is no match only when no closing character follows an opening one. |
| Requests.Parse | src/process_log.py:20-69 | The `Request` constructor. It fails with `NoTimestamp` exactly when there is no `[...]`. On success there are at least two tokens. Without a quoted segment, method, resource and protocol are all `None`. With one, they are its first, second and third space-separated words, and each is `None` on its own when its word is missing. A resource never contains a space. Its partner is `ParseFormat`. |
| Requests.LaidOutWords | src/process_log.py:42-61 | For a line written with the ASCII quote, the quoted field splits into the request's three words. This holds under either quote class, the ASCII one and the one with the typographic quotes of insight_testsuite/temp/src/process_log.py:43-47. |
| Requests.Reply | src/process_log.py:63-69 | The reply is read exactly when there are two tokens or more, the second-to-last is digits, and the last is digits or `'-'`. Too few tokens is `NoReplyCode`, and `'-'` reads as 0 bytes. |
| Requests.WrittenReply | src/process_log.py:63-69 | The last two space-separated tokens read back as the reply code and byte count, with `'-'` read as 0. |
| Requests.ParseFormat | src/process_log.py:20-69 | Round trip: a request with all three request words, written as a log line parses back to the same request, for both quote classes, with the byte count written as a number or as `'-'` when it is 0. |
| Instants.DeltaTime | src/process_log.py:187-191 | `calc_delta_time`: adding the result to `t1` gives `t2`, so it is negative exactly when `t2` is earlier. |
| Instants.AscendingListing | src/process_log.py:209-211 | The sorted keys hold every logged instant once, in strictly increasing order. |
| Instants.AscendingUnique | src/process_log.py:209-211 | Any strictly increasing listing of the same instants is the sorted one. |
| Counters.AddTo | src/process_log.py:91-96 | `update(key, n)`: the key's total grows by `n`, or starts at `n` if new. No other key changes, and no key is lost. |
| Counters.Counter.Update | src/process_log.py:91-96 | The counter's dictionary becomes `AddTo` of the old one. The same code is at insight_testsuite/temp/src/process_log.py:97-102. |
| Counters.TallyIsKeyTotal | src/process_log.py:91-96 | After any series of updates, a key is present exactly when it was updated, and it holds the sum of its amounts. |
| Counters.KeyTotalPermutation | src/process_log.py:91-96 | Reordering the updates does not change the sum they give a key. |
| Counters.TallyPermutation | src/process_log.py:91-96 | The counts after a series of updates are the same for any order of the same updates. |
| Counters.Shown | src/process_log.py:104-113 | Lines written: `min(n, #keys)` for `n >= 1`, 1 when `n <= 0`, all keys for `float('inf')`, and none for an empty table. |
| Counters.SortDescKeeps | src/process_log.py:112 | The sort by total, reversed, is a permutation of the entries, in non-increasing order of total. |
| Counters.Items | src/process_log.py:112 | `dict.items()`: every key of the dictionary once, with its total. |
| Counters.LeftOutNoLarger | src/process_log.py:112-113 | Slicing the sorted entries leaves out no entry larger than one kept. |
| Counters.Counter.TopEntries | src/process_log.py:104-113 | The selected entries are the `Shown` largest totals, largest first, each key once with its stored total. No entry left out is larger than one kept. |
| Counters.Counter.Logger | src/process_log.py:98-119 | `TopReport`: the report has `Shown(n, #keys)` lines with distinct keys of the table. Each line carries its key's stored total exactly when `write_vals`. Totals are non-increasing down the report, and no key left out has a larger total than one written. The same code is at insight_testsuite/temp/src/process_log.py:104-125. |
| Guardians.RecentIsLastThree | src/process_log.py:150-157 | Appending a failure and dropping the oldest past three keeps the last three failures in arrival order. |
| Guardians.RecordFailure | src/process_log.py:149-165 | `update_attempts`: the host's list becomes the last three of its failures plus the new one, and other hosts' lists are unchanged. The host is blocked from `t`, even if it was already blocked, exactly when those three span at most 20 seconds. Otherwise `blocked` is unchanged. |
| Guardians.ExpireBlock | src/process_log.py:167-176 | `update_block`: the host stays blocked exactly when it was blocked and fewer than 300 seconds have passed. The attempts and every other host are unchanged. |
| Guardians.Fresh | src/process_log.py:139-140 | A new guardian remembers nothing, blocks nobody, and satisfies the invariant `Valid`. |
| Guardians.RecordFailureValid | src/process_log.py:149-165 | `update_attempts` keeps the invariant: one to three failures per remembered host, and only hosts that failed are blocked. |
| Guardians.ExpireBlockValid | src/process_log.py:167-176 | `update_block` keeps the invariant `Valid`. |
| Guardians.FailuresValid | src/process_log.py:149-165 | Any series of failed logins keeps the invariant `Valid`. |
| Guardians.FailuresKeepLastThree | src/process_log.py:149-157 | After any nonempty series of failures, the host's list is the last three of all its failures, earlier ones included. |
| Guardians.ThreeQuickFailuresBlock | src/process_log.py:159-165 | Three failures within 20 seconds block the host from the third, whatever it did before. |
| Guardians.Guardian.constructor | src/process_log.py:133-140 | Empty tables and an empty log. |
| Guardians.Guardian.UpdateAttempts | src/process_log.py:149-165 | The in-place update gives `RecordFailure` of the old state and keeps the log. The same code is at insight_testsuite/temp/src/process_log.py:156-178. |
| Guardians.Guardian.UpdateBlock | src/process_log.py:167-176 | The in-place update gives `ExpireBlock` of the old state and keeps the log. The same code is at insight_testsuite/temp/src/process_log.py:180-189. |
| Guardians.Guardian.Logger | src/process_log.py:178-184 | The line is appended exactly when the host is blocked, and neither table changes. The same code is at insight_testsuite/temp/src/process_log.py:191-197. |
| Windows.WindowIsRun | src/process_log.py:233-240 | The run of instants that the forward search adds up is exactly the window `[t, t + span)` of the instant it starts from. |
| Windows.WindowOfListing | src/process_log.py:209-211 | Summing a window over any chronological listing of the instants gives `Window`. |
| Windows.WindowsOf | src/process_log.py:194-207 | One window per logged instant, and no other key. |
| Windows.SortedKeys | src/process_log.py:209-213 | The listing holds every logged instant once, strictly increasing. |
| Windows.GrowWindow | src/process_log.py:233-240 | The inner loop stops at the first instant `span` or more seconds away, or at the end of the list. The stored count is then the visits of the run it covered. |
| Windows.ScanWindows | src/process_log.py:208-240 | The loop gives nothing exactly when nothing was logged. Otherwise it gives `WindowsOf`: every instant's window. |
| ProcessLog.CalcTimeWindows | src/process_log.py:194-240 | `None` exactly for an empty dictionary. Otherwise one entry per instant `t`, holding the visits at the instants in `[t, t + 3600)`. |
| ProcessLog.LastWindowIsOwn | src/process_log.py:229-231 | The latest instant's window holds its own visits alone. |
| ProcessLog.GuardStep | src/process_log.py:287-293 | Only `/login` requests change the guardian. Nothing but the request's host gains attempts or changes blocked status. |
| ProcessLog.GuardStepValid | src/process_log.py:287-293 | One request keeps the guardian's invariant. |
| ProcessLog.BlockingRequestKept | src/process_log.py:287-294 | The failed login that completes three within 20 seconds blocks its host from its own instant, and, since the log check runs last, it is itself kept. |
| ProcessLog.BlockOutlastsOtherRequests | src/process_log.py:288-294 | A request other than a login leaves every block in place and, from a blocked host, is kept. |
| ProcessLog.LoginAfterBlockLifts | src/process_log.py:288-294 | A successful login 300 seconds or more after the block began lifts it and is not kept. |
| ProcessLog.CountsBandwidth | src/process_log.py:281 | Python's truth test on the resource and the byte count: bytes are credited exactly when the resource is present and nonempty and the byte count is positive. |
| ProcessLog.BandwidthTotals | src/process_log.py:280-282 | Skipping the requests without bytes loses nothing: after any series of requests, the bandwidth counter credits each nonempty resource with all the bytes served for it. |
| ProcessLog.Kept | src/process_log.py:294 | The guardian's log check after the request: at most one line, the request's own, and kept exactly when the host is blocked after the guardian saw the request. |
| ProcessLog.Step | src/process_log.py:277-294 | One line does the following, with the guardian's log check last: the host's visits grow by 1 and the instant's visits by 1. The resource's bytes grow only when the resource is nonempty and the byte count is nonzero. The guardian becomes `GuardStep`, and the log gains `Kept`. |
| ProcessLog.HostUpdatesCount | src/process_log.py:277-278 | The host counter credits every host with exactly its number of requests. |
| ProcessLog.HostsCounted | src/process_log.py:277-278 | After the loop, the host counter holds exactly the hosts that sent requests, each with its number of requests. |
| ProcessLog.GuardedValid | src/process_log.py:287-294 | Over any series of requests the guardian keeps its invariant, and it keeps at most one line per request. |
| ProcessLog.Monitor | src/process_log.py:254-297 | After the lines of the log, each counter holds the tally of its updates and the guardian holds what `Guarded` gives. |
| ProcessLog.Report | src/process_log.py:300-309 | Each of the three reports is a `TopReport`. Hosts: the ten busiest with their visits, busiest first, each once, and none left out busier. Resources: every resource once, without totals, by non-increasing bytes. Hours: the visits per instant are replaced by their windows, and the ten busiest windows are written, busiest first, each once with its window's count, and none left out busier. With no visits the window computation yields nothing and no summary is produced. |
| ProcessLogTemp.Search | insight_testsuite/temp/src/process_log.py:267-276 | The expensive search leaves `j` inside the list, ahead of `i`. Stepping back after running off the end keeps `last_j` a valid index. |
| ProcessLogTemp.TempWindowAt | insight_testsuite/temp/src/process_log.py:255-276 | Every index one pass uses, `last_j + 1` of the shortcut included, lies in the list, and the pass leaves `j` ahead of `i`. |
| ProcessLogTemp.SearchForward | insight_testsuite/temp/src/process_log.py:267-276 | The `while` loop, `j -= 1` included, computes `Search`. |
| ProcessLogTemp.TempWindows | insight_testsuite/temp/src/process_log.py:237-281 | The scan as written gives nothing exactly when nothing was logged, and otherwise one entry per logged instant. |
| ProcessLogTemp.TempPass | insight_testsuite/temp/src/process_log.py:255-276 | One pass of the `for` loop, with the two edge moves, the shortcut test and the search, computes `TempWindowAt`. |
| ProcessLogTemp.TempCalcTimeWindows | insight_testsuite/temp/src/process_log.py:227-281 | The loop, with `last_i`, `last_j` and `last_count` carried across passes, computes `TempWindows`. |
| ProcessLogTemp.TempScanFromCovers | insight_testsuite/temp/src/process_log.py:237-281 | The scan stores an entry for every instant it reaches and for nothing else. |
| ProcessLogTemp.TempScanFromAt | insight_testsuite/temp/src/process_log.py:248-278 | The entry stored for an instant is that pass's count. For the last instant it is its own visits. |
| ProcessLogTemp.SearchIsWindow | insight_testsuite/temp/src/process_log.py:267-276 | The expensive search adds exactly the visits in the inclusive window `[t, t + 3600]`. |
| ProcessLogTemp.SearchedIsWindow | insight_testsuite/temp/src/process_log.py:255-276 | Wherever the expensive search runs (the first instant, after a search that reached the end, or edges that moved differently), the count is the inclusive window. |
| ProcessLogTemp.LastOfScan | insight_testsuite/temp/src/process_log.py:250-253 | The latest instant gets its own visits. |
| ProcessLogTemp.TempEdges | insight_testsuite/temp/src/process_log.py:237-276 | The earliest instant's entry is its inclusive window. The latest's is its own visits, which is also its window. |
| ProcessLogTemp.ShortcutCounterexample | insight_testsuite/temp/src/process_log.py:262-266 | On instants 0, 1, 4000 and 4001 with one visit each, the scan as written stores 2 for instant 1, whose window holds 1. This holds for the inclusive and the half-open bound alike. |
| ProcessLogTemp.CalcTimeWindowsCorrected | insight_testsuite/temp/src/process_log.py:267-276 | Without the shortcut, `None` exactly for an empty dictionary. Otherwise every instant gets its inclusive window `[t, t + 3600]`. |
| ProcessLogTemp.InclusiveHoldsMore | insight_testsuite/temp/src/process_log.py:270 | With visits never negative, the inclusive window of this copy holds at least the half-open window of the other. |
| ProcessLogTemp.Lifted | insight_testsuite/temp/src/process_log.py:346-347 | `update_block` before the log check changes no attempts and adds no block. |
| ProcessLogTemp.KeptTemp | insight_testsuite/temp/src/process_log.py:349-351 | The request's own line is kept, once, exactly when its host is nonempty and blocked after `update_block`, before the failure is recorded. |
| ProcessLogTemp.BlockingRequestNotKept | insight_testsuite/temp/src/process_log.py:344-355 | The failed login that starts a block is not kept by this copy, because it checks the log before recording the failure, while the other copy keeps it. |
| ProcessLogTemp.KeptAgree | insight_testsuite/temp/src/process_log.py:344-355 | The two copies keep different lines for a request exactly when its host ends up blocked and is either empty or was not blocked after `update_block`. For a nonempty host, that is the failed login that starts a block. |
| ProcessLogTemp.Step | insight_testsuite/temp/src/process_log.py:332-355 | One line does the following. A nonempty host is counted, and a nonempty resource gets its bytes, even 0. The instant is counted. The guardian ends as `GuardStep`, and the log gains `KeptTemp`, checked after `update_block` and before `update_attempts`. |

## Left out

- Reading the log, and the wait between reads, are not modelled. This covers `io.open`, `readline`, `tell`/`seek`, the 10 ms sleep, `sys.exit` and the daemon loop. `ProcessLog.Monitor` takes the parsed requests and their lines as sequences, and `ProcessLog.Report` runs once at the end.
- Logging handlers and `log_exec` messages are left out. The lines a counter or the guardian would write are returned as sequences or kept in a field instead.
- `dateutil.parser.parse` is a parameter of `Requests.Parse`. `strftime` is left out: the windows are keyed by instant, and the formatting is taken as an injective renaming.
- Instants are whole seconds from the Unix epoch. Sub-second precision, instants before 1970 and the distinction between timezone offsets are not represented.
- `preprocess_string` (UTF-8 decoding with `'ignore'` and `strip`) is library behaviour. `Requests.Parse` takes a line that is already decoded and stripped, with no line break.
- `Requests.ParseFormat`: the round trip covers requests with all three request words, because `Format` writes exactly three. For one or two words, or none, `Requests.Parse` states which fields are filled.
- `Requests.Reply`, and with it `Requests.Parse`: `int()` accepts signs and surrounding whitespace on the last two tokens, but the model accepts digit strings only. A negative or padded reply code or byte count is a failure in the model.
- `Counters.Counter.Logger`: the order among equal totals follows Python's dictionary order, which is not modelled. Only non-increasing totals are promised. Two reports with and without values are therefore not proved to list the same keys in the same order.
- In the daemon of `src/process_log.py`, the windowed dictionary, keyed by strings, replaces the visits per instant, and later lines add datetime keys to it. Mixing the two key types is a runtime hazard and is not modelled.
- `ProcessLog.Report`: with an empty log, the source writes the host and resource reports, then fails with a `TypeError` when it reports the `None` windows. The model returns `None` for the whole summary.
- The second copy's read loop and summary differ from the first copy's in two more ways. Its summary builds the hours report from its own window computation, `TempWindows`, and it exits after the first summary instead of polling. The model has `ProcessLogTemp.Step` for the body of one line and the window computation itself. The loop over the lines and the summary built from `TempWindows`, including its hours report, are not modelled.
- The stop at the first line that fails to parse is not modelled. `ProcessLog.Monitor` and `ProcessLog.Report` cover only logs in which every line parses.
- `if data.timeobj` in the second copy is always true for a parsed request, so the instant is always counted.
- `argparse`, the verbosity flags and the `copy()` of integers have no effect on the computation.

## Findings

| source | as written | input that shows it | evidently intended | confidence | as-written member | corrected member |
|---|---|---|---|---|---|---|
| insight_testsuite/temp/src/process_log.py:262-266 | When the left edge of the window moved by as many seconds as the gap after the previous `last_j`, the count is reused: the previous count, minus the visits at `last_i`, plus those at `last_j + 1`. Equal steps on both edges do not mean that exactly one instant left the window and exactly one entered it. | Instants 0, 1, 4000 and 4001 with one visit each. At instant 1, `delta_i = 1 - 0 = 1` and `delta_j = 4001 - 4000 = 1`, so the count stored is 2 - 1 + 1 = 2. | The visits in the window of instant 1 are 1, because only instant 1 lies within 3600 seconds of it. That count is what the expensive search gives. | not executed | ProcessLogTemp.ShortcutCounterexample | ProcessLogTemp.CalcTimeWindowsCorrected |
