# VIX / vStoxx week-one monitor — a Dafny model

The monitor is a scheduled script. On every run it fetches the latest VIX
close and the latest vStoxx close and applies a fixed entry rule. The trade
is entered only in week one of the month (days 1–7) and only when the
vStoxx − VIX spread does not exceed 10. The script then builds an alert and
posts it to a Telegram chat. Every remote call (both price downloads and
every message post) runs the same retry loop: up to 3 attempts, with a
sleep of 5·k seconds after a failed attempt k, and the last error re-raised.
If any step fails, the entry point posts one best-effort error notice and
exits with 1. When a delivery secret is missing it exits with 2 before any
remote call.

The model has six modules, one per part of the pipeline:

- `Outcomes` — `Option` (a missing close, an unset secret) and
  `Attempt` (`Ok(value)` / `Err(error)`, the outcome of one attempt of a
  remote call).
- `Decision` — the entry rule. `EuCrisisThreshold = 10.0` and
  `WeekOneMaxDay = 7`, the `Verdict` record and `Evaluate`. Prices are
  `real`. The day of the month is an explicit input in 1..31.
- `Message` — what the alert text decides: the week-one status line, the
  crisis-filter status line and exactly one verdict block (`EnterTrade`,
  `NoSignal`, `SkipEntry`). All of it is read from the verdict's flags and
  never recomputed.
- `Retry` — the retry loop, written once for all three call sites. It is a
  recursive function over a script of per-attempt outcomes and returns the
  final outcome, the number of attempts and the list of sleeps. An
  imperative version of the same counting loop is proved equal to it.
- `Fetch` — how each fetcher picks a close from a downloaded table. VIX
  drops missing closes and takes the last one left. vStoxx keeps only
  positive closes and takes the last one left. An empty table, a missing
  `Close` column and a column with nothing left are all plain attempt
  failures, and the retry loop retries them.
- `Monitor` — the entry point's control flow. It covers the configuration
  check, fetch VIX → fetch vStoxx → evaluate → build → send, the error
  notice, and exit codes 0/1/2. The network is replaced by a `World` that
  holds, for each remote call, the outcome each attempt would have. The
  clock is replaced by the world's day of the month.

Determinism of the entry rule needs no lemma: every Dafny function is
deterministic.

Two behaviours of the code are easy to misread, and the model keeps them as
written:

- A primary alert post that fails all its attempts raises inside the
  guarded block of the entry point, so one error notice is still attempted
  before exit 1 (`Monitor.SendFailureNotifies`).
- The VIX fetcher does not check the sign of a close: it only drops missing
  closes. Only the vStoxx fetcher keeps positive closes only
  (`Fetch.VixSelectionExamples`).

## Model

| member | source | states |
|---|---|---|
| `Decision.IsWeekOne` | monitor.py:112-116 | a day is in week one exactly when it falls in the first seven-day block of the month, (day − 1) / 7 = 0 |
| `Decision.Evaluate` | monitor.py:119-137 | spread = vStoxx − VIX; crisis iff spread > 10; week one iff the day is in the first seven-day block; enter iff day ≤ 7 and vStoxx ≤ VIX + 10; the verdict's flags are mutually consistent |
| `Decision.CrisisBoundary` | monitor.py:127-128 | a spread of exactly 10 is not a crisis; a spread of 10.0001 is one |
| `Decision.WeekOneBoundary` | monitor.py:29-31 | day 7 is in week one, day 8 is not, and every week-one day is at most 7 |
| `Decision.EnterMonotone` | monitor.py:127-130 | on the same day, lowering the vStoxx close keeps an entry an entry and does not raise the spread |
| `Decision.Scenarios` | monitor.py:119-137 | the three worked cases: (15, 18, day 3) enters; (15, 27, day 3) is a crisis skip; (15, 18, day 15) is no signal |
| `Message.BuildMessage` | monitor.py:158-202 | the alert shows the given prices and the verdict's spread; its status lines are the verdict's two flags; ENTER iff enter; for a consistent verdict NO SIGNAL iff not week one and SKIP ENTRY iff week one and crisis |
| `Message.MessageMirrorsVerdict` | monitor.py:158-202 | a consistent verdict can be read back unchanged from its alert, and that alert's block agrees with its status lines |
| `Message.BlockIgnoresSpread` | monitor.py:179-202 | verdicts with the same flags give the same block and status lines whatever their spreads: the template does not recompute the decision |
| `Message.EvaluatedBlock` | monitor.py:179-202 | for an evaluated verdict, ENTER iff day ≤ 7 and spread ≤ 10; NO SIGNAL iff day > 7 whatever the spread; SKIP ENTRY iff day ≤ 7 and spread > 10 |
| `Retry.Backoffs` | monitor.py:34-35 | the sleep after failed attempt k is 5·k seconds |
| `Retry.RetryFrom` | monitor.py:45-65 | from attempt k on, the loop stops after k..3 attempts, returns the outcome of the last attempt it made, and gives up only at attempt 3 |
| `Retry.WithRetry` | monitor.py:214-225 | one resilient call makes 1 to 3 attempts, its result is the outcome of its last attempt, and an error is re-raised only after the 3rd attempt |
| `Retry.RetryFromStopsAtFirstSuccess` | monitor.py:57-65 | every attempt before the last one the loop makes has failed |
| `Retry.RetryFromSleeps` | monitor.py:60-65 | the loop sleeps 5·k after each failed attempt k except its last attempt |
| `Retry.RetryPolicy` | monitor.py:81-105 | the result is the first successful attempt's value, and it is a success iff one of the first 3 attempts succeeds; otherwise it is the 3rd attempt's error; the sleeps are 5, 10, … one per failed attempt but the last |
| `Retry.RetryLoop` | monitor.py:45-65 | the source's counting loop (sleep and continue below the limit, re-raise at it) computes the same outcome, attempt count and sleeps as `WithRetry` |
| `Retry.BackoffTotal` | monitor.py:62-63 | the sleeps after failed attempts 1..n add up to 5·(1 + … + n) seconds |
| `Retry.RetrySleepBound` | monitor.py:34-35 | one resilient call sleeps at most twice, 15 seconds in total |
| `Retry.RetryScenarios` | monitor.py:100-105 | fail, fail, succeed returns the value after sleeping 5 then 10; three failures re-raise the 3rd error after the same sleeps and no further sleep; a first success does not sleep |
| `Fetch.Survivors` | monitor.py:54 | the filter never yields more closes than the table has rows; what it yields is stated by `Fetch.SurvivorsInRowOrder` |
| `Fetch.SurvivorsInRowOrder` | monitor.py:91 | the survivors are exactly the kept closes in row order: one per kept row, and the k-th survivor is the close of the kept row preceded by exactly k kept rows |
| `Fetch.LatestKept` | monitor.py:91-95 | the index returned is the last row whose close passes the filter; none is returned only when no row passes |
| `Fetch.LastSurvivorIsLatest` | monitor.py:54-57 | filtering the column and taking its last survivor gives the close of the latest kept row; nothing survives iff no row is kept |
| `Fetch.LatestKeptUnique` | monitor.py:95 | the latest kept row is unique, so the selected close is determined |
| `Fetch.VixAttempt` | monitor.py:47-59 | a failed request, an empty table and a table with rows but no Close column are distinct attempt failures |
| `Fetch.VixAttemptSelectsLatest` | monitor.py:49-57 | a VIX attempt succeeds iff a table with a Close column holding some present close arrived; its price is the close of the latest row with a present close |
| `Fetch.VstoxxAttempt` | monitor.py:84-98 | a vStoxx price is positive; an empty table or a missing Close column is a format failure; a failed request is a request failure; a missing-Date failure happens only for a table without a Date column |
| `Fetch.VstoxxAttemptSelectsLatest` | monitor.py:88-96 | a vStoxx attempt succeeds iff a table with a Close column holding some positive close and with a Date column arrived; its price is the close of the latest row with a positive close |
| `Fetch.FetchVix` | monitor.py:42-65 | the VIX fetcher makes 1 to 3 attempts, all but the last failed, its result is the last attempt's selection, it fails iff all three attempts fail, and it sleeps 5, 10, … between attempts |
| `Fetch.FetchVstoxx` | monitor.py:68-105 | the same retry behaviour for the vStoxx fetcher, and any price it returns is positive |
| `Fetch.VstoxxFailureKindsAlike` | monitor.py:88-96 | an empty table, a table without Close and a table with no positive close are each just a failed attempt: three in a row exhaust the fetcher after sleeping 5 and 10; a positive close in a table without a Date column also fails the attempt |
| `Fetch.VixSelectionExamples` | monitor.py:49-57 | a trailing missing VIX close is skipped; a zero VIX close is accepted, but vStoxx skips it; an all-missing column fails |
| `Monitor.Code` | monitor.py:236-256 | exit codes are 0, 1 and 2; 2 only for a missing configuration and 0 only for a completed run |
| `Monitor.Notify` | monitor.py:250-255 | the error notice is one resilient post of the failure; it is delivered iff one of its 3 attempts succeeds, and its failure is recorded, not raised |
| `Monitor.Run` | monitor.py:232-256 | exit 2 iff a secret is unset or empty, with no calls made; otherwise the first call is the VIX fetch and VIX is fetched only once, vStoxx is fetched only as the second call and only after VIX succeeded, and the alert is sent only as the third call, right after the vStoxx fetch and only when both fetches succeeded; exit 0 iff all three resilient calls succeed, with no error notice; exit 1 otherwise, and then the last call is the only error notice; every call makes 1 to 3 attempts |
| `Monitor.SleepBudget` | monitor.py:34-35 | any sequence of resilient calls sleeps at most 15 seconds per call |
| `Monitor.RunSleepBound` | monitor.py:240-256 | a run sleeps at most 15 seconds per resilient call and at most 60 seconds in all |
| `Monitor.DeliveredAlert` | monitor.py:241-247 | the alert of a successful run shows the two fetched closes, and its block is ENTER / NO SIGNAL / SKIP ENTRY exactly as the rule says for the run's day and spread |
| `Monitor.ErrorNoticeSwallowed` | monitor.py:252-256 | whether the error notice gets through never changes the exit code |
| `Monitor.VixFailureNotifies` | monitor.py:240-256 | when every VIX attempt fails, the run makes exactly the VIX fetch and one error notice carrying the third attempt's error, then exits with 1 |
| `Monitor.VstoxxFailureNotifies` | monitor.py:240-256 | when VIX succeeds and every vStoxx attempt fails, the run makes the two fetches and one error notice carrying the vStoxx fetcher's third error, with no alert sent, then exits with 1 |
| `Monitor.SendFailureNotifies` | monitor.py:240-256 | when both fetches succeed and every alert post fails, the run makes four calls and ends with one error notice that reports the delivery failure, then exits with 1 |
| `Monitor.AlertShowsFetchedPrices` | monitor.py:241-244 | when the fetch attempts come from downloaded tables, a successful run's alert shows the prices the two fetchers selected, and its vStoxx price is positive |

## Left out

- Network and library calls: `yf.download`, `requests.get`, `requests.post`, `pd.read_csv` and `raise_for_status`. They are replaced by per-attempt scripts: a `Fetch.Response` per download, and an `Attempt` per post.
- The DataFrame mechanics, including the multi-column case at monitor.py:52-53. A table is modelled as its single Close column of optional reals, plus whether the Close and Date columns exist. A Date column without a readable cell in the selected row is not modelled.
- `time.sleep`: only the list of sleep durations is modelled.
- `logging` and `os.getenv`: the two secrets are passed in as a `Config`.
- `date.today()` and the vStoxx URL's ten-day date window (monitor.py:76-79): the day of the month is an input, and the download window is part of the scripted response.
- All text rendering: emoji, HTML tags, the `%A, %d %b %Y` date, and the `:.2f` / `:+.2f` number formats (monitor.py:145-156). The `VSTOXX_PER_VIX` display constant is also left out.
- The JSON body that `send_telegram` returns: a successful post is modelled as `Ok(())`.
- The text of the error notice: the notice carries the `Monitor.Failure` value that ended the run.
- Floating point: prices are exact reals, so there is no rounding and no NaN in a price once it has been selected.
- `Monitor.Run`: in the model `Evaluate` and `BuildMessage` are total, so they cannot raise. The error path is reached only through the three resilient calls.
- `Retry.WithRetry`: a call's script must give an outcome for each of the 3 attempts it may make. This does not restrict the source; it only says the environment answers every call.
- `Monitor.Run`: it records the number of attempts of each call rather than the sleeps themselves. The sleeps of a call follow from that number through `Retry.Backoffs` (see `Retry.RetryPolicy`).
