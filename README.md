# Traffic generator dispatch core, modelled in Dafny

The repository is a small desktop tool (`traffic.py`). It fires a burst of
HTTP GET requests at a URL from a thread pool. It can rotate the requests
through a comma-separated list of proxies. It shows one line per request
and a progress percentage. Under the widgets there are a few deterministic
rules, and this project models them and proves their properties:

- **Proxy rotation** (`RequestWorker.send_request`): request number `k`
  uses entry `k % L` of a non-empty proxy list, for both `http` and `https`.
  With no list, or an empty one, it uses no proxy.
- **The line a request returns**: `"<k> Запрос: <code> <reason>"` for a
  response and `"<k> Запрос: Ошибка <message>"` for an exception. Exactly one
  line comes back and no exception escapes. The worker sleeps only after a
  response.
- **The burst** (`RequestWorker.run`): tasks 1..N are submitted in order.
  Their results are then taken back in the same order, and each result
  emits its line and the percentage `int((i + 1) / N * 100)`.
- **The start action** (`TrafficBooster.start_traffic_boost`): the display
  and progress bar are reset first. The proxy field becomes a list (empty
  text gives none, otherwise the text is split on commas). A URL without
  `http://` or `https://` shows an error and returns before any worker is
  built. The delay spin box's milliseconds become seconds.

Modules, in dependency order:

- `Wrappers` (`wrappers.dfy`): `Option`.
- `Arith` (`arith.dfy`): Euclidean division facts used by the proofs.
- `Text` (`text.dfy`): Python's `str()` of a non-negative integer,
  `startswith`, and `split`/`join` on one character, with their round trips.
- `Requests` (`requests.dfy`): `send_request`.
- `Worker` (`worker.dfy`): the `RequestWorker` configuration and `run`.
- `Booster` (`booster.dfy`): `start_traffic_boost`, as a class whose fields
  are the window state it updates.

The network is not modelled. Its answer to request `k` is an `Outcome`
(`Success(code, reason)` or `Failure(message)`) passed in by the caller.
`Run` receives one outcome per task. It returns the emitted lines, the
emitted percentages, and the requests sent, so the proxy of each request
can be seen.

Two consequences of the code that are easy to miss:

- Request `k` uses entry `k % L`, so with two or more proxies the rotation
  starts at entry 1, not entry 0 (`Requests.RotationStartsAtSecondEntry`).
- `run()` walks the `futures` list, so lines come out in submission order
  whatever order the tasks finish in (`Worker.Run`).

## Model

| member | source | states |
|---|---|---|
| `Requests.SelectProxy` | traffic.py:42-44 | A proxy is chosen exactly when the list is present and non-empty. The same entry, `proxies[k % L]`, is used for `http` and `https`. |
| `Requests.RotationPeriodic` | traffic.py:44 | Requests `L` numbers apart go through the same proxy. |
| `Requests.RotationStartsAtSecondEntry` | traffic.py:44 | With two or more proxies, request 1 uses entry 1 and request `L` uses entry 0, and the cycle then repeats. |
| `Requests.RotationReaches` | traffic.py:44 | Within any `L` consecutive request numbers, every entry of the list is used by some request. |
| `Requests.RotationDistinct` | traffic.py:44 | Two requests less than `L` apart use different entries, so each entry is used exactly once per window of `L`. |
| `Requests.OutcomeText` | traffic.py:48-50 | The text after the label is `Ошибка <message>` for an exception, giving back the message. For a response it is the status code's digits, a space and the reason, giving back both; it never starts with `Ошибка `. |
| `Requests.ParseSuccessText` | traffic.py:48 | `<code> <reason>` splits at the first non-digit back into the code and the reason. |
| `Requests.FormatLine` | traffic.py:48-50 | Every result line reads back into exactly its request number and its whole outcome (code and reason, or error message). |
| `Requests.ParseLineParts` | traffic.py:48-50 | A line is the request number's digits, then ` Запрос: `, then the outcome text, and the number reads back from the digits. |
| `Requests.Settle` | traffic.py:45-50 | The reported outcome is the network's answer. The one exception is a response followed by a `time.sleep` that raises for a negative delay, which is reported as an error. A failure is never turned into a success. |
| `Requests.SendRequest` | traffic.py:39-50 | The GET goes to the URL with the fixed User-Agent and the rotated proxy. The worker sleeps `delay` only when a response came and the sleep did not raise, and sleeps nothing otherwise. Exactly one line is returned: `<n> Запрос: ` followed by the settled outcome, and it reads back to that number and outcome. |
| `Text.StartsWith` | traffic.py:146 | `s.startswith(p)` holds exactly when `s` is `p` followed by some rest. |
| `Text.NatToString` | traffic.py:48 | `str()` of a number is a non-empty digit string without leading zeros. |
| `Text.ParseNatToString` | traffic.py:48 | Reading the digits of `str(n)` back gives `n`. |
| `Text.DigitPrefixOfConcat` | traffic.py:48 | In a line, the number's digits end where the label begins, so the number is delimited unambiguously. |
| `Text.Split` | traffic.py:144 | `split(',')` gives one more piece than there are commas, and no piece contains a comma. |
| `Text.JoinSplit` | traffic.py:144 | Joining the pieces with `','` reproduces the proxy text. |
| `Text.SplitJoin` | traffic.py:144 | Splitting a join of comma-free pieces gives back the same pieces in the same order. |
| `Worker.TaskNumbers` | traffic.py:33 | `N` numbers are submitted, each in 1..N and strictly increasing in submission order. |
| `Worker.TaskNumbersExact` | traffic.py:33 | The `i`-th submitted task is request number `i + 1`. |
| `Worker.TaskNumbersCover` | traffic.py:33 | Every number from 1 to `N` is submitted. |
| `Worker.Progress` | traffic.py:37 | The percentage after `done` of `total` results is at most 100. It equals 100 exactly when all results are in. |
| `Worker.ProgressMonotone` | traffic.py:37 | The percentage never decreases as more results come in. |
| `Worker.ProgressMonotoneAll` | traffic.py:37 | For a fixed total, a larger number of results never gives a smaller percentage. |
| `Worker.Percents` | traffic.py:34-37 | The `N` emitted percentages are `Progress(j + 1, N)`. Each is at most 100, they never decrease, and the last one is 100. |
| `Worker.Attempts` | traffic.py:33-35 | The result of task `j + 1`, taken from future `j`, is a line that reads back to request number `j + 1` and that task's settled outcome. Its request goes to the worker's URL with the fixed User-Agent through the rotation's proxy for `j + 1`. |
| `Worker.Run` | traffic.py:23-37 | For a worker built with at least one thread, exactly `N` lines and `N` percentages are emitted. The `j`-th line is the result of task `j + 1`, in submission order. `sent[j]` is the request of task `j + 1`. The percentages are `Percents(N)`. |
| `Booster.ValidUrl` | traffic.py:146 | A URL is accepted exactly when it is `http://` or `https://` followed by anything. |
| `Booster.FtpRejected` | traffic.py:146-148 | `ftp://example.com` is rejected. |
| `Booster.ParseProxies` | traffic.py:141-144 | Empty proxy text gives no list. Any other text gives its comma-separated pieces: one more than the commas, comma-free, and joining back to the text. |
| `Booster.ProxyFieldDecides` | traffic.py:141-144 | With the list read from the field, a request gets a proxy exactly when the field is non-empty. A field without commas is the proxy of every request. |
| `Booster.DelaySeconds` | traffic.py:137 | The seconds handed to the worker are non-negative, and times 1000 they give back the milliseconds entered. |
| `Booster.TrafficBooster.StartTrafficBoost` | traffic.py:133-155 | Inputs are within the widgets' ranges (traffic.py:70-71, 81-82, 92-93), so a started worker has at least one thread. The progress bar is reset to 0. An invalid URL leaves only the error message on the display, and no worker is built or started. A valid one clears the display, builds the worker from the inputs (URL, counts, delay in seconds, parsed proxies) and starts it. |

## Left out

- The PyQt widgets, labels, sliders and the window layout (traffic.py:52-131, 157-160) are UI wiring. The widget values are parameters of `StartTrafficBoost`.
- The signal/slot connections (traffic.py:153-154) and the `QThread` start are not modelled. `Run` returns what `run()` emits; how those events reach the display and progress bar is not modelled. `StartTrafficBoost` records the started worker.
- Booster.TrafficBooster.StartTrafficBoost: the display after a valid start is `[]`, but the program also shows the timestamped start message there through its logging handler (traffic.py:10-17, 122-131, 150). The handler, the log file and the clock are I/O and are not modelled.
- `requests.get` and the network (traffic.py:46) are a foreign call. Each task's answer is an `Outcome` parameter. `Outcome.Success` carries a non-negative status code and a string reason; a `None` reason (printed as "None") is not distinguished.
- The thread pool (traffic.py:32): concurrency and the `max_workers` bound are enforced by the library. `numThreads` is kept in the configuration but bounds nothing in the model. `future.result()` is modelled as the value its task returns.
- Worker.Run: requires `numThreads >= 1`. With `max_workers=0`, `ThreadPoolExecutor` raises `ValueError` before any task is submitted, so nothing is emitted. The model does not cover that case. The thread slider's minimum is 1 (traffic.py:81), so the window never builds such a worker (traffic.py:136, 152); `StartTrafficBoost` requires its inputs to lie within the widgets' ranges.
- The order in which the pool actually sends the requests is not modelled. `sent` lists each task's request by task number.
- `time.sleep` (traffic.py:47) is modelled only as the duration slept, not as time passing.
- Worker.Progress: models `int((i + 1) / N * 100)` as the exact `floor((i + 1) * 100 / N)`. Python's float arithmetic can give one less (for `N = 100`, `29 / 100 * 100` is `28.999…`, shown as 28), so the model can differ from the program by one point there.
- Booster.DelaySeconds: the conversion is exact on reals, not rounded to a binary float as in Python.
- `str(e)` of an arbitrary exception is the `message` of a `Failure`. Only the `time.sleep` message for a negative delay is spelled out.
