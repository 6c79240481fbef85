/**
 One burst (`RequestWorker.run`): `N` tasks numbered 1..N are submitted in
 order, then their results are taken back in that same order, and after each
 one the line and the progress percentage are emitted.
 */
module Worker {
  import opened Wrappers
  import opened Requests
  import opened Arith

  /**
   The worker's configuration, fixed when it is built. `numThreads` bounds the
   thread pool only; `delay` is in seconds.
   */
  datatype RequestWorker = RequestWorker(
    url: string,
    numRequests: nat,
    numThreads: nat,
    delay: real,
    proxies: Option<seq<string>>)

  /** The request numbers handed to the pool, in submission order: `i + 1` for `i` in `range(n)`. */
  function TaskNumbers(n: nat): (r: seq<nat>)
    ensures |r| == n
    ensures forall i :: 0 <= i < n ==> 1 <= r[i] <= n
    ensures forall i, j :: 0 <= i < j < n ==> r[i] < r[j]
  {
    if n == 0 then [] else TaskNumbers(n - 1) + [n]
  }

  /** Task `i` of the list is request number `i + 1`. */
  lemma {:induction false} TaskNumbersExact(n: nat, i: nat)
    requires i < n
    ensures TaskNumbers(n)[i] == i + 1
  {
    if i < n - 1 {
      TaskNumbersExact(n - 1, i);
    }
  }

  /** Every request number from 1 to `n` is submitted (exactly once, as the numbers increase). */
  lemma TaskNumbersCover(n: nat, k: nat)
    requires 1 <= k <= n
    ensures k in TaskNumbers(n)
  {
  }

  /**
   The percentage shown after the `done`-th of `total` results,
   `int(done / total * 100)` taken exactly.
   */
  function Progress(done: nat, total: nat): (p: nat)
    requires 0 < total && done <= total
    ensures p <= 100
    ensures p == 100 <==> done == total
  {
    done * 100 / total
  }

  /** The percentage never goes down as more results come in. */
  lemma ProgressMonotone(a: nat, b: nat, total: nat)
    requires 0 < total && a <= b <= total
    ensures Progress(a, total) <= Progress(b, total)
  {
    var pa := a * 100 / total;
    DivAtLeast(a * 100, total, pa);
    DivAtLeast(b * 100, total, pa);
  }

  /** For a fixed total, more results never give a smaller percentage. */
  lemma ProgressMonotoneAll(total: nat)
    ensures forall a, b :: 0 <= a <= b <= total && 0 < total ==> Progress(a, total) <= Progress(b, total)
  {
    forall a, b | 0 <= a <= b <= total && 0 < total
      ensures Progress(a, total) <= Progress(b, total)
    {
      ProgressMonotone(a, b, total);
    }
  }

  /**
   The percentages `run()` emits for `total` tasks, the `j`-th after the
   `j + 1`-th result: each within 0..100, never going down, the last one
   exactly 100.
   */
  function Percents(total: nat): (r: seq<nat>)
    ensures |r| == total
    ensures forall j :: 0 <= j < total ==> r[j] == Progress(j + 1, total)
    ensures forall j :: 0 <= j < total ==> r[j] <= 100
    ensures forall j, k :: 0 <= j <= k < total ==> r[j] <= r[k]
    ensures total > 0 ==> r[total - 1] == 100
  {
    ProgressMonotoneAll(total);
    ProgressValues(total)
  }

  /**
   `Progress(j + 1, total)` for each result `j`: the same sequence as
   `Percents`, without its contract, so that `Run`'s loop can refer to it cheaply.
   */
  function ProgressValues(total: nat): seq<nat> {
    seq(total, j requires 0 <= j < total => Progress(j + 1, total))
  }

  /**
   What each task of the burst returns, task `j + 1` at index `j`: its line
   reads back to request number `j + 1` and that task's settled outcome, and
   its request goes to the URL through the rotation's proxy for `j + 1`.
   */
  function Attempts(w: RequestWorker, outcomes: seq<Outcome>): (r: seq<Attempt>)
    requires |outcomes| == w.numRequests
    ensures |r| == w.numRequests
    ensures forall j :: 0 <= j < |r| ==> r[j].line == FormatLine(j + 1, Settle(outcomes[j], w.delay))
    ensures forall j :: 0 <= j < |r| ==> ParseLine(r[j].line) == Some(LogLine(j + 1, Settle(outcomes[j], w.delay)))
    ensures forall j :: 0 <= j < |r| ==> r[j].request == HttpRequest(w.url, UserAgent, SelectProxy(w.proxies, j + 1))
  {
    var r := TaskResults(w, outcomes);
    TaskResultsRead(w, outcomes);
    r
  }

  /**
   `send_request` applied to each submitted task, task `j + 1` at index `j`:
   the same sequence as `Attempts`, without its contract, so that `Run`'s loop
   can refer to it cheaply.
   */
  function TaskResults(w: RequestWorker, outcomes: seq<Outcome>): seq<Attempt>
    requires |outcomes| == w.numRequests
  {
    seq(w.numRequests, j requires 0 <= j < w.numRequests => SendRequest(w.url, j + 1, w.delay, w.proxies, outcomes[j]))
  }

  lemma TaskResultsRead(w: RequestWorker, outcomes: seq<Outcome>)
    requires |outcomes| == w.numRequests
    ensures var r := TaskResults(w, outcomes);
      && |r| == w.numRequests
      && (forall j :: 0 <= j < |r| ==> r[j].line == FormatLine(j + 1, Settle(outcomes[j], w.delay)))
      && (forall j :: 0 <= j < |r| ==> ParseLine(r[j].line) == Some(LogLine(j + 1, Settle(outcomes[j], w.delay))))
      && (forall j :: 0 <= j < |r| ==> r[j].request == HttpRequest(w.url, UserAgent, SelectProxy(w.proxies, j + 1)))
  {
    forall j | 0 <= j < w.numRequests {
      TaskResultAt(w, outcomes, j);
    }
  }

  lemma TaskResultAt(w: RequestWorker, outcomes: seq<Outcome>, j: nat)
    requires |outcomes| == w.numRequests && j < w.numRequests
    ensures TaskResults(w, outcomes)[j].line == FormatLine(j + 1, Settle(outcomes[j], w.delay))
    ensures ParseLine(TaskResults(w, outcomes)[j].line) == Some(LogLine(j + 1, Settle(outcomes[j], w.delay)))
    ensures TaskResults(w, outcomes)[j].request == HttpRequest(w.url, UserAgent, SelectProxy(w.proxies, j + 1))
  {
    var a := SendRequest(w.url, j + 1, w.delay, w.proxies, outcomes[j]);
    assert TaskResults(w, outcomes)[j] == a;
  }

  lemma TaskResultsAreAttempts(w: RequestWorker, outcomes: seq<Outcome>)
    requires |outcomes| == w.numRequests
    ensures Attempts(w, outcomes) == TaskResults(w, outcomes)
  {
  }

  /**
   `run()` given the network's answer `outcomes[j]` to task `j + 1`: returns
   the lines and the percentages emitted, in emission order, and at index `j`
   the request of task `j + 1` (the order in which the pool sends them is not
   modelled). The `j`-th line reports task `j + 1`, whatever order the
   tasks finished in; every task's failure is contained in its own line. The
   pool needs at least one thread (`ThreadPoolExecutor` refuses zero).
   */
  method Run(w: RequestWorker, outcomes: seq<Outcome>) returns (log: seq<string>, progress: seq<nat>, sent: seq<HttpRequest>)
    requires w.numThreads >= 1
    requires |outcomes| == w.numRequests
    ensures |log| == w.numRequests && |sent| == w.numRequests
    ensures forall j :: 0 <= j < |log| ==> log[j] == Attempts(w, outcomes)[j].line
    ensures forall j :: 0 <= j < |sent| ==> sent[j] == Attempts(w, outcomes)[j].request
    ensures progress == Percents(w.numRequests)
  {
    var futures := TaskNumbers(w.numRequests);
    ghost var expected, percents := TaskResults(w, outcomes), ProgressValues(w.numRequests);
    log, progress, sent := [], [], [];
    for i := 0 to |futures|
      invariant |log| == i && |sent| == i
      invariant forall j :: 0 <= j < i ==> log[j] == expected[j].line && sent[j] == expected[j].request
      invariant progress == percents[..i]
    {
      TaskNumbersExact(w.numRequests, i);
      var result := SendRequest(w.url, futures[i], w.delay, w.proxies, outcomes[i]);
      assert result == expected[i];
      log := log + [result.line];
      progress := progress + [Progress(i + 1, w.numRequests)];
      sent := sent + [result.request];
    }
    TaskResultsAreAttempts(w, outcomes);
    assert percents == Percents(w.numRequests);
  }
}
