/**
 The window's start action (`TrafficBooster.start_traffic_boost`): read the
 inputs, reset the display, turn the proxy field into a list, reject a URL
 without an HTTP scheme, and otherwise build and start one worker.
 */
module Booster {
  import opened Wrappers
  import opened Text
  import opened Requests
  import opened Worker

  const InvalidUrlMessage: string :=
    "Некорректный URL. Пожалуйста, введите URL, начинающийся с http:// или https://"

  /** The URL check: the URL is `http://` or `https://` followed by anything. */
  predicate ValidUrl(url: string): (ok: bool)
    ensures ok <==> exists rest :: url == "http://" + rest || url == "https://" + rest
  {
    StartsWith(url, "http://") || StartsWith(url, "https://")
  }

  /** An `ftp://` target is refused. */
  lemma FtpRejected()
    ensures !ValidUrl("ftp://example.com")
  {
    assert "ftp://example.com"[0] != "http://"[0];
  }

  /**
   The proxy field: an empty text gives no list; otherwise the text split on
   commas, in order, one more piece than there are commas, joinable back.
   */
  function ParseProxies(text: string): (r: Option<seq<string>>)
    ensures r.None? <==> text == ""
    ensures r.Some? ==> |r.value| == Count(text, ',') + 1
    ensures r.Some? ==> Join(r.value, ',') == text
    ensures r.Some? ==> forall i :: 0 <= i < |r.value| ==> ',' !in r.value[i]
  {
    if text == "" then None
    else
      JoinSplit(text, ',');
      Some(Split(text, ','))
  }

  /**
   With proxies read from the field, a request goes through a proxy exactly
   when the field is not empty; a field without commas is the one proxy of
   every request.
   */
  lemma ProxyFieldDecides(text: string, n: nat)
    ensures SelectProxy(ParseProxies(text), n).Some? <==> text != ""
    ensures text != "" && ',' !in text ==> SelectProxy(ParseProxies(text), n) == Some(ProxyConfig(text, text))
  {
  }

  /** The delay spin box is in milliseconds; the worker sleeps in seconds. */
  function DelaySeconds(ms: nat): (s: real)
    ensures s >= 0.0
    ensures s * 1000.0 == ms as real
  {
    ms as real / 1000.0
  }

  /**
   The window's state that the start action touches: the lines shown, the
   progress bar's value, the current worker, and every worker started so far.
   */
  class TrafficBooster {
    var resultDisplay: seq<string>
    var progressBar: int
    var worker: Option<RequestWorker>
    var started: seq<RequestWorker>

    constructor ()
      ensures resultDisplay == [] && progressBar == 0 && worker == None && started == []
    {
      resultDisplay := [];
      progressBar := 0;
      worker := None;
      started := [];
    }

    /**
     `start_traffic_boost()` with the widgets' current values. The display and
     progress bar are reset first; an invalid URL then leaves only the error
     message and builds and starts no worker; a valid one builds the worker
     from the inputs and starts it. The counts and the delay are within the
     ranges the window's sliders and spin box allow.
     */
    method StartTrafficBoost(url: string, numRequests: nat, numThreads: nat, delayMs: nat, proxyText: string)
      requires 1 <= numRequests <= 1000000
      requires 1 <= numThreads <= 100
      requires delayMs <= 10000
      modifies this
      ensures progressBar == 0
      ensures !ValidUrl(url) ==>
        resultDisplay == [InvalidUrlMessage] && worker == old(worker) && started == old(started)
      ensures ValidUrl(url) ==>
        && resultDisplay == []
        && worker == Some(RequestWorker(url, numRequests, numThreads, DelaySeconds(delayMs), ParseProxies(proxyText)))
        && started == old(started) + [worker.value]
    {
      var delay := DelaySeconds(delayMs);
      resultDisplay := [];
      progressBar := 0;

      var proxies: Option<seq<string>> := None;
      if proxyText != "" {
        proxies := ParseProxies(proxyText);
      }

      if !ValidUrl(url) {
        resultDisplay := resultDisplay + [InvalidUrlMessage];
        return;
      }

      var w := RequestWorker(url, numRequests, numThreads, delay, proxies);
      worker := Some(w);
      started := started + [w];
    }
  }
}
