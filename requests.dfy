/**
 One request of the burst (`RequestWorker.send_request`): which proxy it goes
 through, the GET it issues, and the single log line it returns whatever the
 network answered. The network itself is not modelled: its answer to the
 request is the `Outcome` given to `SendRequest`.
 */
module Requests {
  import opened Wrappers
  import opened Text
  import opened Arith

  /** The client-identification header sent with every request. */
  const UserAgent: string :=
    "Mozilla/5.0 (Windows NT 10.0; Win64; x64) AppleWebKit/537.36 (KHTML, like Gecko) Chrome/58.0.3029.110 Safari/537.3"

  /** The `proxies=` mapping handed to the HTTP client. */
  datatype ProxyConfig = ProxyConfig(http: string, https: string)

  /** The GET request issued for one task. */
  datatype HttpRequest = HttpRequest(url: string, userAgent: string, proxy: Option<ProxyConfig>)

  /**
   What the network did with a request: a response with its status code and
   reason phrase, or an exception with its message.
   */
  datatype Outcome = Success(code: nat, reason: string) | Failure(message: string)

  /** What a log line says: the request number and the outcome it reports. */
  datatype LogLine = LogLine(number: nat, outcome: Outcome)

  /** The three effects of one call: the request sent, the time slept, the line returned. */
  datatype Attempt = Attempt(request: HttpRequest, slept: real, line: string)

  const RequestLabel: string := " Запрос: "
  const ErrorLabel: string := "Ошибка "

  /** The message of the ValueError that `time.sleep` raises for a negative duration. */
  const NegativeSleepMessage: string := "sleep length must be non-negative"

  /**
   The proxy for request number `n`: entry `n % L` of a non-empty list of
   length `L`, for both schemes; no proxy when the list is absent or empty.
   */
  function SelectProxy(proxies: Option<seq<string>>, n: nat): (r: Option<ProxyConfig>)
    ensures r.None? <==> proxies.None? || proxies.value == []
    ensures r.Some? ==> r.value.http == r.value.https
    ensures r.Some? ==> r.value.http == proxies.value[n % |proxies.value|]
  {
    if proxies.Some? && proxies.value != [] then
      var p := proxies.value[n % |proxies.value|];
      Some(ProxyConfig(p, p))
    else
      None
  }

  /** Request numbers `L` apart go through the same proxy. */
  lemma RotationPeriodic(proxies: seq<string>, n: nat)
    requires proxies != []
    ensures SelectProxy(Some(proxies), n + |proxies|) == SelectProxy(Some(proxies), n)
  {
    var L := |proxies|;
    ModOfSplit(n + L, L, n / L + 1, n % L);
  }

  /**
   The rotation starts at the second entry: request 1 uses entry 1 (for two
   or more proxies), request `L` uses entry 0, so three requests over
   `["p1", "p2"]` go through p2, p1, p2.
   */
  lemma RotationStartsAtSecondEntry(proxies: seq<string>)
    requires |proxies| >= 2
    ensures SelectProxy(Some(proxies), 1) == Some(ProxyConfig(proxies[1], proxies[1]))
    ensures SelectProxy(Some(proxies), |proxies|) == Some(ProxyConfig(proxies[0], proxies[0]))
    ensures SelectProxy(Some(proxies), |proxies| + 1) == SelectProxy(Some(proxies), 1)
  {
  }

  /** Among any `L` consecutive request numbers, some request picks entry `i` of the list. */
  lemma RotationReaches(proxies: seq<string>, start: nat, i: nat)
    requires i < |proxies|
    ensures exists n :: start <= n < start + |proxies| && SelectProxy(Some(proxies), n) == Some(ProxyConfig(proxies[i], proxies[i]))
  {
    var L := |proxies|;
    var q, r := start / L, start % L;
    if r <= i {
      var n := start + (i - r);
      assert n == q * L + i;
      ModOfSplit(n, L, q, i);
      assert SelectProxy(Some(proxies), n) == Some(ProxyConfig(proxies[i], proxies[i]));
    } else {
      var n := start + (L - r + i);
      assert n == (q + 1) * L + i;
      ModOfSplit(n, L, q + 1, i);
      assert SelectProxy(Some(proxies), n) == Some(ProxyConfig(proxies[i], proxies[i]));
    }
  }

  /**
   Two different requests less than `L` apart pick different entries of the
   list, so within `L` consecutive requests each entry is picked exactly once.
   */
  lemma RotationDistinct(L: nat, n: nat, m: nat)
    requires n < m < n + L
    ensures n % L != m % L
  {
    var d := m - n;
    if n % L + d < L {
      ModOfSplit(m, L, n / L, n % L + d);
    } else {
      ModOfSplit(m, L, n / L + 1, n % L + d - L);
    }
  }

  /**
   The text of an outcome after the request number: `<code> <reason>` or
   `Ошибка <msg>`. An error text is told apart from a response text by its
   label, and each gives back its parts.
   */
  function OutcomeText(o: Outcome): (r: string)
    ensures o.Failure? ==> StartsWith(r, ErrorLabel) && r[|ErrorLabel|..] == o.message
    ensures o.Success? ==>
      var c := DigitPrefix(r);
      && !StartsWith(r, ErrorLabel) && 0 < c < |r| && r[c] == ' '
      && ParseDigits(r[..c]) == o.code && r[c + 1..] == o.reason
  {
    match o
    case Success(code, reason) =>
      ParseSuccessText(code, reason);
      NatToString(code) + " " + reason
    case Failure(message) =>
      assert (ErrorLabel + message)[..|ErrorLabel|] == ErrorLabel;
      ErrorLabel + message
  }

  /** `<code> <reason>` splits back at the first non-digit into the code and the reason. */
  lemma {:induction false} ParseSuccessText(code: nat, reason: string)
    ensures var r := NatToString(code) + " " + reason;
      var c := DigitPrefix(r);
      && !StartsWith(r, ErrorLabel) && 0 < c < |r| && r[c] == ' '
      && ParseDigits(r[..c]) == code && r[c + 1..] == reason
  {
    var cs := NatToString(code);
    var r := cs + " " + reason;
    assert r == cs + (" " + reason);
    assert !IsDigit(ErrorLabel[0]);
    assert r[0] == cs[0];
    DigitPrefixOfConcat(cs, " " + reason);
    assert r[..|cs|] == cs && r[|cs| + 1..] == reason;
    ParseNatToString(code);
  }

  /**
   The line returned for request number `n`: `<n> Запрос: ` followed by the
   outcome's text. It carries the number and the whole outcome without
   ambiguity: the line reads back into exactly what produced it.
   */
  function FormatLine(n: nat, o: Outcome): (r: string)
    ensures ParseLine(r) == Some(LogLine(n, o))
  {
    ParseLineParts(n, OutcomeText(o));
    NatToString(n) + RequestLabel + OutcomeText(o)
  }

  /** Reads a log line back into the request number and the outcome it reports. */
  function ParseLine(s: string): Option<LogLine> {
    var d := DigitPrefix(s);
    var rest := s[d..];
    if d == 0 || !StartsWith(rest, RequestLabel) then None
    else
      var n := ParseDigits(s[..d]);
      var body := rest[|RequestLabel|..];
      if StartsWith(body, ErrorLabel) then Some(LogLine(n, Failure(body[|ErrorLabel|..])))
      else
        var c := DigitPrefix(body);
        if c == 0 || c == |body| || body[c] != ' ' then None
        else Some(LogLine(n, Success(ParseDigits(body[..c]), body[c + 1..])))
  }

  /** A line is the request number's digits, then the label, then the outcome's text. */
  lemma {:induction false} ParseLineParts(n: nat, body: string)
    ensures var s := NatToString(n) + RequestLabel + body;
      var d := DigitPrefix(s);
      d == |NatToString(n)| && ParseDigits(s[..d]) == n
      && StartsWith(s[d..], RequestLabel) && s[d..][|RequestLabel|..] == body
  {
    var digits, tail := NatToString(n), RequestLabel + body;
    var s := NatToString(n) + RequestLabel + body;
    assert s == digits + tail;
    DigitPrefixOfConcat(digits, tail);
    assert s[..|digits|] == digits && s[|digits|..] == tail;
    ParseNatToString(n);
    assert tail[..|RequestLabel|] == RequestLabel && tail[|RequestLabel|..] == body;
  }

  /**
   What the `try` block ends with: the network's answer, unless it was a
   response and the following `time.sleep(delay)` raised for a negative delay.
   */
  function Settle(answer: Outcome, delay: real): (o: Outcome)
    ensures delay >= 0.0 ==> o == answer
    ensures answer.Success? && delay < 0.0 ==> o == Failure(NegativeSleepMessage)
    ensures answer.Failure? ==> o == answer
    ensures o.Success? ==> o == answer
  {
    if answer.Success? && delay < 0.0 then Failure(NegativeSleepMessage) else answer
  }

  /**
   `send_request(url, n, delay, proxies)` when the network answers the GET
   with `answer`: the request goes through the rotated proxy with the fixed
   User-Agent, the worker sleeps only when a response came and the sleep did
   not raise, and exactly one line is returned, never an exception.
   */
  function SendRequest(url: string, n: nat, delay: real, proxies: Option<seq<string>>, answer: Outcome): (a: Attempt)
    ensures a.request == HttpRequest(url, UserAgent, SelectProxy(proxies, n))
    ensures a.slept == (if Settle(answer, delay).Success? then delay else 0.0)
    ensures a.line == FormatLine(n, Settle(answer, delay))
    ensures ParseLine(a.line) == Some(LogLine(n, Settle(answer, delay)))
  {
    Attempt(HttpRequest(url, UserAgent, SelectProxy(proxies, n)),
            if Settle(answer, delay).Success? then delay else 0.0,
            FormatLine(n, Settle(answer, delay)))
  }
}
