/** The fixed-window rate limits of src/api-access-control.ts. */
module ApiAccess {
  import opened Wrappers

  datatype RateWindow = RateWindow(start: int, count: nat)

  /** A checked request: its key in the rate table and the time of the check. */
  datatype Check = Check(key: string, now: int)

  // ---------------------------------------------------------------- keys and windows

  function RateKey(apiKey: string, category: string): string { apiKey + "\0" + category }

  /** No two pairs share a window: the categories hold no NUL, so the last NUL separates the parts. */
  lemma {:induction false} RateKeysDiffer(a: string, b: string, c: string, d: string)
    requires RateKey(a, b) == RateKey(c, d) && '\0' !in b && '\0' !in d
    ensures a == c && b == d
  {
    var k := RateKey(a, b);
    assert k[|a|] == '\0' && k == RateKey(c, d) && k[|c|] == '\0';
    assert forall i :: |a| < i < |k| ==> k[i] == b[i - |a| - 1] && k[i] in b;
    assert forall i :: |c| < i < |k| ==> RateKey(c, d)[i] == d[i - |c| - 1] && k[i] in d;
    assert |a| == |c|;
    assert k[..|a|] == a && RateKey(c, d)[..|c|] == c;
    assert k[|a| + 1..] == b && RateKey(c, d)[|c| + 1..] == d;
  }

  /** `Math.floor(now / windowMs) * windowMs`. */
  function WindowStart(now: int, windowMs: nat): int
    requires windowMs > 0
  {
    now / windowMs * windowMs
  }

  lemma WindowsInOrder(a: int, b: int, windowMs: nat)
    requires windowMs > 0 && a <= b
    ensures WindowStart(a, windowMs) <= WindowStart(b, windowMs)
  {
    var p, q := a / windowMs, b / windowMs;
    if q < p {
      assert (q + 1) * windowMs <= p * windowMs;
    }
  }

  /** `Math.max(1, Math.ceil(ms / 1000))`. */
  function DelaySeconds(ms: int): (r: int)
    ensures r >= 1 && 1000 * r >= ms
    ensures forall s: int :: s >= 1 && 1000 * s >= ms ==> r <= s
  {
    var whole := (ms + 999) / 1000;
    if whole < 1 then 1 else whole
  }

  // ---------------------------------------------------------------- a window against its history

  /** The earlier checks under `key` in the window that starts at `start`. */
  function Earlier(history: seq<Check>, key: string, start: int, windowMs: nat): nat
    requires windowMs > 0
  {
    if history == [] then 0
    else
      var last := history[|history| - 1];
      Earlier(history[..|history| - 1], key, start, windowMs)
      + (if last.key == key && WindowStart(last.now, windowMs) == start then 1 else 0)
  }

  ghost predicate InOrder(history: seq<Check>, now: int) {
    && (forall i, j :: 0 <= i <= j < |history| ==> history[i].now <= history[j].now)
    && forall c <- history :: c.now <= now
  }

  /** The table entry of a key: the window of its last check, with the number of checks in it. */
  ghost predicate Agrees(rates: map<string, RateWindow>, history: seq<Check>, key: string, windowMs: nat)
    requires windowMs > 0
  {
    && (key !in rates ==> forall c <- history :: c.key != key)
    && (key in rates ==>
          && rates[key].count == Earlier(history, key, rates[key].start, windowMs)
          && (forall c <- history :: c.key == key ==> WindowStart(c.now, windowMs) <= rates[key].start)
          && exists c <- history :: c.key == key && WindowStart(c.now, windowMs) == rates[key].start)
  }

  lemma {:induction false} NoneEarlier(history: seq<Check>, key: string, start: int, windowMs: nat)
    requires windowMs > 0 && forall c <- history :: c.key == key ==> WindowStart(c.now, windowMs) < start
    ensures Earlier(history, key, start, windowMs) == 0
  {
    hide WindowStart;
    if history != [] {
      assert history[|history| - 1] in history;
      NoneEarlier(history[..|history| - 1], key, start, windowMs);
    }
  }

  /** The window that `consumeRate` moves to. */
  function NextWindow(rates: map<string, RateWindow>, key: string, start: int): RateWindow {
    if key in rates && rates[key].start == start then RateWindow(start, rates[key].count + 1) else RateWindow(start, 1)
  }

  /** One check keeps the table in agreement, and its count is that of the checks in the window so far. */
  lemma CheckKeepsAgreement(rates: map<string, RateWindow>, history: seq<Check>, key: string, now: int, windowMs: nat)
    requires windowMs > 0 && InOrder(history, now) && Agrees(rates, history, key, windowMs)
    ensures var start := WindowStart(now, windowMs);
            var next := NextWindow(rates, key, start);
            && next.count == Earlier(history, key, start, windowMs) + 1
            && Agrees(rates[key := next], history + [Check(key, now)], key, windowMs)
  {
    var start := WindowStart(now, windowMs);
    forall c <- history ensures WindowStart(c.now, windowMs) <= start {
      WindowsInOrder(c.now, now, windowMs);
    }
    hide WindowStart;
    if key !in rates || rates[key].start != start {
      NoneEarlier(history, key, start, windowMs);
    }
    var more := history + [Check(key, now)];
    assert more[..|history|] == history && more[|history|] == Check(key, now);
    assert Check(key, now) in more;
  }

  lemma OtherKeysAgree(rates: map<string, RateWindow>, history: seq<Check>, key: string, other: string, now: int, windowMs: nat,
                       w: RateWindow)
    requires windowMs > 0 && other != key && Agrees(rates, history, other, windowMs)
    ensures Agrees(rates[key := w], history + [Check(key, now)], other, windowMs)
  {
    hide WindowStart;
    var more := history + [Check(key, now)];
    assert forall start :: Earlier(more, other, start, windowMs) == Earlier(history, other, start, windowMs) by {
      assert more[..|history|] == history && more[|history|] == Check(key, now);
    }
    if c :| other in rates && c in history && c.key == other && WindowStart(c.now, windowMs) == rates[other].start {
      assert c in more;
    }
  }

  // ---------------------------------------------------------------- the bound

  /** The checks of a run under `key` in the window at `start` that pass with `maximum` allowed. */
  function Passed(history: seq<Check>, key: string, start: int, windowMs: nat, maximum: nat): nat
    requires windowMs > 0
  {
    if history == [] then 0
    else
      var front, last := history[..|history| - 1], history[|history| - 1];
      Passed(front, key, start, windowMs, maximum)
      + (if last.key == key && WindowStart(last.now, windowMs) == start
            && Earlier(front, key, start, windowMs) + 1 <= maximum then 1 else 0)
  }

  /** In every window the first `maximum` checks pass and no others. */
  lemma {:induction false} PassedIsBounded(history: seq<Check>, key: string, start: int, windowMs: nat, maximum: nat)
    requires windowMs > 0
    ensures Passed(history, key, start, windowMs, maximum)
            == if Earlier(history, key, start, windowMs) <= maximum then Earlier(history, key, start, windowMs) else maximum
  {
    hide WindowStart;
    if history != [] {
      PassedIsBounded(history[..|history| - 1], key, start, windowMs, maximum);
    }
  }

  // ---------------------------------------------------------------- the controller

  const MINUTE := 60_000
  const HOUR := 3_600_000

  datatype Usage = Usage(requestCount: nat, diagnosticProbeCount: nat, webhookTestCount: nat)

  /** One more check under the key is one too many for its window. */
  predicate Over(history: seq<Check>, key: string, windowMs: nat, maximum: nat, now: int)
    requires windowMs > 0
  {
    Earlier(history, key, WindowStart(now, windowMs), windowMs) + 1 > maximum
  }

  /** What the table says of one more check: `Over`, if the table agrees with the history. */
  predicate TooMany(rates: map<string, RateWindow>, key: string, windowMs: nat, maximum: nat, now: int)
    requires windowMs > 0
  {
    NextWindow(rates, key, WindowStart(now, windowMs)).count > maximum
  }

  lemma OtherWindowIsIgnored(rates: map<string, RateWindow>, other: string, w: RateWindow, key: string, windowMs: nat, maximum: nat,
                             now: int)
    requires windowMs > 0 && other != key
    ensures TooMany(rates[other := w], key, windowMs, maximum, now) == TooMany(rates, key, windowMs, maximum, now)
  {
  }

  /** When the table agrees with an ordered history, its verdict is that of the history. */
  lemma TooManyIsOver(rates: map<string, RateWindow>, history: seq<Check>, apiKey: string, category: string, windowMs: nat,
                      maximum: nat, now: int)
    requires KnownCategory(category, windowMs) && AllAgree(rates, history) && InOrder(history, now)
    ensures TooMany(rates, RateKey(apiKey, category), windowMs, maximum, now)
            == Over(history, RateKey(apiKey, category), windowMs, maximum, now)
  {
    hide Agrees, NextWindow, WindowStart, Earlier, RateKey, InOrder;
    CheckKeepsAgreement(rates, history, RateKey(apiKey, category), now, windowMs);
  }

  function WindowEnd(now: int, windowMs: nat): int
    requires windowMs > 0
  {
    WindowStart(now, windowMs) + windowMs
  }

  function Max(values: seq<int>): int
    requires values != []
  {
    if |values| == 1 then values[0]
    else
      var rest := Max(values[1..]);
      if values[0] > rest then values[0] else rest
  }

  lemma {:induction false} MaxIsGreatest(values: seq<int>)
    requires values != []
    ensures Max(values) in values && forall v <- values :: v <= Max(values)
  {
    if |values| > 1 {
      MaxIsGreatest(values[1..]);
      assert values == [values[0]] + values[1..];
    }
  }

  function Delays(over: bool, windowMs: nat, now: int): seq<int>
    requires windowMs > 0
  {
    if over then [DelaySeconds(WindowEnd(now, windowMs) - now)] else []
  }

  /** The greatest delay of the exceeded windows is the least one that outlasts them all. */
  lemma LeastDelay(minute: bool, probe: bool, webhook: bool, now: int)
    ensures var exceeded := Delays(minute, MINUTE, now) + Delays(probe, HOUR, now) + Delays(webhook, HOUR, now);
            var hour := probe || webhook;
            && (exceeded != [] <==> minute || hour)
            && (exceeded != [] ==>
                  && Max(exceeded) >= 1
                  && (minute ==> now + 1000 * Max(exceeded) >= WindowEnd(now, MINUTE))
                  && (hour ==> now + 1000 * Max(exceeded) >= WindowEnd(now, HOUR))
                  && forall s: int :: (s >= 1 && (minute ==> now + 1000 * s >= WindowEnd(now, MINUTE))
                                       && (hour ==> now + 1000 * s >= WindowEnd(now, HOUR))) ==> Max(exceeded) <= s)
  {
    hide WindowEnd, DelaySeconds;
    var m, h := DelaySeconds(WindowEnd(now, MINUTE) - now), DelaySeconds(WindowEnd(now, HOUR) - now);
    var exceeded := Delays(minute, MINUTE, now) + Delays(probe, HOUR, now) + Delays(webhook, HOUR, now);
    assert forall v <- exceeded :: (minute && v == m) || ((probe || webhook) && v == h);
    assert minute ==> m in exceeded;
    assert probe || webhook ==> h in exceeded;
    if exceeded != [] {
      MaxIsGreatest(exceeded);
    }
  }

  /** The window length of every rate category. */
  predicate KnownCategory(category: string, windowMs: nat) {
    (category == "requests" && windowMs == MINUTE) || (category in ["diagnostics", "webhooks"] && windowMs == HOUR)
  }

  ghost predicate AllAgree(rates: map<string, RateWindow>, history: seq<Check>) {
    forall apiKey: string, category: string, windowMs: nat ::
      KnownCategory(category, windowMs) ==> Agrees(rates, history, RateKey(apiKey, category), windowMs)
  }

  lemma CheckKeepsAll(rates: map<string, RateWindow>, history: seq<Check>, apiKey: string, category: string, windowMs: nat, now: int)
    requires KnownCategory(category, windowMs) && InOrder(history, now) && AllAgree(rates, history)
    ensures var key := RateKey(apiKey, category);
            var next := NextWindow(rates, key, WindowStart(now, windowMs));
            && AllAgree(rates[key := next], history + [Check(key, now)])
            && InOrder(history + [Check(key, now)], now)
  {
    hide Agrees, NextWindow, WindowStart, Earlier, RateKey;
    var key := RateKey(apiKey, category);
    var next := NextWindow(rates, key, WindowStart(now, windowMs));
    var more := history + [Check(key, now)];
    CheckKeepsAgreement(rates, history, key, now, windowMs);
    forall a: string, c: string, w: nat | KnownCategory(c, w) ensures Agrees(rates[key := next], more, RateKey(a, c), w) {
      NoNulInCategories(c, w);
      NoNulInCategories(category, windowMs);
      if RateKey(a, c) == key {
        RateKeysDiffer(a, c, apiKey, category);
        assert w == windowMs;
      } else {
        OtherKeysAgree(rates, history, key, RateKey(a, c), now, w, next);
      }
    }
  }

  lemma NoNulInCategories(category: string, windowMs: nat)
    requires KnownCategory(category, windowMs)
    ensures '\0' !in category
  {
  }

  lemma CategoryKeysDiffer(apiKey: string)
    ensures RateKey(apiKey, "requests") != RateKey(apiKey, "diagnostics")
    ensures RateKey(apiKey, "requests") != RateKey(apiKey, "webhooks")
    ensures RateKey(apiKey, "diagnostics") != RateKey(apiKey, "webhooks")
  {
    var a, b, c := "requests", "diagnostics", "webhooks";
    assert |RateKey(apiKey, a)| != |RateKey(apiKey, b)|;
    assert RateKey(apiKey, a)[|apiKey| + 1] == 'r' && RateKey(apiKey, c)[|apiKey| + 1] == 'w';
    assert RateKey(apiKey, b)[|apiKey| + 1] == 'd';
  }

  /** The request exceeds none of the limits that apply to it. */
  predicate WithinLimits(history: seq<Check>, apiKey: string, isDiagnosticProbe: bool, isWebhookTest: bool, now: int,
                         requests: nat, diagnostics: nat, webhooks: nat)
  {
    && !Over(history, RateKey(apiKey, "requests"), MINUTE, requests, now)
    && (isDiagnosticProbe ==> !Over(history, RateKey(apiKey, "diagnostics"), HOUR, diagnostics, now))
    && (isWebhookTest ==> !Over(history, RateKey(apiKey, "webhooks"), HOUR, webhooks, now))
  }

  class ApiAccessController {
    const requestsPerMinute: nat
    const diagnosticsPerHour: nat
    const webhookTestsPerHour: nat
    var rates: map<string, RateWindow>
    var usage: map<string, Usage>
    /** Every check made so far, in order. */
    ghost var checks: seq<Check>

    ghost predicate Valid()
      reads this
    {
      AllAgree(rates, checks)
    }

    constructor (requestsPerMinute: nat, diagnosticsPerHour: nat, webhookTestsPerHour: nat)
      ensures Valid() && checks == [] && usage == map[]
      ensures this.requestsPerMinute == requestsPerMinute && this.diagnosticsPerHour == diagnosticsPerHour
              && this.webhookTestsPerHour == webhookTestsPerHour
    {
      this.requestsPerMinute, this.diagnosticsPerHour := requestsPerMinute, diagnosticsPerHour;
      this.webhookTestsPerHour := webhookTestsPerHour;
      rates, usage, checks := map[], map[], [];
    }

    /** The table agrees with the history, and the clock has not gone back before `now`. */
    ghost predicate Orderly(now: int)
      reads this
    {
      Valid() && InOrder(checks, now)
    }

    /** `consumeRate`: count the check in its window, and report the window if it is over its limit. */
    method ConsumeRate(apiKey: string, category: string, windowMs: nat, maximum: nat, now: int, exceeded: seq<int>)
      returns (r: seq<int>)
      requires KnownCategory(category, windowMs)
      modifies this`rates, this`checks
      ensures var key := RateKey(apiKey, category);
              && rates == old(rates)[key := NextWindow(old(rates), key, WindowStart(now, windowMs))]
              && checks == old(checks) + [Check(key, now)]
      ensures r == if TooMany(old(rates), RateKey(apiKey, category), windowMs, maximum, now)
                   then exceeded + [DelaySeconds(WindowEnd(now, windowMs) - now)] else exceeded
      ensures old(Orderly(now)) ==> Orderly(now)
    {
      assert windowMs > 0;
      hide AllAgree, InOrder, KnownCategory, DelaySeconds;
      var start := WindowStart(now, windowMs);
      var key := RateKey(apiKey, category);
      if Orderly(now) {
        CheckKeepsAll(rates, checks, apiKey, category, windowMs, now);
      }
      var window := if key in rates && rates[key].start == start then rates[key] else RateWindow(start, 0);
      window := window.(count := window.count + 1);
      rates := rates[key := window];
      checks := checks + [Check(key, now)];
      r := if window.count > maximum then exceeded + [DelaySeconds(start + windowMs - now)] else exceeded;
    }

    /** The three calls of `consumeRate` in `checkAndRecord`: the delays of the exceeded windows. */
    method ConsumeRates(apiKey: string, isDiagnosticProbe: bool, isWebhookTest: bool, now: int) returns (exceeded: seq<int>)
      modifies this`rates, this`checks
      ensures old(Orderly(now)) ==> Orderly(now)
      ensures checks == old(checks) + [Check(RateKey(apiKey, "requests"), now)]
                        + (if isDiagnosticProbe then [Check(RateKey(apiKey, "diagnostics"), now)] else [])
                        + (if isWebhookTest then [Check(RateKey(apiKey, "webhooks"), now)] else [])
      ensures exceeded
              == Delays(TooMany(old(rates), RateKey(apiKey, "requests"), MINUTE, requestsPerMinute, now), MINUTE, now)
                 + Delays(isDiagnosticProbe && TooMany(old(rates), RateKey(apiKey, "diagnostics"), HOUR, diagnosticsPerHour, now),
                          HOUR, now)
                 + Delays(isWebhookTest && TooMany(old(rates), RateKey(apiKey, "webhooks"), HOUR, webhookTestsPerHour, now), HOUR, now)
    {
      hide Orderly, WindowStart, WindowEnd, RateKey, TooMany, DelaySeconds, NextWindow;
      CategoryKeysDiffer(apiKey);
      ghost var was := rates;
      ghost var request, probe := RateKey(apiKey, "requests"), RateKey(apiKey, "diagnostics");
      exceeded := ConsumeRate(apiKey, "requests", MINUTE, requestsPerMinute, now, []);
      OtherWindowIsIgnored(was, request, rates[request], probe, HOUR, diagnosticsPerHour, now);
      OtherWindowIsIgnored(was, request, rates[request], RateKey(apiKey, "webhooks"), HOUR, webhookTestsPerHour, now);
      ghost var once := rates;
      if isDiagnosticProbe {
        exceeded := ConsumeRate(apiKey, "diagnostics", HOUR, diagnosticsPerHour, now, exceeded);
        OtherWindowIsIgnored(once, probe, rates[probe], RateKey(apiKey, "webhooks"), HOUR, webhookTestsPerHour, now);
      }
      if isWebhookTest {
        exceeded := ConsumeRate(apiKey, "webhooks", HOUR, webhookTestsPerHour, now, exceeded);
      }
    }

    /**
     * `checkAndRecord`. The answer is `None` when no limit is exceeded, and otherwise the least whole
     * number of seconds, at least one, after which every exceeded window has ended. While the clock does
     * not go back, a limit is exceeded exactly when its window has already seen `maximum` such requests.
     */
    method CheckAndRecord(apiKey: string, isDiagnosticProbe: bool, isWebhookTest: bool, now: int) returns (retryAfter: Option<int>)
      modifies this
      ensures old(Orderly(now)) ==> Orderly(now)
      ensures old(Orderly(now)) ==>
                (retryAfter.None? <==> WithinLimits(old(checks), apiKey, isDiagnosticProbe, isWebhookTest, now,
                                                    requestsPerMinute, diagnosticsPerHour, webhookTestsPerHour))
      ensures checks == old(checks) + [Check(RateKey(apiKey, "requests"), now)]
                        + (if isDiagnosticProbe then [Check(RateKey(apiKey, "diagnostics"), now)] else [])
                        + (if isWebhookTest then [Check(RateKey(apiKey, "webhooks"), now)] else [])
      ensures var minute := TooMany(old(rates), RateKey(apiKey, "requests"), MINUTE, requestsPerMinute, now);
              var hour := (isDiagnosticProbe && TooMany(old(rates), RateKey(apiKey, "diagnostics"), HOUR, diagnosticsPerHour, now))
                          || (isWebhookTest && TooMany(old(rates), RateKey(apiKey, "webhooks"), HOUR, webhookTestsPerHour, now));
              && (retryAfter.Some? <==> minute || hour)
              && (retryAfter.Some? ==>
                    && retryAfter.value >= 1
                    && (minute ==> now + 1000 * retryAfter.value >= WindowEnd(now, MINUTE))
                    && (hour ==> now + 1000 * retryAfter.value >= WindowEnd(now, HOUR))
                    && forall s: int :: (s >= 1 && (minute ==> now + 1000 * s >= WindowEnd(now, MINUTE))
                                         && (hour ==> now + 1000 * s >= WindowEnd(now, HOUR))) ==> retryAfter.value <= s)
      ensures var was := if apiKey in old(usage) then old(usage)[apiKey] else Usage(0, 0, 0);
              usage == old(usage)[apiKey := Usage(was.requestCount + 1,
                                                  was.diagnosticProbeCount + (if isDiagnosticProbe then 1 else 0),
                                                  was.webhookTestCount + (if isWebhookTest then 1 else 0))]
    {
      hide AllAgree, InOrder, WindowEnd, RateKey, Over, TooMany, Delays;
      if Orderly(now) {
        TooManyIsOver(rates, checks, apiKey, "requests", MINUTE, requestsPerMinute, now);
        TooManyIsOver(rates, checks, apiKey, "diagnostics", HOUR, diagnosticsPerHour, now);
        TooManyIsOver(rates, checks, apiKey, "webhooks", HOUR, webhookTestsPerHour, now);
      }
      var current := if apiKey in usage then usage[apiKey] else Usage(0, 0, 0);
      current := current.(requestCount := current.requestCount + 1);
      if isDiagnosticProbe { current := current.(diagnosticProbeCount := current.diagnosticProbeCount + 1); }
      if isWebhookTest { current := current.(webhookTestCount := current.webhookTestCount + 1); }
      usage := usage[apiKey := current];
      ghost var minute := TooMany(rates, RateKey(apiKey, "requests"), MINUTE, requestsPerMinute, now);
      ghost var probe := isDiagnosticProbe && TooMany(rates, RateKey(apiKey, "diagnostics"), HOUR, diagnosticsPerHour, now);
      ghost var webhook := isWebhookTest && TooMany(rates, RateKey(apiKey, "webhooks"), HOUR, webhookTestsPerHour, now);
      var exceeded := ConsumeRates(apiKey, isDiagnosticProbe, isWebhookTest, now);
      LeastDelay(minute, probe, webhook, now);
      retryAfter := if |exceeded| > 0 then Some(Max(exceeded)) else None;
    }
  }

  // ---------------------------------------------------------------- runs of requests

  datatype Request = Request(apiKey: string, isDiagnosticProbe: bool, isWebhookTest: bool, now: int)

  predicate Applies(category: string, r: Request) {
    category == "requests" || (category == "diagnostics" && r.isDiagnosticProbe) || (category == "webhooks" && r.isWebhookTest)
  }

  /** The calls of the API key that count in the category's window at `start` and were let through. */
  function Admitted(requests: seq<Request>, replies: seq<Option<int>>, apiKey: string, category: string, windowMs: nat, start: int): nat
    requires windowMs > 0 && |replies| == |requests|
  {
    if requests == [] then 0
    else
      var n := |requests| - 1;
      var last := requests[n];
      Admitted(requests[..n], replies[..n], apiKey, category, windowMs, start)
      + (if last.apiKey == apiKey && Applies(category, last) && WindowStart(last.now, windowMs) == start && replies[n].None?
         then 1 else 0)
  }

  lemma OtherCheckDoesNotPass(history: seq<Check>, c: Check, key: string, start: int, windowMs: nat, maximum: nat)
    requires windowMs > 0 && c.key != key
    ensures Passed(history + [c], key, start, windowMs, maximum) == Passed(history, key, start, windowMs, maximum)
    ensures Earlier(history + [c], key, start, windowMs) == Earlier(history, key, start, windowMs)
  {
    assert (history + [c])[..|history|] == history;
  }

  lemma CheckPasses(history: seq<Check>, key: string, now: int, start: int, windowMs: nat, maximum: nat)
    requires windowMs > 0
    ensures Passed(history + [Check(key, now)], key, start, windowMs, maximum)
            == Passed(history, key, start, windowMs, maximum)
               + (if WindowStart(now, windowMs) == start && !Over(history, key, windowMs, maximum, now) then 1 else 0)
  {
    assert (history + [Check(key, now)])[..|history|] == history;
  }

  /** The checks that one request adds. */
  function ChecksOf(r: Request): seq<Check> {
    [Check(RateKey(r.apiKey, "requests"), r.now)]
    + (if r.isDiagnosticProbe then [Check(RateKey(r.apiKey, "diagnostics"), r.now)] else [])
    + (if r.isWebhookTest then [Check(RateKey(r.apiKey, "webhooks"), r.now)] else [])
  }

  /** All checks of one request bear different keys, and those of another API key or category are not among them. */
  lemma {:induction false} OthersDoNotPass(history: seq<Check>, more: seq<Check>, key: string, start: int, windowMs: nat, maximum: nat)
    requires windowMs > 0 && forall c <- more :: c.key != key
    ensures Passed(history + more, key, start, windowMs, maximum) == Passed(history, key, start, windowMs, maximum)
    ensures Earlier(history + more, key, start, windowMs) == Earlier(history, key, start, windowMs)
  {
    if more == [] {
      assert history + more == history;
    } else {
      var front, last := more[..|more| - 1], more[|more| - 1];
      assert last in more;
      OthersDoNotPass(history, front, key, start, windowMs, maximum);
      assert history + more == (history + front) + [last];
      OtherCheckDoesNotPass(history + front, last, key, start, windowMs, maximum);
    }
  }

  /** Where the check for a key stands among those of a request: only there. */
  lemma CheckStandsAlone(r: Request, category: string, windowMs: nat) returns (before: seq<Check>, after: seq<Check>)
    requires KnownCategory(category, windowMs) && Applies(category, r)
    ensures ChecksOf(r) == before + [Check(RateKey(r.apiKey, category), r.now)] + after
    ensures forall c <- before + after :: c.key != RateKey(r.apiKey, category)
  {
    CategoryKeysDiffer(r.apiKey);
    var first := [Check(RateKey(r.apiKey, "requests"), r.now)];
    var probe := if r.isDiagnosticProbe then [Check(RateKey(r.apiKey, "diagnostics"), r.now)] else [];
    var webhook := if r.isWebhookTest then [Check(RateKey(r.apiKey, "webhooks"), r.now)] else [];
    hide RateKey;
    if category == "requests" {
      before, after := [], probe + webhook;
    } else if category == "diagnostics" {
      before, after := first, webhook;
    } else {
      before, after := first + probe, [];
    }
  }

  lemma NoCheckForOthers(r: Request, apiKey: string, category: string, windowMs: nat)
    requires KnownCategory(category, windowMs) && (r.apiKey != apiKey || !Applies(category, r))
    ensures forall c <- ChecksOf(r) :: c.key != RateKey(apiKey, category)
  {
    forall c <- ChecksOf(r) ensures c.key != RateKey(apiKey, category) {
      var other :| other in ["requests", "diagnostics", "webhooks"] && Applies(other, r) && c.key == RateKey(r.apiKey, other);
      NoNulInCategories(category, windowMs);
      NoNulInCategories(other, if other == "requests" then MINUTE else HOUR);
      if c.key == RateKey(apiKey, category) {
        RateKeysDiffer(r.apiKey, other, apiKey, category);
      }
    }
  }

  /** A request that is let through passes in every window it counts in; any request leaves the others alone. */
  lemma RequestPasses(history: seq<Check>, r: Request, admitted: bool, apiKey: string, category: string, windowMs: nat,
                      start: int, maximum: nat)
    requires KnownCategory(category, windowMs) && windowMs > 0
    requires admitted && r.apiKey == apiKey && Applies(category, r) ==>
               !Over(history, RateKey(apiKey, category), windowMs, maximum, r.now)
    ensures Passed(history + ChecksOf(r), RateKey(apiKey, category), start, windowMs, maximum)
            >= Passed(history, RateKey(apiKey, category), start, windowMs, maximum)
               + (if r.apiKey == apiKey && Applies(category, r) && WindowStart(r.now, windowMs) == start && admitted then 1 else 0)
  {
    hide RateKey, WindowStart, Passed, Earlier, ChecksOf, KnownCategory;
    var key := RateKey(apiKey, category);
    if r.apiKey == apiKey && Applies(category, r) {
      var before, after := CheckStandsAlone(r, category, windowMs);
      var c := Check(key, r.now);
      OthersDoNotPass(history, before, key, WindowStart(r.now, windowMs), windowMs, maximum);
      OthersDoNotPass(history, before, key, start, windowMs, maximum);
      CheckPasses(history + before, key, r.now, start, windowMs, maximum);
      OthersDoNotPass(history + before + [c], after, key, start, windowMs, maximum);
      assert history + ChecksOf(r) == history + before + [c] + after;
    } else {
      NoCheckForOthers(r, apiKey, category, windowMs);
      OthersDoNotPass(history, ChecksOf(r), key, start, windowMs, maximum);
    }
  }

  function MaximumOf(c: ApiAccessController, category: string): nat {
    if category == "requests" then c.requestsPerMinute
    else if category == "diagnostics" then c.diagnosticsPerHour else c.webhookTestsPerHour
  }

  lemma LimitsApply(c: ApiAccessController, history: seq<Check>, r: Request)
    requires WithinLimits(history, r.apiKey, r.isDiagnosticProbe, r.isWebhookTest, r.now,
                          c.requestsPerMinute, c.diagnosticsPerHour, c.webhookTestsPerHour)
    ensures forall category: string, windowMs: nat :: KnownCategory(category, windowMs) && Applies(category, r) ==>
              !Over(history, RateKey(r.apiKey, category), windowMs, MaximumOf(c, category), r.now)
  {
    hide Over, RateKey;
  }

  /** No window has let through more calls than have passed in it. */
  ghost predicate AdmittedPassed(c: ApiAccessController, requests: seq<Request>, replies: seq<Option<int>>, history: seq<Check>)
    requires |replies| == |requests|
  {
    forall apiKey: string, category: string, windowMs: nat, start: int :: KnownCategory(category, windowMs) ==>
      Admitted(requests, replies, apiKey, category, windowMs, start)
      <= Passed(history, RateKey(apiKey, category), start, windowMs, MaximumOf(c, category))
  }

  lemma AdmittedOneMore(c: ApiAccessController, requests: seq<Request>, replies: seq<Option<int>>, history: seq<Check>,
                        r: Request, reply: Option<int>)
    requires |replies| == |requests| && AdmittedPassed(c, requests, replies, history)
    requires reply.None? ==> forall category: string, windowMs: nat :: KnownCategory(category, windowMs) && Applies(category, r) ==>
               !Over(history, RateKey(r.apiKey, category), windowMs, MaximumOf(c, category), r.now)
    ensures AdmittedPassed(c, requests + [r], replies + [reply], history + ChecksOf(r))
  {
    hide RateKey, WindowStart, Passed, ChecksOf, Over, Applies;
    var rs, ps := requests + [r], replies + [reply];
    assert rs[..|requests|] == requests && ps[..|replies|] == replies;
    forall apiKey: string, category: string, windowMs: nat, start: int | KnownCategory(category, windowMs)
      ensures Admitted(rs, ps, apiKey, category, windowMs, start)
              <= Passed(history + ChecksOf(r), RateKey(apiKey, category), start, windowMs, MaximumOf(c, category))
    {
      RequestPasses(history, r, reply.None?, apiKey, category, windowMs, start, MaximumOf(c, category));
    }
  }

  lemma NothingAdmitted(c: ApiAccessController, none: seq<Request>)
    requires none == []
    ensures AdmittedPassed(c, none, [], [])
  {
  }

  lemma AdmittedBounded(c: ApiAccessController, requests: seq<Request>, replies: seq<Option<int>>, history: seq<Check>)
    requires |replies| == |requests| && AdmittedPassed(c, requests, replies, history)
    ensures forall apiKey: string, category: string, windowMs: nat, start: int :: KnownCategory(category, windowMs) ==>
              Admitted(requests, replies, apiKey, category, windowMs, start) <= MaximumOf(c, category)
  {
    hide Admitted, Passed, RateKey, Earlier;
    forall apiKey: string, category: string, windowMs: nat, start: int | KnownCategory(category, windowMs)
      ensures Admitted(requests, replies, apiKey, category, windowMs, start) <= MaximumOf(c, category)
    {
      PassedIsBounded(history, RateKey(apiKey, category), start, windowMs, MaximumOf(c, category));
    }
  }

  lemma ChecksAre(history: seq<Check>, r: Request)
    ensures history + ChecksOf(r)
            == history + [Check(RateKey(r.apiKey, "requests"), r.now)]
               + (if r.isDiagnosticProbe then [Check(RateKey(r.apiKey, "diagnostics"), r.now)] else [])
               + (if r.isWebhookTest then [Check(RateKey(r.apiKey, "webhooks"), r.now)] else [])
  {
  }

  lemma EmptyInOrder()
    ensures forall now: int :: InOrder([], now)
  {
  }

  lemma InOrderLater(history: seq<Check>, now: int, later: int)
    requires InOrder(history, now) && now <= later
    ensures InOrder(history, later)
  {
  }

  /**
   * Over every run of a controller with a clock that does not go back: in each window of each category at
   * most `maximum` calls of one API key are let through.
   */
  method CheckAll(c: ApiAccessController, requests: seq<Request>) returns (replies: seq<Option<int>>)
    requires c.Valid() && c.checks == []
    requires forall i, j :: 0 <= i < j < |requests| ==> requests[i].now <= requests[j].now
    modifies c
    ensures |replies| == |requests|
    ensures forall apiKey: string, category: string, windowMs: nat, start: int :: KnownCategory(category, windowMs) ==>
              Admitted(requests, replies, apiKey, category, windowMs, start) <= MaximumOf(c, category)
  {
    replies := [];
    hide Admitted, Passed, RateKey, WindowStart, AdmittedPassed, ChecksOf, Over, TooMany, AllAgree, WithinLimits, InOrder;
    NothingAdmitted(c, requests[..0]);
    EmptyInOrder();
    for i := 0 to |requests|
      invariant |replies| == i && c.Valid()
      invariant forall j :: i <= j < |requests| ==> InOrder(c.checks, requests[j].now)
      invariant AdmittedPassed(c, requests[..i], replies, c.checks)
    {
      var r := requests[i];
      ghost var history := c.checks;
      assert requests[..i + 1] == requests[..i] + [r];
      var reply := c.CheckAndRecord(r.apiKey, r.isDiagnosticProbe, r.isWebhookTest, r.now);
      assert c.checks == history + ChecksOf(r) by { ChecksAre(history, r); }
      if reply.None? {
        LimitsApply(c, history, r);
      }
      AdmittedOneMore(c, requests[..i], replies, history, r, reply);
      forall j | i + 1 <= j < |requests| ensures InOrder(c.checks, requests[j].now) {
        InOrderLater(c.checks, r.now, requests[j].now);
      }
      replies := replies + [reply];
    }
    assert requests[..|requests|] == requests;
    AdmittedBounded(c, requests, replies, c.checks);
  }
}
