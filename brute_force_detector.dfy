/** The log scorer of components/brute-force-detector.tsx (`analyzeLogs`):
    a single pass over the non-blank lines of pasted authentication-log text
    that collects IPs, timestamps, users and failed-login descriptions, then
    derives a time window, up to four attack patterns and a threat level.

    The three regular expressions that pull an IP, an `HH:MM:SS` time and a
    user name out of a line are parameters (`Extractors`); everything else is
    defined here. A timestamp is a time of day in milliseconds. */
module BruteForceDetector {
  import opened Wrappers
  import opened Text

  datatype ThreatLevel = Low | Medium | High

  datatype Severity = LowSeverity | MediumSeverity | HighSeverity

  /** What a pattern reports; the source renders each as a sentence. */
  datatype Finding =
    | HighFrequency(attemptsPerSecond: real)
    | SingleUserTargeting
    | ConcentratedAttacks(maxAttemptsPerIP: nat)
    | ConsistentTiming

  datatype Pattern = Pattern(finding: Finding, severity: Severity)

  /** The verdict (`LogAnalysis`); `timeWindow` is in seconds. */
  datatype LogAnalysis = LogAnalysis(
    attempts: nat,
    uniqueIPs: seq<string>,
    timeWindow: real,
    threatLevel: ThreatLevel,
    details: seq<string>,
    patterns: seq<Pattern>)

  /** The per-line regular-expression matches: the first IPv4-shaped token,
      the first `HH:MM:SS` token as milliseconds since midnight, and the
      token after `user:`. */
  datatype Extractors = Extractors(
    ip: string -> Option<string>,
    time: string -> Option<nat>,
    user: string -> Option<string>)

  /** What one retained line yields. */
  datatype LogEntry = LogEntry(
    ip: Option<string>,
    time: Option<nat>,
    user: Option<string>,
    failedLogin: bool)

  const FailedLogin: string := "Failed login"

  /** The JavaScript truthiness test `if (ip)`: a match that is there and is
      not the empty string. */
  predicate Present(o: Option<string>)
  {
    o.Some? && o.value != []
  }

  /*** Input lines ***/

  /** The lines kept by `split("\n").filter(line => line.trim())`. */
  function RetainedLines(text: string): seq<string>
  {
    Filter(Split(text, '\n'), HasContent)
  }

  /** The filter's callback: `line.trim()` is a non-empty, so truthy, string. */
  predicate HasContent(line: string)
  {
    Trim(line) != []
  }

  /** `lines.filter(keep)`. */
  function Filter(lines: seq<string>, keep: string -> bool): (r: seq<string>)
    ensures |r| <= |lines|
  {
    if lines == [] then []
    else (if keep(lines[0]) then [lines[0]] else []) + Filter(lines[1..], keep)
  }

  function ParseLine(ex: Extractors, line: string): (e: LogEntry)
    ensures e.failedLogin <==> exists i: nat :: OccursAt(line, FailedLogin, i)
  {
    ContainsIff(line, FailedLogin);
    LogEntry(ex.ip(line), ex.time(line), ex.user(line), Contains(line, FailedLogin))
  }

  function ParseAll(ex: Extractors, lines: seq<string>): (es: seq<LogEntry>)
    ensures |es| == |lines|
    ensures forall k :: 0 <= k < |lines| ==> es[k] == ParseLine(ex, lines[k])
  {
    seq(|lines|, k requires 0 <= k < |lines| => ParseLine(ex, lines[k]))
  }

  /*** What the forEach over the lines accumulates, as functions of the
       entries seen so far (each defined by its last step) ***/

  /** The IPs of the entries that yield one, in line order. */
  function IPsSeen(es: seq<LogEntry>): seq<string>
  {
    if es == [] then []
    else
      var e := es[|es| - 1];
      IPsSeen(es[..|es| - 1]) + (if Present(e.ip) then [e.ip.value] else [])
  }

  /** A JavaScript `Set` built by `add`, listed in insertion order. */
  function Dedup(s: seq<string>): seq<string>
  {
    if s == [] then []
    else
      var u := Dedup(s[..|s| - 1]);
      if s[|s| - 1] in u then u else u + [s[|s| - 1]]
  }

  /** The `ipAttempts` map built by `set(ip, (get(ip) || 0) + 1)`. */
  function Tally(s: seq<string>): map<string, nat>
  {
    if s == [] then map[]
    else
      var m := Tally(s[..|s| - 1]);
      var x := s[|s| - 1];
      m[x := (if x in m then m[x] else 0) + 1]
  }

  function Times(es: seq<LogEntry>): seq<int>
  {
    if es == [] then []
    else
      var e := es[|es| - 1];
      Times(es[..|es| - 1]) + (if e.time.Some? then [e.time.value] else [])
  }

  function Users(es: seq<LogEntry>): set<string>
  {
    if es == [] then {}
    else
      var e := es[|es| - 1];
      Users(es[..|es| - 1]) + (if Present(e.user) then {e.user.value} else {})
  }

  /** The sentence recorded for a failed login. */
  function Describe(e: LogEntry): string
  {
    "Failed login attempt from " + (if Present(e.ip) then e.ip.value else "unknown IP")
      + (if Present(e.user) then " for user " + e.user.value else "")
  }

  /** All failed-login sentences, in line order. */
  function FailureDetails(es: seq<LogEntry>): seq<string>
  {
    if es == [] then []
    else
      var e := es[|es| - 1];
      FailureDetails(es[..|es| - 1]) + (if e.failedLogin then [Describe(e)] else [])
  }

  /*** Derived metrics ***/

  /** `Math.max(...xs)`, absent (`-Infinity`) for an empty list. */
  function MaxOf(xs: seq<int>): (r: Option<int>)
    ensures r.None? <==> xs == []
    ensures r.Some? ==> r.value in xs && forall k :: 0 <= k < |xs| ==> xs[k] <= r.value
  {
    if xs == [] then None
    else
      var m := MaxOf(xs[..|xs| - 1]);
      assert xs == xs[..|xs| - 1] + [xs[|xs| - 1]];
      if m.None? || m.value < xs[|xs| - 1] then Some(xs[|xs| - 1]) else m
  }

  /** `Math.min(...xs)`, absent (`Infinity`) for an empty list. */
  function MinOf(xs: seq<int>): (r: Option<int>)
    ensures r.None? <==> xs == []
    ensures r.Some? ==> r.value in xs && forall k :: 0 <= k < |xs| ==> r.value <= xs[k]
  {
    if xs == [] then None
    else
      var m := MinOf(xs[..|xs| - 1]);
      assert xs == xs[..|xs| - 1] + [xs[|xs| - 1]];
      if m.None? || xs[|xs| - 1] < m.value then Some(xs[|xs| - 1]) else m
  }

  /** The time window in milliseconds: latest minus earliest timestamp when
      there are at least two, otherwise 0. */
  function WindowMillis(times: seq<int>): (w: int)
    ensures w >= 0
    ensures |times| < 2 ==> w == 0
    ensures |times| >= 2 ==> exists i, j :: 0 <= i < |times| && 0 <= j < |times| && w == times[i] - times[j]
    ensures forall i, j :: 0 <= i < |times| && 0 <= j < |times| ==> times[i] - times[j] <= w
  {
    if |times| >= 2 then
      var hi, lo := MaxOf(times).value, MinOf(times).value;
      assert lo <= times[0] <= hi;
      hi - lo
    else
      0
  }

  /** `intervals`: the differences between consecutive timestamps. */
  function Intervals(times: seq<int>): (ivs: seq<int>)
    ensures |times| >= 1 ==> |ivs| == |times| - 1
  {
    if |times| < 2 then [] else seq(|times| - 1, k requires 0 <= k < |times| - 1 => times[k + 1] - times[k])
  }

  function Sum(xs: seq<int>): int
  {
    if xs == [] then 0 else Sum(xs[..|xs| - 1]) + xs[|xs| - 1]
  }

  /** Every interval is within 100 ms of the mean interval, stated without
      division: |n * iv - sum| < 100 * n. */
  predicate EvenlySpaced(ivs: seq<int>)
  {
    forall k :: 0 <= k < |ivs| ==> -100 * |ivs| < |ivs| * ivs[k] - Sum(ivs) < 100 * |ivs|
  }

  function RealAbs(x: real): real
  {
    if x < 0.0 then -x else x
  }

  /** `intervals.every(i => Math.abs(i - avgInterval) < 100)`. */
  predicate AllNearMean(ivs: seq<int>, mean: real)
  {
    forall k :: 0 <= k < |ivs| ==> RealAbs(ivs[k] as real - mean) < 100.0
  }

  function HighCount(ps: seq<Pattern>): nat
  {
    if ps == [] then 0
    else HighCount(ps[..|ps| - 1]) + (if ps[|ps| - 1].severity == HighSeverity then 1 else 0)
  }

  /*** The rules, in the order the source applies them ***/

  /** Milliseconds as seconds. */
  function Seconds(ms: int): real
  {
    ms as real / 1000.0
  }

  /** The whole-input average rate `logLines.length / timeWindow`. */
  function Rate(attempts: nat, window: real): real
    requires window > 0.0
  {
    (attempts as real) / window
  }

  function FrequencyPatterns(attempts: nat, windowMs: int): seq<Pattern>
  {
    if Seconds(windowMs) > 0.0 && Rate(attempts, Seconds(windowMs)) > 1.0
    then [Pattern(HighFrequency(Rate(attempts, Seconds(windowMs))), HighSeverity)]
    else []
  }

  function SingleUserPatterns(attempts: nat, users: set<string>): seq<Pattern>
  {
    if |users| == 1 && attempts > 10 then [Pattern(SingleUserTargeting, HighSeverity)] else []
  }

  function ConcentrationPatterns(maxPerIP: Option<int>): seq<Pattern>
  {
    if maxPerIP.Some? && maxPerIP.value > 10
    then [Pattern(ConcentratedAttacks(maxPerIP.value), HighSeverity)]
    else []
  }

  function TimingPatterns(times: seq<int>): seq<Pattern>
  {
    if |times| >= 2 && EvenlySpaced(Intervals(times)) && |Intervals(times)| > 5
    then [Pattern(ConsistentTiming, HighSeverity)]
    else []
  }

  /** The patterns in the order the source tests them: frequency, single
      user, concentration, timing. */
  function DetectedPatterns(attempts: nat, windowMs: int, users: set<string>,
                            maxPerIP: Option<int>, times: seq<int>): seq<Pattern>
  {
    FrequencyPatterns(attempts, windowMs) + SingleUserPatterns(attempts, users)
      + ConcentrationPatterns(maxPerIP) + TimingPatterns(times)
  }

  /** The counts of the IPs in `ips`, in that order (`ipAttempts.values()`). */
  function CountsOf(ips: seq<string>, m: map<string, nat>): (cs: seq<int>)
    requires forall k :: 0 <= k < |ips| ==> ips[k] in m
    ensures |cs| == |ips|
  {
    seq(|ips|, k requires 0 <= k < |ips| => m[ips[k]])
  }

  /** `Math.max(...ipAttempts.values())` for the IPs seen, in line order. */
  function MaxAttemptsPerIP(seen: seq<string>): Option<int>
  {
    TallyKeys(seen);
    MaxOf(CountsOf(Dedup(seen), Tally(seen)))
  }

  /*** The scorer ***/

  /** `analyzeLogs`: keep the non-blank lines, then analyse them. */
  method AnalyzeLogs(logs: string, ex: Extractors) returns (r: LogAnalysis)
    ensures var lines := RetainedLines(logs);
            var es := ParseAll(ex, lines);
            && r.attempts == |lines|
            && r.uniqueIPs == Dedup(IPsSeen(es))
            && r.timeWindow == Seconds(WindowMillis(Times(es)))
            && r.details == FailureDetails(es)[..if |FailureDetails(es)| < 5 then |FailureDetails(es)| else 5]
            && r.patterns == DetectedPatterns(|lines|, WindowMillis(Times(es)), Users(es),
                                              MaxAttemptsPerIP(IPsSeen(es)), Times(es))
    ensures r.threatLevel == High <==> r.patterns != [] || r.attempts > 50 || |r.uniqueIPs| > 10
    ensures r.threatLevel == Medium <==> !(r.patterns != [] || r.attempts > 50 || |r.uniqueIPs| > 10)
                                         && (r.attempts > 20 || |r.uniqueIPs| > 5)
    ensures |r.details| <= 5
    ensures r.timeWindow >= 0.0
  {
    var logLines := RetainedLines(logs);
    r := AnalyzeLines(logLines, ex);
  }

  /** The rest of `analyzeLogs`, given the retained lines: one pass over
      the lines updating the IP set, the time list, the user set, the per-IP
      counts and the details; then the window, the intervals, the patterns
      and the threat level. */
  method AnalyzeLines(logLines: seq<string>, ex: Extractors) returns (r: LogAnalysis)
    ensures var es := ParseAll(ex, logLines);
            && r.attempts == |logLines|
            && r.uniqueIPs == Dedup(IPsSeen(es))
            && r.timeWindow == Seconds(WindowMillis(Times(es)))
            && r.details == FailureDetails(es)[..if |FailureDetails(es)| < 5 then |FailureDetails(es)| else 5]
            && r.patterns == DetectedPatterns(|logLines|, WindowMillis(Times(es)), Users(es),
                                              MaxAttemptsPerIP(IPsSeen(es)), Times(es))
    ensures r.threatLevel == High <==> r.patterns != [] || r.attempts > 50 || |r.uniqueIPs| > 10
    ensures r.threatLevel == Medium <==> !(r.patterns != [] || r.attempts > 50 || |r.uniqueIPs| > 10)
                                         && (r.attempts > 20 || |r.uniqueIPs| > 5)
    ensures |r.details| <= 5
    ensures r.timeWindow >= 0.0
  {
    var ips, times, users, ipAttempts, details := ScanLines(logLines, ex);

    // The spread of the timestamps, as seconds.
    var windowMs := WindowMillis(times);
    var timeWindow := Seconds(windowMs);

    // The four rules, each tested independently.
    var maxAttemptsPerIP := MaxOf(CountsOf(ips, ipAttempts));
    var patterns := FindPatterns(|logLines|, timeWindow, users, maxAttemptsPerIP, times);

    // High when any pattern fired or the volume is large; Medium for moderate volume.
    var threatLevel := Low;
    var highSeverityPatterns := HighCount(patterns);
    DetectedPatternsAllHigh(|logLines|, windowMs, users, maxAttemptsPerIP, times);
    if highSeverityPatterns > 0 || |logLines| > 50 || |ips| > 10 {
      threatLevel := High;
    } else if |logLines| > 20 || |ips| > 5 {
      threatLevel := Medium;
    }

    r := LogAnalysis(|logLines|, ips, timeWindow, threatLevel,
                     details[..if |details| < 5 then |details| else 5], patterns);
  }

  /** The four pattern rules, each tested independently and appended in
      the source's order. */
  method FindPatterns(attempts: nat, timeWindow: real, users: set<string>,
                      maxAttemptsPerIP: Option<int>, times: seq<int>)
    returns (patterns: seq<Pattern>)
    requires timeWindow == Seconds(WindowMillis(times))
    ensures patterns == DetectedPatterns(attempts, WindowMillis(times), users, maxAttemptsPerIP, times)
  {
    ghost var windowMs := WindowMillis(times);
    patterns := [];
    if timeWindow > 0.0 {
      var attemptsPerSecond := Rate(attempts, timeWindow);
      if attemptsPerSecond > 1.0 {
        patterns := patterns + [Pattern(HighFrequency(attemptsPerSecond), HighSeverity)];
      }
    }
    assert patterns == FrequencyPatterns(attempts, windowMs);

    if |users| == 1 && attempts > 10 {
      patterns := patterns + [Pattern(SingleUserTargeting, HighSeverity)];
    }
    assert patterns == FrequencyPatterns(attempts, windowMs) + SingleUserPatterns(attempts, users);

    if maxAttemptsPerIP.Some? && maxAttemptsPerIP.value > 10 {
      patterns := patterns + [Pattern(ConcentratedAttacks(maxAttemptsPerIP.value), HighSeverity)];
    }
    assert patterns == FrequencyPatterns(attempts, windowMs) + SingleUserPatterns(attempts, users)
                       + ConcentrationPatterns(maxAttemptsPerIP);

    var timing := TimingCheck(times);
    patterns := patterns + timing;
  }

  /** The timing block: the intervals, their mean, and the test that every
      interval is within 100 ms of it. */
  method TimingCheck(times: seq<int>) returns (patterns: seq<Pattern>)
    ensures patterns == TimingPatterns(times)
  {
    patterns := [];
    if |times| >= 2 {
      var intervals := ConsecutiveIntervals(times);
      var avgInterval := (Sum(intervals) as real) / (|intervals| as real);
      var isConsistent := AllNearMean(intervals, avgInterval);
      MeanTestWithoutDivision(intervals);
      if isConsistent && |intervals| > 5 {
        patterns := [Pattern(ConsistentTiming, HighSeverity)];
      }
    }
  }

  /** The `forEach` over the retained lines: each line adds its IP to the
      IP set and bumps its count, appends its time, adds its user, and
      records a sentence when it is a failed login. */
  method ScanLines(lines: seq<string>, ex: Extractors)
    returns (ips: seq<string>, times: seq<int>, users: set<string>,
             ipAttempts: map<string, nat>, details: seq<string>)
    ensures var es := ParseAll(ex, lines);
            && ips == Dedup(IPsSeen(es))
            && ipAttempts == Tally(IPsSeen(es))
            && times == Times(es)
            && users == Users(es)
            && details == FailureDetails(es)
    ensures forall k :: 0 <= k < |ips| ==> ips[k] in ipAttempts
  {
    ghost var es := ParseAll(ex, lines);
    ghost var seen: seq<string> := [];
    ips, times, users, ipAttempts, details := [], [], {}, map[], [];
    for i := 0 to |lines|
      invariant seen == IPsSeen(es[..i])
      invariant ips == Dedup(seen)
      invariant ipAttempts == Tally(seen)
      invariant times == Times(es[..i])
      invariant users == Users(es[..i])
      invariant details == FailureDetails(es[..i])
    {
      var e := ParseLine(ex, lines[i]);
      EntryStep(es, i);
      if Present(e.ip) {
        var ip := e.ip.value;
        SeenStep(seen, ip);
        seen := seen + [ip];
        if ip !in ips { ips := ips + [ip]; }
        ipAttempts := ipAttempts[ip := (if ip in ipAttempts then ipAttempts[ip] else 0) + 1];
      }
      if e.time.Some? { times := times + [e.time.value]; }
      if Present(e.user) { users := users + {e.user.value}; }
      if e.failedLogin { details := details + [Describe(e)]; }
    }
    assert es[..|lines|] == es;
    TallyKeys(seen);
  }

  /** One more line: each fold over the entries takes one step. */
  lemma EntryStep(es: seq<LogEntry>, i: nat)
    requires i < |es|
    ensures var e, p := es[i], es[..i];
            && IPsSeen(es[..i + 1]) == IPsSeen(p) + (if Present(e.ip) then [e.ip.value] else [])
            && Times(es[..i + 1]) == Times(p) + (if e.time.Some? then [e.time.value] else [])
            && Users(es[..i + 1]) == Users(p) + (if Present(e.user) then {e.user.value} else {})
            && FailureDetails(es[..i + 1]) == FailureDetails(p) + (if e.failedLogin then [Describe(e)] else [])
  {
    assert es[..i + 1][..i] == es[..i];
  }

  /** One more IP: the set and the counts take one step. */
  lemma SeenStep(seen: seq<string>, ip: string)
    ensures Dedup(seen + [ip]) == if ip in Dedup(seen) then Dedup(seen) else Dedup(seen) + [ip]
    ensures Tally(seen + [ip]) == Tally(seen)[ip := (if ip in Tally(seen) then Tally(seen)[ip] else 0) + 1]
  {
    assert (seen + [ip])[..|seen|] == seen;
  }

  /** The `for` loop that pushes the gap between each timestamp and the
      previous one. */
  method ConsecutiveIntervals(times: seq<int>) returns (intervals: seq<int>)
    requires |times| >= 1
    ensures |intervals| == |times| - 1
    ensures forall k :: 0 <= k < |intervals| ==> intervals[k] == times[k + 1] - times[k]
    ensures intervals == Intervals(times)
  {
    intervals := [];
    for i := 1 to |times|
      invariant |intervals| == i - 1
      invariant forall k :: 0 <= k < i - 1 ==> intervals[k] == times[k + 1] - times[k]
    {
      intervals := intervals + [times[i] - times[i - 1]];
    }
  }

  /*** Lemmas the scorer needs ***/

  /** Every IP that was counted has a count. */
  lemma {:induction false} TallyKeys(s: seq<string>)
    ensures forall x :: x in Tally(s) <==> x in s
    ensures forall k :: 0 <= k < |Dedup(s)| ==> Dedup(s)[k] in Tally(s)
  {
    if s != [] {
      TallyKeys(s[..|s| - 1]);
      DedupSameElements(s[..|s| - 1]);
      DedupSameElements(s);
      assert s == s[..|s| - 1] + [s[|s| - 1]];
    }
  }

  lemma {:induction false} DedupSameElements(s: seq<string>)
    ensures forall x :: x in Dedup(s) <==> x in s
  {
    if s != [] {
      DedupSameElements(s[..|s| - 1]);
      assert s == s[..|s| - 1] + [s[|s| - 1]];
    }
  }

  /** The source's floating mean test and the division-free test agree. */
  lemma MeanTestWithoutDivision(ivs: seq<int>)
    requires |ivs| > 0
    ensures AllNearMean(ivs, (Sum(ivs) as real) / (|ivs| as real)) <==> EvenlySpaced(ivs)
  {
    var mean := (Sum(ivs) as real) / (|ivs| as real);
    MulDiv(Sum(ivs) as real, |ivs| as real);
    forall k | 0 <= k < |ivs|
      ensures RealAbs(ivs[k] as real - mean) < 100.0
              <==> -100 * |ivs| < |ivs| * ivs[k] - Sum(ivs) < 100 * |ivs|
    {
      NearMean(ivs[k], Sum(ivs), |ivs|, mean);
    }
  }

  /** |a - mean| < 100 exactly when |n*a - s| < 100*n, where mean = s/n. */
  lemma NearMean(a: int, s: int, n: int, mean: real)
    requires n > 0 && (n as real) * mean == s as real
    ensures RealAbs(a as real - mean) < 100.0 <==> -100 * n < n * a - s < 100 * n
  {
    assert (n * a) as real == (n as real) * (a as real);
    ScaleBound(a as real - mean, n, n * a - s);
  }

  lemma ScaleBound(d: real, n: int, x: int)
    requires n > 0 && x as real == (n as real) * d
    ensures RealAbs(d) < 100.0 <==> -100 * n < x < 100 * n
  {
    var nr := n as real;
    CastBelow(x, n);
    CastAbove(x, n);
    ScaleBelow(d, nr, x as real);
    ScaleAbove(d, nr, x as real);
  }

  lemma CastBelow(x: int, n: int)
    ensures (x as real < 100.0 * (n as real)) <==> x < 100 * n
  {
  }

  lemma CastAbove(x: int, n: int)
    ensures (-100.0 * (n as real) < x as real) <==> -100 * n < x
  {
  }

  lemma ScaleBelow(d: real, n: real, p: real)
    requires n > 0.0 && p == n * d
    ensures d < 100.0 <==> p < 100.0 * n
  {
    if d < 100.0 { assert n * d < n * 100.0; } else { assert n * d >= n * 100.0; }
  }

  lemma ScaleAbove(d: real, n: real, p: real)
    requires n > 0.0 && p == n * d
    ensures -100.0 < d <==> -100.0 * n < p
  {
    if -100.0 < d { assert n * -100.0 < n * d; } else { assert n * d <= n * -100.0; }
  }

  lemma MulDiv(s: real, n: real)
    requires n != 0.0
    ensures n * (s / n) == s
  {
  }

  /** Every pattern the scorer emits is of high severity, so the number of
      high-severity patterns is the number of patterns. */
  lemma DetectedPatternsAllHigh(attempts: nat, windowMs: int, users: set<string>,
                                maxPerIP: Option<int>, times: seq<int>)
    ensures var ps := DetectedPatterns(attempts, windowMs, users, maxPerIP, times);
            HighCount(ps) == |ps|
  {
    var f, s, c, t := FrequencyPatterns(attempts, windowMs), SingleUserPatterns(attempts, users),
                      ConcentrationPatterns(maxPerIP), TimingPatterns(times);
    HighCountAppend(f, s);
    HighCountAppend(f + s, c);
    HighCountAppend(f + s + c, t);
  }

  lemma {:induction false} HighCountAppend(ps: seq<Pattern>, qs: seq<Pattern>)
    ensures HighCount(ps + qs) == HighCount(ps) + HighCount(qs)
  {
    if qs != [] {
      var q := qs[..|qs| - 1];
      HighCountAppend(ps, q);
      assert (ps + qs)[..|ps + qs| - 1] == ps + q;
    } else {
      assert ps + qs == ps;
    }
  }
}
