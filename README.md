# Security analyzer scoring core, in Dafny

The application has two browser-side scorers. This project models both of them
and proves properties about them.

* **Brute-force log analysis** (`analyzeLogs`). The pasted log text is split
  into lines, and blank lines are dropped. Each line yields an IP address, a
  time of day and a user name when it contains them, plus a detail when it
  contains `Failed login`. From these the analysis builds:
  * the attempt count;
  * the unique IPs, in order of first appearance;
  * the time window in seconds;
  * up to five failure details;
  * four high-severity patterns: high frequency, single-user targeting,
    concentrated attacks, and consistent timing;
  * a Low/Medium/High threat level.
* **Phishing email analysis** (`analyzeEmail`). Six weighted suspicious-pattern
  rules add up a weighted match score out of a total weight of 1.45. This score
  becomes a confidence percentage. Each legitimacy rule that matches lowers it
  by 5 points. The result is clamped to [0, 100], and the email is safe exactly
  when the confidence is below 40.

Both scorers work by changing local state step by step, so each is a `method`
with loops and loop invariants. Each method is proved against specification
functions written as left folds over the input. Lemmas then state what those
functions promise.

Files:
* `wrappers.dfy`: `Option`.
* `text.dfy`: the string operations used here, written out concretely: `split`
  on `"\n"`, `trim`, and `includes`.
* `brute_force_detector.dfy`, `brute_force_properties.dfy`: the log scorer.
* `email_analyzer.dfy`, `email_properties.dfy`: the email scorer.

Modelling choices:
* **Regular expressions.** These are parameters, so no proof depends on a
  regular-expression engine. The three log extractors (IP, time, user) form
  `Extractors`. The six suspicious rules and three legitimacy rules form
  `Detectors`. A suspicion rule is one function from the email to
  `Option<string>`, the result of `match(...)?.[0]`. The rule "fires"
  (`Fires`) when that result is present, so `test` and `match` are the same
  value in the model. This is faithful because none of the six patterns
  (components/email-analyzer.tsx:26-51) has the `g` flag, so no `lastIndex`
  state can make `test` and `match` disagree.
* **JavaScript truthiness.** `if (ip)` and `if (match)` are modelled as
  "present and non-empty" (`Present`, and the non-empty test in `Matches`).
* **Times.** A time of day is milliseconds since midnight, which is what
  `new Date("1970-01-01T" + time).getTime()` yields for an `hh:mm:ss` string in
  UTC.
* **Numbers.** The time window, rates and weights are exact reals, not
  doubles.

## Model

Specification functions that only compute a value appear in back-quotes in the row of the member whose contract characterises them. These are the folds (`IPsSeen`, `Dedup`, `Tally`, `Times`, `Users`, `FailureDetails`, `WeightedMatches`, `TotalWeight`, `Reasons`, `Matches`, `LegitimateHits`) and the rule and score functions.

| member | source | states |
|---|---|---|
| `BruteForceDetector.AnalyzeLogs` | components/brute-force-detector.tsx:36-131 | `attempts` is the number of retained lines (`RetainedLines`). `uniqueIPs` is the de-duplicated IPs in order of first appearance (`Dedup` of `IPsSeen`). `timeWindow` is max minus min time, in seconds (`Seconds` of `WindowMillis`). `details` is the first min(5, n) failure details. `patterns` is `DetectedPatterns`, the four rules in source order. The threat level is High exactly when a pattern fired, there are more than 50 lines or there are more than 10 IPs. It is Medium exactly when it is not High and there are more than 20 lines or more than 5 IPs. Otherwise it is Low. |
| `BruteForceDetector.AnalyzeLines` | components/brute-force-detector.tsx:42-131 | The same verdict for a given list of retained lines: every field equals its fold over the parsed lines (`ParseAll`), with the threat-level table as iffs. |
| `BruteForceDetector.ScanLines` | components/brute-force-detector.tsx:42-64 | The per-line loop leaves the IP set, per-IP counts, times, users and details equal to the folds `Dedup(IPsSeen)`, `Tally(IPsSeen)`, `Times`, `Users` and `FailureDetails` over the parsed lines. Every recorded IP has a count. |
| `BruteForceDetector.FindPatterns` | components/brute-force-detector.tsx:71-111 | The pattern list built by the four `if` blocks is exactly `DetectedPatterns`: frequency (`FrequencyPatterns`, via `Rate`), single user, concentration, timing, in that order. |
| `BruteForceDetector.TimingCheck` | components/brute-force-detector.tsx:97-111 | The timing block, with its real-valued mean, yields exactly `TimingPatterns`. |
| `BruteForceDetector.ConsecutiveIntervals` | components/brute-force-detector.tsx:97-101 | The interval loop yields `Intervals`: `times[i] - times[i-1]` for every i ≥ 1. |
| `BruteForceDetector.ParseLine` | components/brute-force-detector.tsx:61 | A line counts as a failed login iff `Failed login` occurs in it at some index. |
| `BruteForceDetector.MaxOf` | components/brute-force-detector.tsx:89 | The maximum of a non-empty list is an element and bounds every element. An empty list has none, so no comparison with 10 succeeds (`Math.max()` of nothing). `MaxAttemptsPerIP` applies it to `CountsOf` the unique IPs. |
| `BruteForceDetector.MinOf` | components/brute-force-detector.tsx:68 | The minimum of a non-empty list is an element and is below every element. |
| `BruteForceDetector.WindowMillis` | components/brute-force-detector.tsx:67-69 | The window is never negative. It is 0 with fewer than two times. Otherwise it is a difference of two recorded times, and it bounds every such difference. |
| `BruteForceDetector.TallyKeys` | components/brute-force-detector.tsx:46-56 | The `ipAttempts` map (`Tally`) has an entry exactly for the IPs added to the set. |
| `BruteForceDetector.DedupSameElements` | components/brute-force-detector.tsx:42-55 | `Array.from(ips)` (`Dedup`) holds exactly the IPs seen. |
| `BruteForceDetector.MeanTestWithoutDivision` | components/brute-force-detector.tsx:102-103 | Every interval is within 100 ms of the mean (`AllNearMean` with `Sum`/n) iff `-100n < n·iv - sum < 100n` for every interval (`EvenlySpaced`). |
| `BruteForceDetector.DetectedPatternsAllHigh` | components/brute-force-detector.tsx:115-117 | Every detected pattern has high severity, so `highSeverityPatterns` (`HighCount`) is the pattern count. |
| `BruteForceProperties.RetainedLinesAreNonBlankLines` | components/brute-force-detector.tsx:37 | Every retained line is free of newlines and not blank. Every non-blank line is retained. Each non-blank line is kept exactly as many times as it occurs. The number of retained lines, `attempts`, is the number of non-blank positions. |
| `BruteForceProperties.KeptLines` | components/brute-force-detector.tsx:37 | The same four facts for any list of separator-free lines filtered by `HasContent`. |
| `BruteForceProperties.FilterKeepsMultiplicity` | components/brute-force-detector.tsx:37 | `Filter` keeps each accepted line exactly as often as it occurs, and drops every rejected line. |
| `BruteForceProperties.FilterIsHomomorphic` | components/brute-force-detector.tsx:37 | Filtering a concatenation concatenates the filtered parts, so `Filter` keeps input order. |
| `BruteForceProperties.FilterCount` | components/brute-force-detector.tsx:37 | The number of lines `Filter` keeps is the number of accepted positions. |
| `BruteForceProperties.HasContentIffNotBlank` | components/brute-force-detector.tsx:37 | The filter callback (`line.trim()` truthy) accepts exactly the non-blank lines. |
| `BruteForceProperties.NoTextNoAttempts` | components/brute-force-detector.tsx:37 | Empty input retains no lines, so `attempts` is 0. |
| `BruteForceProperties.SignalFreeLinesGiveNothing` | components/brute-force-detector.tsx:49-121 | Lines with no IP, time, user or failed login give no unique IPs, no times, no users, no details, a zero window, no per-IP maximum and no pattern. |
| `BruteForceProperties.IPsSeenFromLines` | components/brute-force-detector.tsx:50-55 | An IP is recorded (`IPsSeen`) iff some line has a present, non-empty IP match equal to it. |
| `BruteForceProperties.UsersFromLines` | components/brute-force-detector.tsx:52-59 | A name is in the user set (`Users`) iff some line has a present, non-empty user match equal to it. |
| `BruteForceProperties.TimesOfConcat` | components/brute-force-detector.tsx:49-58 | The time list (`Times`) of a concatenation is the concatenation of the time lists, so times keep line order and multiplicity. |
| `BruteForceProperties.TimesOfLine` | components/brute-force-detector.tsx:51-58 | A line adds its time to the list exactly when it has one. |
| `BruteForceProperties.DedupNoDuplicates` | components/brute-force-detector.tsx:42-55 | `uniqueIPs` has no duplicates. |
| `BruteForceProperties.DedupFirstAppearanceOrder` | components/brute-force-detector.tsx:55 | `uniqueIPs` is ordered by the index of each IP's first appearance. |
| `BruteForceProperties.IPCountIsLineCount` | components/brute-force-detector.tsx:50-56 | Each occurrence of an IP in the list of IP entries (`IPsSeen`) stands for one line whose IP match is that IP (`LinesWithIP`). |
| `BruteForceProperties.IPEntriesAreLines` | components/brute-force-detector.tsx:50-56 | The list of IP entries has exactly one entry per line that carries an IP (`LinesWithAnyIP`). |
| `BruteForceProperties.TallyIsCount` | components/brute-force-detector.tsx:56 | The per-IP count (`Tally`) is the number of entries of that IP in the list of IP entries (`Count`), and 0 when absent. By `IPCountIsLineCount` that is the number of lines with that IP. |
| `BruteForceProperties.TallySumsToLines` | components/brute-force-detector.tsx:54-56 | The per-IP counts over `uniqueIPs` sum to the length of the list of IP entries. By `IPEntriesAreLines` that is the number of lines that carry an IP. |
| `BruteForceProperties.ConcentratedIffBusyIP` | components/brute-force-detector.tsx:89-95 | With no IPs there is no maximum. The concentration pattern (`ConcentrationPatterns` of `MaxAttemptsPerIP`) fires iff some IP occurs more than 10 times in the list of IP entries, that is on more than 10 lines (`IPCountIsLineCount`). |
| `BruteForceProperties.DetailsAreFailedLinesInOrder` | components/brute-force-detector.tsx:61-63 | The k-th detail (`FailureDetails`) describes a failed-login line j, and exactly k details come from lines before j. |
| `BruteForceProperties.FailedLinesAreDetailed` | components/brute-force-detector.tsx:61-63 | Every failed-login line yields its description. It sits at the position given by the number of details from earlier lines. |
| `BruteForceProperties.DescribeNamesSource` | components/brute-force-detector.tsx:62 | A detail (`Describe`) starts with "Failed login attempt from " and the IP, or "unknown IP" when none was extracted. It ends with " for user " and the name when a user was extracted, and ends right after the source otherwise. |
| `BruteForceProperties.NoFailuresNoDetails` | components/brute-force-detector.tsx:61-63 | No failed-login line means no details. |
| `BruteForceProperties.FrequencyIffFasterThanOnePerSecond` | components/brute-force-detector.tsx:72-80 | The frequency pattern (`FrequencyPatterns`, via `Seconds` and `Rate`) fires iff the window is positive and lines × 1000 exceeds the window in milliseconds. |
| `BruteForceProperties.SingleUserIffOneName` | components/brute-force-detector.tsx:82-87 | The single-user pattern (`SingleUserPatterns`) fires iff there are more than 10 lines, some line names a user u, and no line names anyone else. |
| `BruteForceProperties.UsersAreOne` | components/brute-force-detector.tsx:59-87 | The user set is exactly {u} iff some line names u and no line names anyone else. |
| `BruteForceProperties.TimingIffNearMean` | components/brute-force-detector.tsx:97-111 | The timing pattern (`TimingPatterns`) fires iff there are at least 7 times, that is more than 5 intervals, and every interval is within 100 ms of the real mean interval. |
| `BruteForceProperties.SteadyTimesAreConsistent` | components/brute-force-detector.tsx:97-111 | Seven or more times spaced by one constant step trigger the consistent-timing pattern. |
| `BruteForceProperties.SingleSourceBurst` | components/brute-force-detector.tsx:82-95 | More than 10 lines, all with the same IP and user, produce the single-user pattern and a concentration pattern whose count is the number of lines. |
| `BruteForceProperties.MiddleRulesFire` | components/brute-force-detector.tsx:71-111 | Patterns from the single-user and concentration rules appear in `DetectedPatterns` whatever the frequency and timing rules add. |
| `BruteForceProperties.SameSource` | components/brute-force-detector.tsx:54-59 | When every line has the same IP and user, the user set is that user, `uniqueIPs` is that IP, and its count is the number of lines. |
| `Text.TrimEmptyIffBlank` | components/brute-force-detector.tsx:37 | `line.trim()` is empty (falsy) iff the line is all ECMAScript white space and line terminators. |
| `Text.Split` | components/brute-force-detector.tsx:37 | Splitting yields at least one piece, and no piece contains the separator. |
| `Text.JoinSplit` | components/brute-force-detector.tsx:37 | Joining the pieces of a split with the separator gives back the string. |
| `Text.SplitJoin` | components/brute-force-detector.tsx:37 | Splitting a join of separator-free pieces gives back the pieces. |
| `Text.ContainsIff` | components/brute-force-detector.tsx:61 | `includes` holds iff the pattern occurs at some index. |
| `EmailAnalyzer.AnalyzeEmail` | components/email-analyzer.tsx:23-99 | The confidence is in [0, 100] and equals `Confidence`. `safe` holds iff the confidence is below 40. `reasons` is `Reasons`, or the placeholder when no rule fired. `matches` is `Matches`. |
| `EmailAnalyzer.Indicators` | components/email-analyzer.tsx:24-55 | There are six rules, each with a positive weight. The weights sum to 1.45 (see `TotalWeightIsConstant`). |
| `EmailAnalyzer.LegitimatePatterns` | components/email-analyzer.tsx:77-81 | There are three legitimacy rules. |
| `EmailAnalyzer.TotalWeightIsConstant` | components/email-analyzer.tsx:57-72 | `totalWeight` (`TotalWeight`) is 1.45 whatever the email. |
| `EmailAnalyzer.Clamp` | components/email-analyzer.tsx:91 | The clamp lands in [0, 100]. It sends values below 0 to 0 and values above 100 to 100, and leaves values inside the range unchanged. |
| `EmailProperties.WeightedMatchesBounded` | components/email-analyzer.tsx:62-72 | The weighted match score (`WeightedMatches`) lies between 0 and the total weight. |
| `EmailProperties.RawConfidenceInRange` | components/email-analyzer.tsx:74 | The unadjusted confidence (`RawConfidence`) is already within [0, 100]. |
| `EmailProperties.LegitimateHitsBounded` | components/email-analyzer.tsx:83-88 | There are no more legitimacy hits (`LegitimateHits`) than rules. |
| `EmailProperties.LegitimateHitsUnrolled` | components/email-analyzer.tsx:77-88 | The legitimacy hits are one for each of the formatting, greeting and signature tests that matches. |
| `EmailProperties.ConfidenceFormula` | components/email-analyzer.tsx:74-91 | With k ≤ 3 legitimacy hits, the confidence (`Confidence`) is max(0, 100·W/1.45 − 5k). |
| `EmailProperties.NoSuspicionIsSafe` | components/email-analyzer.tsx:74-96 | If no suspicious rule fires, the confidence is 0, the email is safe, and no reasons or matches are collected. |
| `EmailProperties.ReasonsInRuleOrder` | components/email-analyzer.tsx:62-65 | The k-th reason (`Reasons`) is the message of a fired rule j, with exactly k reasons from rules before j. |
| `EmailProperties.MatchesFollowFiredRules` | components/email-analyzer.tsx:66-69 | There are no more matches (`Matches`) than reasons, and no more reasons than rules. Each match quotes the non-empty text found by a rule that fired, with that rule's message. |
| `EmailProperties.FiredRulesAreMatched` | components/email-analyzer.tsx:66-69 | Every rule whose pattern finds non-empty text contributes its quote to the matches (`Matches`), at the position after the quotes of the earlier rules. With `MatchesFollowFiredRules` this fixes the match list exactly. |
| `EmailProperties.QuoteShowsMatchAndMessage` | components/email-analyzer.tsx:68 | A recorded match (`Quote`) is the found text in double quotes, then " - ", then the message. Both parts can be read back at fixed positions. |
| `EmailProperties.MoreSuspicionNeverLowers` | components/email-analyzer.tsx:62-91 | If the legitimacy hits are equal and every rule firing on one email also fires on a second, the second's confidence is at least the first's. |
| `EmailProperties.MoreLegitimacyNeverRaises` | components/email-analyzer.tsx:83-91 | If the same suspicious rules fire, more legitimacy hits never raise the confidence. |
| `EmailProperties.OneRuleNeverFlags` | components/email-analyzer.tsx:24-94 | An email that fires at most one suspicious rule is always judged safe. |
| `EmailProperties.TwoHeavyRulesFlag` | components/email-analyzer.tsx:35-94 | Sensitive-information plus threatening-language with no legitimacy hit scores at least 40, so the email is not safe. |
| `EmailProperties.WeightedMatchesUnrolled` | components/email-analyzer.tsx:24-72 | The weighted score is the sum of the six weights of the rules that fired. |
| `EmailProperties.ReasonsUnrolled` | components/email-analyzer.tsx:24-65 | The reasons are the six literal messages, each present exactly when its rule fires, in declaration order. |
| `EmailProperties.PhishingExample` | components/email-analyzer.tsx:23-99 | If the urgency, formatting, sensitive-information, generic-greeting and threat rules fire with one legitimacy hit, the confidence is 100·1.2/1.45 − 5. That is at least 40, and the reasons are those five messages in order. |
| `EmailProperties.FriendlyExample` | components/email-analyzer.tsx:23-99 | If only the formatting rule fires and all three legitimacy rules hit, the confidence is 0, and the formatting message is the only reason. |

## Left out

- Regular-expression semantics. The nine email patterns and the three log
  extractors are abstract parameters, so nothing is proved about which text
  they accept.
- JavaScript `Date` parsing. A time string is taken as milliseconds since
  midnight. Time-zone offsets and an invalid time (`NaN`, which would make
  every comparison false) are not modelled.
- IEEE-754 doubles. Rates, the time window, weights and confidence are exact
  reals. The rounding that floating-point sums such as 0.25 + 0.2 + … introduce
  is not modelled.
- Pattern descriptions. The `description` strings, including the
  `toFixed(2)` formatting and the number printed in "Concentrated attacks",
  are represented by the `Finding` datatype, which carries the same numbers.
  Text formatting is left out.
- BruteForceDetector.MaxOf, BruteForceDetector.MinOf: total functions.
  `Math.max(...)` and `Math.min(...)` at brute-force-detector.tsx:68 and :89
  spread a whole array into call arguments. JavaScript engines cap the
  argument count, so a very long log makes `analyzeLogs` throw a
  `RangeError`. Engine limits are not modelled, so the model returns a
  verdict for every input.
- The React component state: `useState`, `setAnalysis`/`setResult`,
  `fetchFromUrl` (network I/O), clearing, `getThreatColor`, and rendering.
  These are presentation and I/O, not scoring.
- app/page.tsx, components/brute-force-criteria.tsx and
  components/email-criteria.tsx are not part of this model. They are static
  explanatory panels.

## Behaviour of the code worth knowing

- The formatting rule's pattern carries the `i` flag, so `[A-Z]{5,}` matches
  any run of five letters in either case. It fires on almost any prose.
  `PhishingExample` and `FriendlyExample` are stated with it firing.
- The frequency rule divides the number of retained lines, not the number of
  failed logins, by the window in seconds, and compares the result with 1.
- Times are times of day. In a log that crosses midnight, the window is
  measured between clock values, and some intervals are negative. The model
  keeps this: intervals are plain integers.
