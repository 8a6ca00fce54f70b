/** The phishing scorer of components/email-analyzer.tsx (`analyzeEmail`):
    six weighted suspicion rules tested in declaration order, three
    legitimacy rules that each take 5 points off, a clamp to [0, 100] and a
    threshold at 40.

    The regular expressions are parameters (`Detectors`): a suspicion rule
    is the first match it finds in the text, or nothing; a legitimacy rule
    is whether it matches. Weights are exact reals. */
module EmailAnalyzer {
  import opened Wrappers

  /** The nine regular expressions of the scorer, applied to the email. */
  datatype Detectors = Detectors(
    urgency: string -> Option<string>,
    badGrammar: string -> Option<string>,
    sensitiveInfo: string -> Option<string>,
    genericGreeting: string -> Option<string>,
    suspiciousLinks: string -> Option<string>,
    threatLanguage: string -> Option<string>,
    properFormatting: string -> bool,
    personalizedGreeting: string -> bool,
    businessSignature: string -> bool)

  /** A suspicion rule: `email.match(pattern)?.[0]`, its weight and its
      message. */
  datatype Indicator = Indicator(pattern: string -> Option<string>, weight: real, message: string)

  /** The verdict the scorer hands to the page. */
  datatype EmailVerdict = EmailVerdict(safe: bool, confidence: real, reasons: seq<string>, matches: seq<string>)

  const NoSuspiciousPatterns: string := "No suspicious patterns detected"

  /** The rule table, in declaration order. */
  function Indicators(d: Detectors): (t: seq<Indicator>)
    ensures |t| == 6
    ensures forall k :: 0 <= k < |t| ==> t[k].weight > 0.0
  {
    [ Indicator(d.urgency, 0.25, "Contains urgency indicators"),
      Indicator(d.badGrammar, 0.2, "Contains suspicious formatting or promotional content"),
      Indicator(d.sensitiveInfo, 0.3, "Requests sensitive information"),
      Indicator(d.genericGreeting, 0.15, "Uses generic greeting"),
      Indicator(d.suspiciousLinks, 0.25, "Contains suspicious call-to-action phrases"),
      Indicator(d.threatLanguage, 0.3, "Contains threatening language about account status") ]
  }

  /** The legitimacy rules, in declaration order. */
  function LegitimatePatterns(d: Detectors): (ps: seq<string -> bool>)
    ensures |ps| == 3
  {
    [d.properFormatting, d.personalizedGreeting, d.businessSignature]
  }

  /** `indicator.pattern.test(email)`. */
  predicate Fires(ind: Indicator, email: string)
  {
    ind.pattern(email).Some?
  }

  /** The entry recorded for a match: the matched text in double quotes,
      then the rule's message. */
  function Quote(found: string, message: string): string
  {
    "\"" + found + "\" - " + message
  }

  /*** What the rule loop accumulates over the rules seen so far (each
       defined by its last step) ***/

  function WeightedMatches(t: seq<Indicator>, email: string): real
  {
    if t == [] then 0.0
    else
      var ind := t[|t| - 1];
      WeightedMatches(t[..|t| - 1], email) + (if Fires(ind, email) then ind.weight else 0.0)
  }

  function TotalWeight(t: seq<Indicator>): real
  {
    if t == [] then 0.0 else TotalWeight(t[..|t| - 1]) + t[|t| - 1].weight
  }

  function Reasons(t: seq<Indicator>, email: string): seq<string>
  {
    if t == [] then []
    else
      var ind := t[|t| - 1];
      Reasons(t[..|t| - 1], email) + (if Fires(ind, email) then [ind.message] else [])
  }

  function Matches(t: seq<Indicator>, email: string): seq<string>
  {
    if t == [] then []
    else
      var ind := t[|t| - 1];
      var m := ind.pattern(email);
      Matches(t[..|t| - 1], email)
        + (if m.Some? && m.value != [] then [Quote(m.value, ind.message)] else [])
  }

  /** How many legitimacy rules match. */
  function LegitimateHits(ps: seq<string -> bool>, email: string): nat
  {
    if ps == [] then 0
    else LegitimateHits(ps[..|ps| - 1], email) + (if ps[|ps| - 1](email) then 1 else 0)
  }

  /** `Math.max(0, Math.min(100, x))`. */
  function Clamp(x: real): (r: real)
    ensures 0.0 <= r <= 100.0
    ensures 0.0 <= x <= 100.0 ==> r == x
    ensures x < 0.0 ==> r == 0.0
    ensures 100.0 < x ==> r == 100.0
  {
    if 100.0 < x then 100.0 else if x < 0.0 then 0.0 else x
  }

  /** The sum of all six weights, whatever fires. */
  lemma TotalWeightIsConstant(d: Detectors)
    ensures TotalWeight(Indicators(d)) == 1.45
  {
    var t := Indicators(d);
    assert t[..1][..0] == [];
    assert TotalWeight(t[..1]) == 0.25;
    assert t[..2][..1] == t[..1];
    assert TotalWeight(t[..2]) == 0.45;
    assert t[..3][..2] == t[..2];
    assert TotalWeight(t[..3]) == 0.75;
    assert t[..4][..3] == t[..3];
    assert TotalWeight(t[..4]) == 0.9;
    assert t[..5][..4] == t[..4];
    assert TotalWeight(t[..5]) == 1.15;
    assert t[..5] == t[..|t| - 1];
  }

  /** The share of the total weight that fired, as a percentage. */
  function RawConfidence(d: Detectors, email: string): real
  {
    TotalWeightIsConstant(d);
    (WeightedMatches(Indicators(d), email) / TotalWeight(Indicators(d))) * 100.0
  }

  /** The score after the legitimacy discount and the clamp. */
  function Confidence(d: Detectors, email: string): real
  {
    Clamp(RawConfidence(d, email) - (0.2 * LegitimateHits(LegitimatePatterns(d), email) as real) * 25.0)
  }

  /*** The scorer ***/

  /** `analyzeEmail`: the loop over the rule table, the loop over the
      legitimacy rules, the clamp and the verdict. */
  method AnalyzeEmail(email: string, d: Detectors) returns (r: EmailVerdict)
    ensures 0.0 <= r.confidence <= 100.0
    ensures r.safe <==> r.confidence < 40.0
    ensures r.confidence == Confidence(d, email)
    ensures r.reasons == if Reasons(Indicators(d), email) == [] then [NoSuspiciousPatterns]
                         else Reasons(Indicators(d), email)
    ensures r.matches == Matches(Indicators(d), email)
  {
    var indicators := Indicators(d);
    var totalWeight := 0.0;
    var weightedMatches := 0.0;
    var reasons: seq<string> := [];
    var matches: seq<string> := [];

    for i := 0 to |indicators|
      invariant totalWeight == TotalWeight(indicators[..i])
      invariant weightedMatches == WeightedMatches(indicators[..i], email)
      invariant reasons == Reasons(indicators[..i], email)
      invariant matches == Matches(indicators[..i], email)
    {
      var indicator := indicators[i];
      assert indicators[..i + 1][..i] == indicators[..i];
      if indicator.pattern(email).Some? {
        weightedMatches := weightedMatches + indicator.weight;
        reasons := reasons + [indicator.message];
        var found := indicator.pattern(email);
        if found.Some? && found.value != [] {
          matches := matches + [Quote(found.value, indicator.message)];
        }
      }
      totalWeight := totalWeight + indicator.weight;
    }
    assert indicators[..|indicators|] == indicators;
    TotalWeightIsConstant(d);

    var confidence := (weightedMatches / totalWeight) * 100.0;

    // One hit per legitimacy rule that matches, worth 0.2 each.
    var legitimatePatterns := LegitimatePatterns(d);
    var legitimateScore := 0.0;
    for i := 0 to |legitimatePatterns|
      invariant legitimateScore == 0.2 * LegitimateHits(legitimatePatterns[..i], email) as real
    {
      assert legitimatePatterns[..i + 1][..i] == legitimatePatterns[..i];
      if legitimatePatterns[i](email) {
        legitimateScore := legitimateScore + 0.2;
      }
    }
    assert legitimatePatterns[..|legitimatePatterns|] == legitimatePatterns;

    // Each hit takes 5 points off; the result is clamped to [0, 100].
    var adjustedConfidence := Clamp(confidence - (legitimateScore * 25.0));

    r := EmailVerdict(adjustedConfidence < 40.0, adjustedConfidence,
                      if |reasons| > 0 then reasons else [NoSuspiciousPatterns], matches);
  }
}
