/** What the phishing scorer's specification functions promise: the score
    is a share of the fixed total weight, bounded, monotone in the rules
    that fire, the reasons and matches follow the rule order, and the
    legitimacy discount is 5 points per hit. */
module EmailProperties {
  import opened Wrappers
  import opened EmailAnalyzer

  predicate NonNegativeWeights(t: seq<Indicator>)
  {
    forall k :: 0 <= k < |t| ==> t[k].weight >= 0.0
  }

  /** The weight that fired is between nothing and everything. */
  lemma {:induction false} WeightedMatchesBounded(t: seq<Indicator>, email: string)
    requires NonNegativeWeights(t)
    ensures 0.0 <= WeightedMatches(t, email) <= TotalWeight(t)
  {
    if t != [] {
      WeightedMatchesBounded(t[..|t| - 1], email);
    }
  }

  /** The raw confidence never needs the upper clamp: it is at most 100. */
  lemma RawConfidenceInRange(d: Detectors, email: string)
    ensures 0.0 <= RawConfidence(d, email) <= 100.0
  {
    WeightedMatchesBounded(Indicators(d), email);
    TotalWeightIsConstant(d);
  }

  lemma {:induction false} LegitimateHitsBounded(ps: seq<string -> bool>, email: string)
    ensures LegitimateHits(ps, email) <= |ps|
  {
    if ps != [] {
      LegitimateHitsBounded(ps[..|ps| - 1], email);
    }
  }

  /** The returned confidence is 100 * w / 1.45 less 5 points per
      legitimacy hit, floored at 0; the discount is at most 15 points. */
  lemma ConfidenceFormula(d: Detectors, email: string)
    ensures var k := LegitimateHits(LegitimatePatterns(d), email);
            var x := 100.0 * WeightedMatches(Indicators(d), email) / 1.45 - 5.0 * k as real;
            && k <= 3
            && Confidence(d, email) == if x < 0.0 then 0.0 else x
  {
    RawConfidenceInRange(d, email);
    TotalWeightIsConstant(d);
    LegitimateHitsBounded(LegitimatePatterns(d), email);
  }

  /*** No suspicion ***/

  lemma {:induction false} NothingFiredNothingWeighed(t: seq<Indicator>, email: string)
    requires forall k :: 0 <= k < |t| ==> !Fires(t[k], email)
    ensures WeightedMatches(t, email) == 0.0 && Reasons(t, email) == [] && Matches(t, email) == []
  {
    if t != [] {
      NothingFiredNothingWeighed(t[..|t| - 1], email);
    }
  }

  /** When no suspicion rule fires the confidence is 0, so the email is
      judged safe, and the reasons are the placeholder alone. */
  lemma NoSuspicionIsSafe(d: Detectors, email: string)
    requires forall k :: 0 <= k < 6 ==> !Fires(Indicators(d)[k], email)
    ensures Confidence(d, email) == 0.0 && Confidence(d, email) < 40.0
    ensures Reasons(Indicators(d), email) == [] && Matches(Indicators(d), email) == []
  {
    NothingFiredNothingWeighed(Indicators(d), email);
    ConfidenceFormula(d, email);
  }

  /*** Order of reasons and matches ***/

  /** The k-th reason is the message of the k-th rule that fires, in
      declaration order. */
  lemma {:induction false} ReasonsInRuleOrder(t: seq<Indicator>, email: string, k: nat)
    requires k < |Reasons(t, email)|
    ensures exists j :: 0 <= j < |t| && Fires(t[j], email) && Reasons(t, email)[k] == t[j].message
                        && |Reasons(t[..j], email)| == k
  {
    var p := t[..|t| - 1];
    if k < |Reasons(p, email)| {
      ReasonsInRuleOrder(p, email, k);
      var j :| 0 <= j < |p| && Fires(p[j], email) && Reasons(p, email)[k] == p[j].message
               && |Reasons(p[..j], email)| == k;
      assert t[j] == p[j] && t[..j] == p[..j];
    } else {
      assert t[..|t| - 1] == p;
    }
  }

  /** At most one match per fired rule, and each match quotes the non-empty
      text a fired rule found, in rule order. */
  lemma {:induction false} MatchesFollowFiredRules(t: seq<Indicator>, email: string)
    ensures |Matches(t, email)| <= |Reasons(t, email)| <= |t|
    ensures forall k :: 0 <= k < |Matches(t, email)| ==>
              exists j :: 0 <= j < |t| && Fires(t[j], email) && t[j].pattern(email).value != []
                          && Matches(t, email)[k] == Quote(t[j].pattern(email).value, t[j].message)
                          && |Matches(t[..j], email)| == k
  {
    if t != [] {
      var p := t[..|t| - 1];
      MatchesFollowFiredRules(p, email);
      forall k | 0 <= k < |Matches(t, email)|
        ensures exists j :: 0 <= j < |t| && Fires(t[j], email) && t[j].pattern(email).value != []
                            && Matches(t, email)[k] == Quote(t[j].pattern(email).value, t[j].message)
                            && |Matches(t[..j], email)| == k
      {
        if k < |Matches(p, email)| {
          var j :| 0 <= j < |p| && Fires(p[j], email) && p[j].pattern(email).value != []
                   && Matches(p, email)[k] == Quote(p[j].pattern(email).value, p[j].message)
                   && |Matches(p[..j], email)| == k;
          assert t[j] == p[j] && t[..j] == p[..j];
        } else {
          var j := |t| - 1;
          assert t[..j] == p;
          assert Matches(t, email)[k] == Quote(t[j].pattern(email).value, t[j].message);
        }
      }
      var ind := t[|t| - 1];
      var m := ind.pattern(email);
      assert |Matches(t, email)| == |Matches(p, email)| + (if m.Some? && m.value != [] then 1 else 0);
      assert |Reasons(t, email)| == |Reasons(p, email)| + (if m.Some? then 1 else 0);
    }
  }

  /** Every rule whose pattern finds non-empty text contributes its quote,
      right after the quotes of the rules before it. */
  lemma {:induction false} FiredRulesAreMatched(t: seq<Indicator>, email: string, j: nat)
    requires j < |t| && t[j].pattern(email).Some? && t[j].pattern(email).value != []
    ensures |Matches(t[..j], email)| < |Matches(t, email)|
    ensures Matches(t, email)[|Matches(t[..j], email)|] == Quote(t[j].pattern(email).value, t[j].message)
  {
    var p := t[..|t| - 1];
    if j == |t| - 1 {
      assert t[..j] == p;
    } else {
      FiredRulesAreMatched(p, email, j);
      assert p[..j] == t[..j] && p[j] == t[j];
    }
  }

  /*** Monotonicity ***/

  lemma {:induction false} WeightedMatchesMonotone(t: seq<Indicator>, e1: string, e2: string)
    requires NonNegativeWeights(t)
    requires forall k :: 0 <= k < |t| && Fires(t[k], e1) ==> Fires(t[k], e2)
    ensures WeightedMatches(t, e1) <= WeightedMatches(t, e2)
  {
    if t != [] {
      WeightedMatchesMonotone(t[..|t| - 1], e1, e2);
    }
  }

  /** With the same legitimacy hits, more suspicion rules firing never
      lowers the confidence. */
  lemma MoreSuspicionNeverLowers(d: Detectors, e1: string, e2: string)
    requires forall k :: 0 <= k < 6 && Fires(Indicators(d)[k], e1) ==> Fires(Indicators(d)[k], e2)
    requires LegitimateHits(LegitimatePatterns(d), e1) == LegitimateHits(LegitimatePatterns(d), e2)
    ensures Confidence(d, e1) <= Confidence(d, e2)
  {
    WeightedMatchesMonotone(Indicators(d), e1, e2);
    ConfidenceFormula(d, e1);
    ConfidenceFormula(d, e2);
  }

  /** With the same suspicion rules firing, more legitimacy hits never
      raise the confidence. */
  lemma MoreLegitimacyNeverRaises(d: Detectors, e1: string, e2: string)
    requires forall k :: 0 <= k < 6 ==> (Fires(Indicators(d)[k], e1) <==> Fires(Indicators(d)[k], e2))
    requires LegitimateHits(LegitimatePatterns(d), e1) <= LegitimateHits(LegitimatePatterns(d), e2)
    ensures Confidence(d, e2) <= Confidence(d, e1)
  {
    WeightedMatchesMonotone(Indicators(d), e1, e2);
    WeightedMatchesMonotone(Indicators(d), e2, e1);
    ConfidenceFormula(d, e1);
    ConfidenceFormula(d, e2);
  }

  /*** The threshold ***/

  lemma {:induction false} WeightPerReason(t: seq<Indicator>, email: string)
    requires forall k :: 0 <= k < |t| ==> t[k].weight <= 0.3
    ensures WeightedMatches(t, email) <= 0.3 * |Reasons(t, email)| as real
  {
    if t != [] {
      WeightPerReason(t[..|t| - 1], email);
    }
  }

  /** No single rule can flag an email: the heaviest weighs 0.3 of 1.45,
      about 20.7 points, so at least two rules must fire for an unsafe
      verdict. */
  lemma OneRuleNeverFlags(d: Detectors, email: string)
    requires |Reasons(Indicators(d), email)| <= 1
    ensures Confidence(d, email) < 40.0
  {
    WeightPerReason(Indicators(d), email);
    ConfidenceFormula(d, email);
  }

  /** Two rules can: the sensitive-information and threat rules together
      score 0.6 of 1.45, above 40 points when no legitimacy rule matches. */
  lemma TwoHeavyRulesFlag(d: Detectors, email: string)
    requires Fires(Indicators(d)[2], email) && Fires(Indicators(d)[5], email)
    requires LegitimateHits(LegitimatePatterns(d), email) == 0
    ensures Confidence(d, email) >= 40.0
  {
    var t := Indicators(d);
    WeightedAtLeast(t, email, 2, 5);
    ConfidenceFormula(d, email);
  }

  lemma {:induction false} WeightedAtLeast(t: seq<Indicator>, email: string, i: nat, j: nat)
    requires NonNegativeWeights(t)
    requires i < j < |t| && Fires(t[i], email) && Fires(t[j], email)
    ensures WeightedMatches(t, email) >= t[i].weight + t[j].weight
  {
    var p := t[..|t| - 1];
    if j < |t| - 1 {
      WeightedAtLeast(p, email, i, j);
    } else {
      WeightedAtLeastOne(p, email, i);
    }
  }

  lemma {:induction false} WeightedAtLeastOne(t: seq<Indicator>, email: string, i: nat)
    requires NonNegativeWeights(t)
    requires i < |t| && Fires(t[i], email)
    ensures WeightedMatches(t, email) >= t[i].weight
  {
    var p := t[..|t| - 1];
    if i < |t| - 1 {
      WeightedAtLeastOne(p, email, i);
    } else {
      WeightedMatchesBounded(p, email);
    }
  }

  /*** The score as a closed formula over which rules fire ***/

  function Hit(b: bool, w: real): real
  {
    if b then w else 0.0
  }

  /** The weighted sum written out rule by rule, in the table's order. */
  lemma WeightedMatchesUnrolled(d: Detectors, email: string)
    ensures var t := Indicators(d);
            WeightedMatches(t, email)
            == Hit(Fires(t[0], email), 0.25) + Hit(Fires(t[1], email), 0.2) + Hit(Fires(t[2], email), 0.3)
               + Hit(Fires(t[3], email), 0.15) + Hit(Fires(t[4], email), 0.25) + Hit(Fires(t[5], email), 0.3)
  {
    var t := Indicators(d);
    PrefixesOfSix(t);
    assert WeightedMatches(t[..1], email) == Hit(Fires(t[0], email), 0.25);
    assert WeightedMatches(t[..2], email) == WeightedMatches(t[..1], email) + Hit(Fires(t[1], email), 0.2);
    assert WeightedMatches(t[..3], email) == WeightedMatches(t[..2], email) + Hit(Fires(t[2], email), 0.3);
    assert WeightedMatches(t[..4], email) == WeightedMatches(t[..3], email) + Hit(Fires(t[3], email), 0.15);
    assert WeightedMatches(t[..5], email) == WeightedMatches(t[..4], email) + Hit(Fires(t[4], email), 0.25);
  }

  function Say(b: bool, message: string): seq<string>
  {
    if b then [message] else []
  }

  /** The reasons are the six messages, each one present exactly when its
      rule fires, in the table's order. */
  lemma ReasonsUnrolled(d: Detectors, email: string)
    ensures var t := Indicators(d);
            Reasons(t, email)
            == Say(Fires(t[0], email), "Contains urgency indicators")
               + Say(Fires(t[1], email), "Contains suspicious formatting or promotional content")
               + Say(Fires(t[2], email), "Requests sensitive information")
               + Say(Fires(t[3], email), "Uses generic greeting")
               + Say(Fires(t[4], email), "Contains suspicious call-to-action phrases")
               + Say(Fires(t[5], email), "Contains threatening language about account status")
  {
    var t := Indicators(d);
    PrefixesOfSix(t);
    assert Reasons(t[..1], email) == Say(Fires(t[0], email), t[0].message);
    assert Reasons(t[..2], email) == Reasons(t[..1], email) + Say(Fires(t[1], email), t[1].message);
    assert Reasons(t[..3], email) == Reasons(t[..2], email) + Say(Fires(t[2], email), t[2].message);
    assert Reasons(t[..4], email) == Reasons(t[..3], email) + Say(Fires(t[3], email), t[3].message);
    assert Reasons(t[..5], email) == Reasons(t[..4], email) + Say(Fires(t[4], email), t[4].message);
    assert Reasons(t, email) == Reasons(t[..5], email) + Say(Fires(t[5], email), t[5].message);
  }

  function Once(b: bool): nat
  {
    if b then 1 else 0
  }

  /** One legitimacy hit per matching rule: formatting, greeting, signature. */
  lemma LegitimateHitsUnrolled(d: Detectors, email: string)
    ensures LegitimateHits(LegitimatePatterns(d), email)
            == Once(d.properFormatting(email)) + Once(d.personalizedGreeting(email))
               + Once(d.businessSignature(email))
  {
    var ps := LegitimatePatterns(d);
    assert ps[..1][..0] == [] && ps[..2][..1] == ps[..1] && ps[..|ps| - 1] == ps[..2];
    assert LegitimateHits(ps[..1], email) == Once(d.properFormatting(email));
    assert LegitimateHits(ps[..2], email) == LegitimateHits(ps[..1], email) + Once(d.personalizedGreeting(email));
  }

  /** A recorded match shows the matched text between double quotes, then
      " - ", then the rule's message; both parts can be read back. */
  lemma QuoteShowsMatchAndMessage(found: string, message: string)
    ensures var q := Quote(found, message);
            && |q| == |found| + |message| + 5
            && q[0] == '"' && q[1..|found| + 1] == found
            && q[|found| + 1..|found| + 5] == "\" - "
            && q[|found| + 5..] == message
  {
  }

  lemma PrefixesOfSix<T>(t: seq<T>)
    requires |t| == 6
    ensures t[..1][..0] == [] && t[..2][..1] == t[..1] && t[..3][..2] == t[..2]
    ensures t[..4][..3] == t[..3] && t[..5][..4] == t[..4] && t[..|t| - 1] == t[..5]
  {
  }

  /** A phishing-style email on which every rule but the call-to-action
      one fires and the greeting counts as personalised: five reasons and
      100 * 1.2 / 1.45 - 5 points, so it is flagged. */
  lemma PhishingExample(d: Detectors, email: string)
    requires var t := Indicators(d);
             && Fires(t[0], email) && Fires(t[1], email) && Fires(t[2], email)
             && Fires(t[3], email) && !Fires(t[4], email) && Fires(t[5], email)
    requires LegitimateHits(LegitimatePatterns(d), email) == 1
    ensures Confidence(d, email) == 100.0 * 1.2 / 1.45 - 5.0
    ensures Confidence(d, email) >= 40.0
    ensures Reasons(Indicators(d), email)
            == ["Contains urgency indicators", "Contains suspicious formatting or promotional content",
                "Requests sensitive information", "Uses generic greeting",
                "Contains threatening language about account status"]
  {
    WeightedMatchesUnrolled(d, email);
    ReasonsUnrolled(d, email);
    ConfidenceFormula(d, email);
  }

  /** A friendly email in which only the formatting rule fires (any run
      of five letters matches it, the pattern being case-insensitive) and
      all three legitimacy rules match: the discount outweighs the rule and
      the confidence is 0, yet the reason list is not the placeholder. */
  lemma FriendlyExample(d: Detectors, email: string)
    requires var t := Indicators(d);
             && !Fires(t[0], email) && Fires(t[1], email) && !Fires(t[2], email)
             && !Fires(t[3], email) && !Fires(t[4], email) && !Fires(t[5], email)
    requires LegitimateHits(LegitimatePatterns(d), email) == 3
    ensures Confidence(d, email) == 0.0
    ensures Reasons(Indicators(d), email) == ["Contains suspicious formatting or promotional content"]
  {
    WeightedMatchesUnrolled(d, email);
    ReasonsUnrolled(d, email);
    ConfidenceFormula(d, email);
  }
}
