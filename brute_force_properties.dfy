/** What the log scorer's specification functions promise: the IP list is
    duplicate-free and in order of first appearance, the per-IP counts add
    up, the details are the failed lines in order, and the pattern rules
    mean what their messages say. */
module BruteForceProperties {
  import opened Wrappers
  import opened Text
  import opened BruteForceDetector

  /*** Lines ***/

  /** Every retained line is one `\n`-free line of the input that has a
      character other than white space; every such line is retained, as
      often as it occurs and in input order; so `attempts` is the number of
      non-blank lines. */
  lemma RetainedLinesAreNonBlankLines(text: string)
    ensures forall k :: 0 <= k < |RetainedLines(text)| ==>
              '\n' !in RetainedLines(text)[k] && !IsBlank(RetainedLines(text)[k])
    ensures forall line :: line in Split(text, '\n') && !IsBlank(line) ==> line in RetainedLines(text)
    ensures forall x :: multiset(RetainedLines(text))[x]
                        == if IsBlank(x) then 0 else multiset(Split(text, '\n'))[x]
    ensures |RetainedLines(text)| == |NonBlankIndices(Split(text, '\n'))|
  {
    KeptLines(Split(text, '\n'), '\n');
  }

  /** The same facts for any list of separator-free lines. */
  lemma KeptLines(lines: seq<string>, sep: char)
    requires forall k :: 0 <= k < |lines| ==> sep !in lines[k]
    ensures forall k :: 0 <= k < |Filter(lines, HasContent)| ==>
              sep !in Filter(lines, HasContent)[k] && !IsBlank(Filter(lines, HasContent)[k])
    ensures forall line :: line in lines && !IsBlank(line) ==> line in Filter(lines, HasContent)
    ensures forall x :: multiset(Filter(lines, HasContent))[x] == if IsBlank(x) then 0 else multiset(lines)[x]
    ensures |Filter(lines, HasContent)| == |NonBlankIndices(lines)|
  {
    var r := Filter(lines, HasContent);
    KeptAreNonBlank(lines);
    FilterCount(lines, HasContent);
    KeptIndicesAreNonBlank(lines);
    forall k | 0 <= k < |r|
      ensures sep !in r[k] && !IsBlank(r[k])
    {
      assert multiset(r)[r[k]] > 0;
      assert r[k] in lines;
      var j :| 0 <= j < |lines| && lines[j] == r[k];
    }
    forall line | line in lines && !IsBlank(line)
      ensures line in r
    {
      assert multiset(r)[line] > 0;
    }
  }

  /** `HasContent` is the complement of blankness. */
  lemma HasContentIffNotBlank()
    ensures forall x :: HasContent(x) <==> !IsBlank(x)
  {
    forall x ensures HasContent(x) <==> !IsBlank(x) {
      TrimEmptyIffBlank(x);
    }
  }

  /** The filter keeps each non-blank line exactly as often as it occurs. */
  lemma KeptAreNonBlank(lines: seq<string>)
    ensures forall x :: multiset(Filter(lines, HasContent))[x] == if IsBlank(x) then 0 else multiset(lines)[x]
  {
    FilterKeepsMultiplicity(lines, HasContent);
    HasContentIffNotBlank();
  }

  /** The positions the filter accepts are the non-blank positions. */
  lemma KeptIndicesAreNonBlank(lines: seq<string>)
    ensures KeptIndices(lines, HasContent) == NonBlankIndices(lines)
  {
    HasContentIffNotBlank();
  }

  /** The positions of the non-blank lines. */
  function NonBlankIndices(lines: seq<string>): set<nat>
  {
    set k: nat | k < |lines| && !IsBlank(lines[k])
  }

  /** The positions of the lines `keep` accepts. */
  function KeptIndices(lines: seq<string>, keep: string -> bool): set<nat>
  {
    set k: nat | k < |lines| && keep(lines[k])
  }

  /** The filter keeps each accepted line exactly as often as it occurs. */
  lemma {:induction false} FilterKeepsMultiplicity(lines: seq<string>, keep: string -> bool)
    ensures forall x :: multiset(Filter(lines, keep))[x] == if keep(x) then multiset(lines)[x] else 0
  {
    if lines != [] {
      var head := if keep(lines[0]) then [lines[0]] else [];
      var rest := lines[1..];
      FilterKeepsMultiplicity(rest, keep);
      assert multiset(lines) == multiset{lines[0]} + multiset(rest) by {
        assert lines == [lines[0]] + rest;
      }
      assert multiset(Filter(lines, keep)) == multiset(head) + multiset(Filter(rest, keep));
    }
  }

  /** The filter keeps input order: filtering a concatenation concatenates
      the filtered parts, and a single line is kept exactly when accepted. */
  lemma {:induction false} FilterIsHomomorphic(xs: seq<string>, ys: seq<string>, keep: string -> bool)
    ensures Filter(xs + ys, keep) == Filter(xs, keep) + Filter(ys, keep)
  {
    if xs == [] {
      assert xs + ys == ys;
    } else {
      var head := if keep(xs[0]) then [xs[0]] else [];
      assert (xs + ys)[0] == xs[0];
      assert (xs + ys)[1..] == xs[1..] + ys;
      calc {
        Filter(xs + ys, keep);
        head + Filter(xs[1..] + ys, keep);
        { FilterIsHomomorphic(xs[1..], ys, keep); }
        head + (Filter(xs[1..], keep) + Filter(ys, keep));
        (head + Filter(xs[1..], keep)) + Filter(ys, keep);
      }
    }
  }

  /** The number of lines kept is the number of accepted positions. */
  lemma {:induction false} FilterCount(lines: seq<string>, keep: string -> bool)
    ensures |Filter(lines, keep)| == |KeptIndices(lines, keep)|
  {
    if lines != [] {
      var n := |lines|;
      var p := lines[..n - 1];
      FilterCount(p, keep);
      FilterIsHomomorphic(p, [lines[n - 1]], keep);
      assert lines == p + [lines[n - 1]];
      assert [lines[n - 1]][1..] == [];
      IndicesStep(lines, keep);
    }
  }

  /** One more line adds its position when it is accepted. */
  lemma IndicesStep(lines: seq<string>, keep: string -> bool)
    requires lines != []
    ensures var n := |lines|;
            |KeptIndices(lines, keep)|
            == |KeptIndices(lines[..n - 1], keep)| + if keep(lines[n - 1]) then 1 else 0
  {
    var n := |lines|;
    var s := KeptIndices(lines[..n - 1], keep);
    assert n - 1 !in s;
    if keep(lines[n - 1]) {
      assert KeptIndices(lines, keep) == s + {n - 1};
    } else {
      assert KeptIndices(lines, keep) == s;
    }
  }

  /** Empty input gives no attempts. */
  lemma NoTextNoAttempts()
    ensures RetainedLines("") == []
  {
    assert Split("", '\n') == [""];
    TrimEmptyIffBlank("");
  }

  /*** Times and details ***/

  /** The time list keeps input order: the times of a concatenation are the
      times of its parts. */
  lemma {:induction false} TimesOfConcat(xs: seq<LogEntry>, ys: seq<LogEntry>)
    ensures Times(xs + ys) == Times(xs) + Times(ys)
  {
    if ys == [] {
      assert xs + ys == xs;
    } else {
      var q := ys[..|ys| - 1];
      TimesOfConcat(xs, q);
      assert (xs + ys)[..|xs + ys| - 1] == xs + q;
    }
  }

  /** A line adds its time exactly when it has one. */
  lemma TimesOfLine(e: LogEntry)
    ensures Times([e]) == if e.time.Some? then [e.time.value] else []
  {
    assert [e][..0] == [];
  }

  /** The sentence for a failed login names the source address, or
      "unknown IP", and ends by naming the user when one was extracted. */
  lemma DescribeNamesSource(e: LogEntry)
    ensures var lead := "Failed login attempt from " + (if Present(e.ip) then e.ip.value else "unknown IP");
            && lead <= Describe(e)
            && (Present(e.user) ==> Describe(e)[|lead|..] == " for user " + e.user.value)
            && (!Present(e.user) ==> Describe(e) == lead)
  {
  }

  /*** The unique IPs ***/

  predicate NoDuplicates(s: seq<string>)
  {
    forall i, j :: 0 <= i < j < |s| ==> s[i] != s[j]
  }

  /** The position of the first `x` in `s`. */
  function FirstIndex(s: seq<string>, x: string): (i: nat)
    requires x in s
    ensures i < |s| && s[i] == x && x !in s[..i]
  {
    if s[0] == x then 0
    else
      var i := FirstIndex(s[1..], x);
      assert s[1..][..i] == s[1..i + 1];
      assert s[..i + 1] == [s[0]] + s[1..i + 1];
      i + 1
  }

  /** The IPs seen are exactly those extracted from some line. */
  lemma {:induction false} IPsSeenFromLines(es: seq<LogEntry>)
    ensures forall x :: x in IPsSeen(es) <==> exists j :: 0 <= j < |es| && Present(es[j].ip) && es[j].ip.value == x
  {
    if es != [] {
      var p := es[..|es| - 1];
      IPsSeenFromLines(p);
      forall x ensures x in IPsSeen(es) <==> exists j :: 0 <= j < |es| && Present(es[j].ip) && es[j].ip.value == x
      {
        if exists j :: 0 <= j < |es| && Present(es[j].ip) && es[j].ip.value == x {
          var j :| 0 <= j < |es| && Present(es[j].ip) && es[j].ip.value == x;
          if j < |p| { assert p[j] == es[j]; }
        }
        if x in IPsSeen(p) {
          var j :| 0 <= j < |p| && Present(p[j].ip) && p[j].ip.value == x;
          assert es[j] == p[j];
        }
      }
    }
  }

  /** The user set holds exactly the names extracted from some line. */
  lemma {:induction false} UsersFromLines(es: seq<LogEntry>)
    ensures forall x :: x in Users(es) <==> exists j :: 0 <= j < |es| && Present(es[j].user) && es[j].user.value == x
  {
    if es != [] {
      var p := es[..|es| - 1];
      UsersFromLines(p);
      forall x ensures x in Users(es) <==> exists j :: 0 <= j < |es| && Present(es[j].user) && es[j].user.value == x
      {
        if exists j :: 0 <= j < |es| && Present(es[j].user) && es[j].user.value == x {
          var j :| 0 <= j < |es| && Present(es[j].user) && es[j].user.value == x;
          if j < |p| { assert p[j] == es[j]; }
        }
        if x in Users(p) {
          var j :| 0 <= j < |p| && Present(p[j].user) && p[j].user.value == x;
          assert es[j] == p[j];
        }
      }
    }
  }

  lemma {:induction false} DedupNoDuplicates(s: seq<string>)
    ensures NoDuplicates(Dedup(s))
  {
    if s != [] {
      DedupNoDuplicates(s[..|s| - 1]);
    }
  }

  lemma {:induction false} FirstIndexExtend(p: seq<string>, y: string, x: string)
    requires x in p
    ensures FirstIndex(p + [y], x) == FirstIndex(p, x)
  {
    if p[0] != x {
      assert (p + [y])[1..] == p[1..] + [y];
      FirstIndexExtend(p[1..], y, x);
    }
  }

  lemma {:induction false} FirstIndexNew(p: seq<string>, y: string)
    requires y !in p
    ensures FirstIndex(p + [y], y) == |p|
  {
    if p != [] {
      assert (p + [y])[1..] == p[1..] + [y];
      FirstIndexNew(p[1..], y);
    }
  }

  /** `uniqueIPs` lists each IP seen once, in order of first appearance. */
  lemma {:induction false} DedupFirstAppearanceOrder(s: seq<string>, a: nat, b: nat)
    requires a < b < |Dedup(s)|
    ensures Dedup(s)[a] in s && Dedup(s)[b] in s
    ensures FirstIndex(s, Dedup(s)[a]) < FirstIndex(s, Dedup(s)[b])
  {
    var p, y := s[..|s| - 1], s[|s| - 1];
    assert s == p + [y];
    var d := Dedup(p);
    DedupSameElements(p);
    DedupSameElements(s);
    if b < |d| {
      DedupFirstAppearanceOrder(p, a, b);
      FirstIndexExtend(p, y, d[a]);
      FirstIndexExtend(p, y, d[b]);
    } else {
      assert Dedup(s) == d + [y] && y !in p;
      FirstIndexNew(p, y);
      FirstIndexExtend(p, y, d[a]);
    }
  }

  /*** The per-IP counts ***/

  /** How many times `x` occurs in `s`. */
  function Count(s: seq<string>, x: string): nat
  {
    if s == [] then 0 else Count(s[..|s| - 1], x) + (if s[|s| - 1] == x then 1 else 0)
  }

  /** The lines whose IP match is `x`. */
  function LinesWithIP(es: seq<LogEntry>, x: string): set<nat>
  {
    set j: nat | j < |es| && Present(es[j].ip) && es[j].ip.value == x
  }

  /** The lines that carry an IP at all. */
  function LinesWithAnyIP(es: seq<LogEntry>): set<nat>
  {
    set j: nat | j < |es| && Present(es[j].ip)
  }

  /** Each occurrence of `x` in the IP list stands for one line whose IP is `x`. */
  lemma {:induction false} IPCountIsLineCount(es: seq<LogEntry>, x: string)
    ensures Count(IPsSeen(es), x) == |LinesWithIP(es, x)|
  {
    if es != [] {
      var n := |es| - 1;
      var p := es[..n];
      IPCountIsLineCount(p, x);
      var s := IPsSeen(p);
      if Present(es[n].ip) {
        assert IPsSeen(es) == s + [es[n].ip.value];
        assert (s + [es[n].ip.value])[..|s|] == s;
      } else {
        assert IPsSeen(es) == s + [] == s;
      }
      if Present(es[n].ip) && es[n].ip.value == x {
        assert LinesWithIP(es, x) == LinesWithIP(p, x) + {n};
      } else {
        assert LinesWithIP(es, x) == LinesWithIP(p, x);
      }
    }
  }

  /** The IP list has one entry per line that carries an IP. */
  lemma {:induction false} IPEntriesAreLines(es: seq<LogEntry>)
    ensures |IPsSeen(es)| == |LinesWithAnyIP(es)|
  {
    if es != [] {
      var n := |es| - 1;
      var p := es[..n];
      IPEntriesAreLines(p);
      if Present(es[n].ip) {
        assert LinesWithAnyIP(es) == LinesWithAnyIP(p) + {n};
      } else {
        assert LinesWithAnyIP(es) == LinesWithAnyIP(p);
      }
    }
  }

  /** `ipAttempts.get(x)` is the number of entries of `x` in the IP list. */
  lemma {:induction false} TallyIsCount(s: seq<string>)
    ensures forall x :: Count(s, x) == if x in Tally(s) then Tally(s)[x] else 0
  {
    if s != [] {
      TallyIsCount(s[..|s| - 1]);
    }
  }

  /** The sum of `m` over the keys `keys`. */
  function SumOver(keys: seq<string>, m: map<string, nat>): nat
    requires forall k :: 0 <= k < |keys| ==> keys[k] in m
  {
    if keys == [] then 0 else SumOver(keys[..|keys| - 1], m) + m[keys[|keys| - 1]]
  }

  lemma {:induction false} SumOverOther(keys: seq<string>, m: map<string, nat>, y: string, v: nat)
    requires forall k :: 0 <= k < |keys| ==> keys[k] in m
    requires y !in keys
    ensures SumOver(keys, m[y := v]) == SumOver(keys, m)
  {
    if keys != [] {
      SumOverOther(keys[..|keys| - 1], m, y, v);
    }
  }

  lemma {:induction false} SumOverBump(keys: seq<string>, m: map<string, nat>, y: string)
    requires forall k :: 0 <= k < |keys| ==> keys[k] in m
    requires NoDuplicates(keys) && y in keys
    ensures SumOver(keys, m[y := m[y] + 1]) == SumOver(keys, m) + 1
  {
    var p, z := keys[..|keys| - 1], keys[|keys| - 1];
    if z == y {
      assert y !in p;
      SumOverOther(p, m, y, m[y] + 1);
    } else {
      assert y in p;
      SumOverBump(p, m, y);
    }
  }

  /** The per-IP counts add up to the number of lines that yielded an IP. */
  lemma {:induction false} TallySumsToLines(s: seq<string>)
    ensures forall k :: 0 <= k < |Dedup(s)| ==> Dedup(s)[k] in Tally(s)
    ensures SumOver(Dedup(s), Tally(s)) == |s|
  {
    TallyKeys(s);
    if s != [] {
      var p, y := s[..|s| - 1], s[|s| - 1];
      TallySumsToLines(p);
      TallyKeys(p);
      DedupSameElements(p);
      DedupNoDuplicates(p);
      var d, m := Dedup(p), Tally(p);
      if y in d {
        SumOverBump(d, m, y);
      } else {
        assert y !in m;
        SumOverOther(d, m, y, 1);
        assert Dedup(s)[..|Dedup(s)| - 1] == d;
      }
    }
  }

  /*** The concentrated-attack rule ***/

  /** The concentrated-attack pattern appears exactly when some IP occurs
      on more than 10 lines; with no IP at all it does not appear. */
  lemma ConcentratedIffBusyIP(seen: seq<string>)
    ensures seen == [] ==> MaxAttemptsPerIP(seen) == None
    ensures ConcentrationPatterns(MaxAttemptsPerIP(seen)) != []
            <==> exists x :: x in seen && Count(seen, x) > 10
  {
    TallyKeys(seen);
    TallyIsCount(seen);
    DedupSameElements(seen);
    var d, m := Dedup(seen), Tally(seen);
    var cs := CountsOf(d, m);
    if exists x :: x in seen && Count(seen, x) > 10 {
      var x :| x in seen && Count(seen, x) > 10;
      var k :| 0 <= k < |d| && d[k] == x;
      assert cs[k] == Count(seen, x);
    }
    if ConcentrationPatterns(MaxAttemptsPerIP(seen)) != [] {
      var k :| 0 <= k < |cs| && cs[k] == MaxOf(cs).value;
      assert d[k] in seen && Count(seen, d[k]) > 10;
    }
  }

  /*** Details ***/

  /** The k-th detail describes the k-th failed-login line: the line `j`
      that is a failed login and has exactly `k` failed lines before it. */
  lemma {:induction false} DetailsAreFailedLinesInOrder(es: seq<LogEntry>, k: nat)
    requires k < |FailureDetails(es)|
    ensures exists j :: 0 <= j < |es| && es[j].failedLogin
                        && FailureDetails(es)[k] == Describe(es[j])
                        && |FailureDetails(es[..j])| == k
  {
    var p := es[..|es| - 1];
    if k < |FailureDetails(p)| {
      DetailsAreFailedLinesInOrder(p, k);
      var j :| 0 <= j < |p| && p[j].failedLogin && FailureDetails(p)[k] == Describe(p[j])
               && |FailureDetails(p[..j])| == k;
      assert es[j] == p[j] && es[..j] == p[..j];
    } else {
      assert es[..|es| - 1] == p;
    }
  }

  /** Every failed-login line yields its detail, at the position given by
      the number of failed lines before it. */
  lemma {:induction false} FailedLinesAreDetailed(es: seq<LogEntry>, j: nat)
    requires j < |es| && es[j].failedLogin
    ensures |FailureDetails(es[..j])| < |FailureDetails(es)|
    ensures FailureDetails(es)[|FailureDetails(es[..j])|] == Describe(es[j])
  {
    var p := es[..|es| - 1];
    if j == |es| - 1 {
      assert es[..j] == p;
    } else {
      FailedLinesAreDetailed(p, j);
      assert p[..j] == es[..j] && p[j] == es[j];
    }
  }

  /** Lines without "Failed login" contribute no detail. */
  lemma {:induction false} NoFailuresNoDetails(es: seq<LogEntry>)
    requires forall j :: 0 <= j < |es| ==> !es[j].failedLogin
    ensures FailureDetails(es) == []
  {
    if es != [] {
      NoFailuresNoDetails(es[..|es| - 1]);
    }
  }

  /*** The frequency rule ***/

  /** The high-frequency pattern appears exactly when more lines were
      retained than whole seconds elapsed, in milliseconds: 1000 * lines > window. */
  lemma FrequencyIffFasterThanOnePerSecond(attempts: nat, windowMs: int)
    ensures FrequencyPatterns(attempts, windowMs) != [] <==> windowMs > 0 && 1000 * attempts > windowMs
  {
    if windowMs > 0 {
      var t := Seconds(windowMs);
      QuotientAboveOne(attempts as real, t);
      assert (attempts as real > t) <==> 1000 * attempts > windowMs;
    }
  }

  lemma QuotientAboveOne(x: real, t: real)
    requires t > 0.0
    ensures x / t > 1.0 <==> x > t
  {
    var q := x / t;
    assert q * t == x;
    if q > 1.0 { assert q * t > 1.0 * t; }
  }

  /*** The timing rule ***/

  lemma {:induction false} SumOfConstant(ivs: seq<int>, c: int)
    requires forall k :: 0 <= k < |ivs| ==> ivs[k] == c
    ensures Sum(ivs) == |ivs| * c
  {
    if ivs != [] {
      SumOfConstant(ivs[..|ivs| - 1], c);
    }
  }

  /** Timestamps a fixed step apart, seven or more of them, always raise
      the consistent-timing pattern. */
  lemma SteadyTimesAreConsistent(times: seq<int>, step: int)
    requires |times| >= 7
    requires forall k :: 0 <= k < |times| - 1 ==> times[k + 1] - times[k] == step
    ensures TimingPatterns(times) == [Pattern(ConsistentTiming, HighSeverity)]
  {
    var ivs := Intervals(times);
    SumOfConstant(ivs, step);
    assert forall k :: 0 <= k < |ivs| ==> |ivs| * ivs[k] - Sum(ivs) == 0;
  }

  /** The consistent-timing pattern fires exactly when there are at least
      seven timestamps (more than five intervals) and every interval is
      within 100 ms of the mean interval, the mean taken by real division. */
  lemma TimingIffNearMean(times: seq<int>)
    ensures TimingPatterns(times) != [] <==>
              |times| >= 7
              && AllNearMean(Intervals(times), (Sum(Intervals(times)) as real) / ((|times| - 1) as real))
  {
    if |times| >= 2 {
      MeanTestWithoutDivision(Intervals(times));
    }
  }

  /*** The single-user rule ***/

  /** The single-user pattern fires exactly when there are more than ten
      lines and one name is extracted from some line while no line yields
      another. */
  lemma SingleUserIffOneName(es: seq<LogEntry>)
    ensures SingleUserPatterns(|es|, Users(es)) != [] <==>
              |es| > 10 && exists u :: NamedUser(es, u) && OnlyUser(es, u)
  {
    SingletonSet(Users(es));
    if |Users(es)| == 1 {
      var u :| Users(es) == {u};
      UsersAreOne(es, u);
    }
    if exists u :: NamedUser(es, u) && OnlyUser(es, u) {
      var u :| NamedUser(es, u) && OnlyUser(es, u);
      UsersAreOne(es, u);
    }
  }

  /** Some line yields the user name `u`. */
  predicate NamedUser(es: seq<LogEntry>, u: string)
  {
    exists j :: 0 <= j < |es| && Present(es[j].user) && es[j].user.value == u
  }

  /** No line yields a user name other than `u`. */
  predicate OnlyUser(es: seq<LogEntry>, u: string)
  {
    forall j :: 0 <= j < |es| && Present(es[j].user) ==> es[j].user.value == u
  }

  /** The user set is `{u}` exactly when `u` is named and nobody else is. */
  lemma UsersAreOne(es: seq<LogEntry>, u: string)
    ensures Users(es) == {u} <==> NamedUser(es, u) && OnlyUser(es, u)
  {
    UsersFromLines(es);
    if Users(es) == {u} {
      assert u in Users(es);
      forall j | 0 <= j < |es| && Present(es[j].user)
        ensures es[j].user.value == u
      {
        assert es[j].user.value in Users(es);
      }
    }
    if NamedUser(es, u) && OnlyUser(es, u) {
      forall x ensures x in Users(es) <==> x == u {
        if x in Users(es) {
          var j :| 0 <= j < |es| && Present(es[j].user) && es[j].user.value == x;
        }
      }
    }
  }

  /** A set has one element exactly when it is a singleton. */
  lemma SingletonSet(s: set<string>)
    ensures |s| == 1 <==> exists u :: s == {u}
  {
    if |s| == 1 {
      var u :| u in s;
      assert |s - {u}| == 0;
      assert s == {u};
    }
  }

  /*** Lines without signal ***/

  /** Lines with no IP, no time, no user and no "Failed login" give no
      unique IPs, no window, no details and no pattern. */
  lemma SignalFreeLinesGiveNothing(es: seq<LogEntry>)
    requires forall j :: 0 <= j < |es| ==>
               !Present(es[j].ip) && es[j].time.None? && !Present(es[j].user) && !es[j].failedLogin
    ensures Dedup(IPsSeen(es)) == [] && Times(es) == [] && Users(es) == {} && FailureDetails(es) == []
    ensures WindowMillis(Times(es)) == 0 && MaxAttemptsPerIP(IPsSeen(es)) == None
    ensures DetectedPatterns(|es|, WindowMillis(Times(es)), Users(es), MaxAttemptsPerIP(IPsSeen(es)), Times(es)) == []
  {
    NothingExtracted(es);
    assert CountsOf([], map[]) == [];
  }

  lemma {:induction false} NothingExtracted(es: seq<LogEntry>)
    requires forall j :: 0 <= j < |es| ==>
               !Present(es[j].ip) && es[j].time.None? && !Present(es[j].user) && !es[j].failedLogin
    ensures IPsSeen(es) == [] && Times(es) == [] && Users(es) == {} && FailureDetails(es) == []
  {
    if es != [] {
      NothingExtracted(es[..|es| - 1]);
    }
  }

  /*** A single-source burst ***/

  /** More than ten lines, all from the same IP and the same user: the
      single-user and concentrated-attack patterns both appear, and the
      concentration is the number of lines. */
  lemma SingleSourceBurst(es: seq<LogEntry>, ip: string, user: string, windowMs: int, times: seq<int>)
    requires |es| > 10 && ip != [] && user != []
    requires forall j :: 0 <= j < |es| ==> es[j].ip == Some(ip) && es[j].user == Some(user)
    ensures var ps := DetectedPatterns(|es|, windowMs, Users(es), MaxAttemptsPerIP(IPsSeen(es)), times);
            && Pattern(SingleUserTargeting, HighSeverity) in ps
            && Pattern(ConcentratedAttacks(|es|), HighSeverity) in ps
  {
    SameSource(es, ip, user);
    BurstRules(es, ip, user);
    MiddleRulesFire(|es|, windowMs, Users(es), MaxAttemptsPerIP(IPsSeen(es)), times);
  }

  /** The single-user and concentration rules sit between the frequency and
      timing rules in the pattern list. */
  lemma MiddleRulesFire(attempts: nat, windowMs: int, users: set<string>,
                        maxPerIP: Option<int>, times: seq<int>)
    ensures var ps := DetectedPatterns(attempts, windowMs, users, maxPerIP, times);
            && (SingleUserPatterns(attempts, users) != [] ==> Pattern(SingleUserTargeting, HighSeverity) in ps)
            && (ConcentrationPatterns(maxPerIP) != [] ==> Pattern(ConcentratedAttacks(maxPerIP.value), HighSeverity) in ps)
  {
    var f, s := FrequencyPatterns(attempts, windowMs), SingleUserPatterns(attempts, users);
    var c, t := ConcentrationPatterns(maxPerIP), TimingPatterns(times);
    if s != [] { assert (f + s + c + t)[|f|] == s[0]; }
    if c != [] { assert (f + s + c + t)[|f| + |s|] == c[0]; }
  }

  lemma BurstRules(es: seq<LogEntry>, ip: string, user: string)
    requires |es| > 10
    requires Users(es) == {user} && Dedup(IPsSeen(es)) == [ip] && Tally(IPsSeen(es)) == map[ip := |es|]
    ensures SingleUserPatterns(|es|, Users(es)) == [Pattern(SingleUserTargeting, HighSeverity)]
    ensures ConcentrationPatterns(MaxAttemptsPerIP(IPsSeen(es)))
            == [Pattern(ConcentratedAttacks(|es|), HighSeverity)]
  {
    assert |Users(es)| == 1;
    BurstConcentration(es, ip);
  }

  lemma BurstConcentration(es: seq<LogEntry>, ip: string)
    requires Dedup(IPsSeen(es)) == [ip] && Tally(IPsSeen(es)) == map[ip := |es|]
    ensures MaxAttemptsPerIP(IPsSeen(es)) == Some(|es|)
  {
    SingleBusyIP(IPsSeen(es), ip, |es|);
  }

  /** One IP seen on every one of n lines: the largest per-IP count is n. */
  lemma SingleBusyIP(seen: seq<string>, ip: string, n: nat)
    requires Dedup(seen) == [ip] && Tally(seen) == map[ip := n]
    ensures MaxAttemptsPerIP(seen) == Some(n)
  {
    var cs := CountsOf(Dedup(seen), Tally(seen));
    assert cs == [n];
    assert MaxOf([n]) == Some(n) by {
      assert [n][..0] == [];
    }
  }

  lemma {:induction false} SameSource(es: seq<LogEntry>, ip: string, user: string)
    requires es != [] && ip != [] && user != []
    requires forall j :: 0 <= j < |es| ==> es[j].ip == Some(ip) && es[j].user == Some(user)
    ensures Users(es) == {user}
    ensures Dedup(IPsSeen(es)) == [ip]
    ensures Tally(IPsSeen(es)) == map[ip := |es|]
  {
    SameUser(es, user);
    SameIP(es, ip);
    RepeatedIP(|es|, ip);
  }

  lemma {:induction false} SameUser(es: seq<LogEntry>, user: string)
    requires es != [] && user != []
    requires forall j :: 0 <= j < |es| ==> es[j].user == Some(user)
    ensures Users(es) == {user}
  {
    if |es| > 1 {
      SameUser(es[..|es| - 1], user);
    }
  }

  lemma {:induction false} SameIP(es: seq<LogEntry>, ip: string)
    requires ip != []
    requires forall j :: 0 <= j < |es| ==> es[j].ip == Some(ip)
    ensures IPsSeen(es) == seq(|es|, _ => ip)
  {
    if es != [] {
      SameIP(es[..|es| - 1], ip);
    }
  }

  lemma {:induction false} RepeatedIP(n: nat, ip: string)
    requires n > 0
    ensures Dedup(seq(n, _ => ip)) == [ip]
    ensures Tally(seq(n, _ => ip)) == map[ip := n]
  {
    var s := seq(n, _ => ip);
    if n > 1 {
      RepeatedIP(n - 1, ip);
      assert s[..n - 1] == seq(n - 1, _ => ip);
    } else {
      assert s[..0] == [];
    }
  }
}
