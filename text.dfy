/** The three string operations of the JavaScript standard library that the
    scorers rely on and that are simple enough to define exactly:
    `split` on a separator character, `trim`, and `includes`. */
module Text {

  /** The code points `String.prototype.trim` removes: ECMAScript WhiteSpace
      and LineTerminator. */
  predicate IsSpace(c: char)
  {
    || c == ' ' || c == '\t' || c == '\n' || c == '\r'
    || c == '\U{B}' || c == '\U{C}' || c == '\U{A0}' || c == '\U{FEFF}'
    || c == '\U{1680}' || ('\U{2000}' <= c <= '\U{200A}')
    || c == '\U{2028}' || c == '\U{2029}' || c == '\U{202F}'
    || c == '\U{205F}' || c == '\U{3000}'
  }

  /** Every character of `s` is white space (the empty string included). */
  predicate IsBlank(s: string)
  {
    forall k :: 0 <= k < |s| ==> IsSpace(s[k])
  }

  function TrimStart(s: string): (r: string)
    ensures r == [] || !IsSpace(r[0])
    ensures |r| <= |s| && r == s[|s| - |r|..]
  {
    if s != [] && IsSpace(s[0]) then TrimStart(s[1..]) else s
  }

  function TrimEnd(s: string): (r: string)
    ensures r == [] || !IsSpace(r[|r| - 1])
    ensures r <= s
  {
    if s != [] && IsSpace(s[|s| - 1]) then TrimEnd(s[..|s| - 1]) else s
  }

  /** `s.trim()`: `s` without its leading and trailing white space. */
  function Trim(s: string): string
  {
    TrimEnd(TrimStart(s))
  }

  lemma {:induction false} TrimStartEmptyIffBlank(s: string)
    ensures TrimStart(s) == [] <==> IsBlank(s)
  {
    if s != [] && IsSpace(s[0]) {
      TrimStartEmptyIffBlank(s[1..]);
      assert IsBlank(s) <==> IsBlank(s[1..]) by {
        if IsBlank(s[1..]) {
          forall k | 0 <= k < |s| ensures IsSpace(s[k]) {
            if k > 0 { assert s[k] == s[1..][k - 1]; }
          }
        }
      }
    } else if s != [] {
      assert !IsSpace(s[0]);
    }
  }

  lemma {:induction false} TrimEndEmptyIffBlank(s: string)
    ensures TrimEnd(s) == [] <==> IsBlank(s)
  {
    if s != [] && IsSpace(s[|s| - 1]) {
      TrimEndEmptyIffBlank(s[..|s| - 1]);
      assert IsBlank(s) <==> IsBlank(s[..|s| - 1]) by {
        if IsBlank(s[..|s| - 1]) {
          forall k | 0 <= k < |s| ensures IsSpace(s[k]) {
            if k < |s| - 1 { assert s[k] == s[..|s| - 1][k]; }
          }
        }
      }
    } else if s != [] {
      assert !IsSpace(s[|s| - 1]);
    }
  }

  /** A line is kept by `filter(line => line.trim())` exactly when it has a
      character that is not white space. */
  lemma TrimEmptyIffBlank(s: string)
    ensures Trim(s) == [] <==> IsBlank(s)
  {
    var t := TrimStart(s);
    TrimStartEmptyIffBlank(s);
    TrimEndEmptyIffBlank(t);
  }

  /** `s.split(sep)` for a one-character separator: the maximal pieces of `s`
      between occurrences of `sep`, always at least one (`"".split(sep)` is
      `[""]`). */
  function Split(s: string, sep: char): (r: seq<string>)
    ensures |r| >= 1
    ensures forall k :: 0 <= k < |r| ==> sep !in r[k]
  {
    if s == [] then [[]]
    else
      var rest := Split(s[1..], sep);
      if s[0] == sep then [[]] + rest else [[s[0]] + rest[0]] + rest[1..]
  }

  /** `pieces.join(sep)`, the inverse of `Split`. */
  function Join(pieces: seq<string>, sep: char): string
    requires |pieces| >= 1
  {
    if |pieces| == 1 then pieces[0] else pieces[0] + [sep] + Join(pieces[1..], sep)
  }

  lemma {:induction false} JoinSplit(s: string, sep: char)
    ensures Join(Split(s, sep), sep) == s
  {
    if s != [] {
      var rest := Split(s[1..], sep);
      JoinSplit(s[1..], sep);
      if s[0] != sep {
        if |rest| == 1 {
          assert Split(s, sep) == [[s[0]] + rest[0]];
        } else {
          var r := Split(s, sep);
          assert r[1..] == rest[1..];
          assert Join(rest, sep) == rest[0] + [sep] + Join(rest[1..], sep);
        }
      } else {
        var r := Split(s, sep);
        assert r[1..] == rest;
      }
    }
  }

  lemma {:induction false} SplitJoin(pieces: seq<string>, sep: char)
    requires |pieces| >= 1
    requires forall k :: 0 <= k < |pieces| ==> sep !in pieces[k]
    ensures Split(Join(pieces, sep), sep) == pieces
  {
    if |pieces| == 1 {
      SplitPiece(pieces[0], sep);
    } else {
      var tail := Join(pieces[1..], sep);
      SplitJoin(pieces[1..], sep);
      SplitPrefixed(pieces[0], tail, sep);
    }
  }

  /** Splitting a string without separators gives that string alone. */
  lemma {:induction false} SplitPiece(p: string, sep: char)
    requires sep !in p
    ensures Split(p, sep) == [p]
  {
    if p != [] {
      SplitPiece(p[1..], sep);
      assert p[0] != sep;
      assert [p[0]] + p[1..] == p;
    }
  }

  /** Splitting `p + [sep] + t` with `p` free of separators puts `p` in front
      of the pieces of `t`. */
  lemma {:induction false} SplitPrefixed(p: string, t: string, sep: char)
    requires sep !in p
    ensures Split(p + [sep] + t, sep) == [p] + Split(t, sep)
  {
    if p == [] {
      assert p + [sep] + t == [sep] + t;
      assert ([sep] + t)[1..] == t;
    } else {
      SplitPrefixed(p[1..], t, sep);
      var s := p + [sep] + t;
      assert s[0] == p[0] && p[0] != sep;
      assert s[1..] == p[1..] + [sep] + t;
      var rest := Split(s[1..], sep);
      assert rest[0] == p[1..] && rest[1..] == Split(t, sep);
      assert [p[0]] + p[1..] == p;
    }
  }

  /** `s` holds `p` starting at index `i`. */
  predicate OccursAt(s: string, p: string, i: nat)
  {
    i + |p| <= |s| && s[i..i + |p|] == p
  }

  /** `s.includes(p)`. */
  predicate Contains(s: string, p: string)
  {
    p <= s || (s != [] && Contains(s[1..], p))
  }

  lemma {:induction false} ContainsIff(s: string, p: string)
    ensures Contains(s, p) <==> exists i: nat :: OccursAt(s, p, i)
  {
    if p <= s {
      assert OccursAt(s, p, 0);
    } else if s != [] {
      ContainsIff(s[1..], p);
      if exists i: nat :: OccursAt(s[1..], p, i) {
        var i: nat :| OccursAt(s[1..], p, i);
        assert s[1..][i..i + |p|] == s[i + 1..i + 1 + |p|];
        assert OccursAt(s, p, i + 1);
      }
      if exists i: nat :: OccursAt(s, p, i) {
        var i: nat :| OccursAt(s, p, i);
        assert i != 0;
        assert s[1..][i - 1..i - 1 + |p|] == s[i..i + |p|];
        assert OccursAt(s[1..], p, i - 1);
      }
    }
  }
}
