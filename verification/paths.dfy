/** Dotted-path normalisation shared by the nested getter and setter
    (src/utils/Utils.ts): the guards against `.`, `..` and empty paths,
    whitespace trimming, splitting on `.` and dropping empty pieces. */
module Paths {
  import opened Wrappers

  /** The characters `String.prototype.trim` strips: ECMAScript WhiteSpace
      and LineTerminator code points. */
  predicate IsWhitespace(c: char) {
    || c == '\t' || c == '\n' || c == '\U{000B}' || c == '\U{000C}' || c == '\r'
    || c == ' ' || c == '\U{00A0}' || c == '\U{1680}'
    || ('\U{2000}' <= c <= '\U{200A}')
    || c == '\U{2028}' || c == '\U{2029}' || c == '\U{202F}' || c == '\U{205F}'
    || c == '\U{3000}' || c == '\U{FEFF}'
  }

  predicate AllWhitespace(s: string) {
    forall i :: 0 <= i < |s| ==> IsWhitespace(s[i])
  }

  /** `r` is `s` with its leading `lead` characters and its trailing
      characters removed, all of them whitespace, and `r` neither starts nor
      ends with whitespace. */
  ghost predicate TrimmedAt(s: string, r: string, lead: int) {
    && 0 <= lead && lead + |r| <= |s|
    && r == s[lead..lead + |r|]
    && AllWhitespace(s[..lead])
    && AllWhitespace(s[lead + |r|..])
    && (|r| > 0 ==> !IsWhitespace(r[0]) && !IsWhitespace(r[|r| - 1]))
  }

  function TrimStart(s: string): (r: string)
    ensures |r| <= |s| && r == s[|s| - |r|..]
    ensures AllWhitespace(s[..|s| - |r|])
    ensures |r| > 0 ==> !IsWhitespace(r[0])
    decreases |s|
  {
    if |s| > 0 && IsWhitespace(s[0]) then TrimStart(s[1..]) else s
  }

  function TrimEnd(s: string): (r: string)
    ensures |r| <= |s| && r == s[..|r|]
    ensures AllWhitespace(s[|r|..])
    ensures |r| > 0 ==> !IsWhitespace(r[|r| - 1])
    decreases |s|
  {
    if |s| > 0 && IsWhitespace(s[|s| - 1]) then TrimEnd(s[..|s| - 1]) else s
  }

  /** `String.prototype.trim`. */
  function Trim(s: string): (r: string)
    ensures exists lead :: TrimmedAt(s, r, lead)
  {
    var t := TrimStart(s);
    var r := TrimEnd(t);
    var lead := |s| - |t|;
    assert r == s[lead..lead + |r|];
    assert s[lead + |r|..] == t[|r|..];
    assert |r| > 0 ==> r[0] == t[0];
    assert TrimmedAt(s, r, lead);
    r
  }

  /** `s.includes('..')`. */
  predicate HasDoubleDot(s: string) {
    exists i :: 0 <= i < |s| - 1 && s[i] == '.' && s[i + 1] == '.'
  }

  /** `s.split('.')`: the maximal dot-free pieces of `s`, in order, including
      the empty pieces before a leading dot, after a trailing dot and between
      two adjacent dots. */
  function Split(s: string): (r: seq<string>)
    ensures |r| > 0
    ensures forall i :: 0 <= i < |r| ==> '.' !in r[i]
    decreases |s|
  {
    if |s| == 0 then [""]
    else
      var rest := Split(s[1..]);
      if s[0] == '.' then [""] + rest
      else [[s[0]] + rest[0]] + rest[1..]
  }

  /** `parts.join('.')`. */
  function Join(parts: seq<string>): string
    requires |parts| > 0
    decreases |parts|
  {
    if |parts| == 1 then parts[0] else parts[0] + "." + Join(parts[1..])
  }

  /** `parts.filter(key => key !== '')`. */
  function RemoveEmpty(parts: seq<string>): (r: seq<string>)
    ensures forall i :: 0 <= i < |r| ==> r[i] != ""
    ensures forall x :: x in r <==> x in parts && x != ""
    decreases |parts|
  {
    if |parts| == 0 then []
    else if parts[0] == "" then RemoveEmpty(parts[1..])
    else [parts[0]] + RemoveEmpty(parts[1..])
  }

  /** A key sequence the path engine can walk: at least one key, every key
      non-empty and free of dots. */
  predicate ValidKeys(keys: seq<string>) {
    && |keys| > 0
    && forall i :: 0 <= i < |keys| ==> keys[i] != "" && '.' !in keys[i]
  }

  /** The keys a dotted path addresses, or `None` for the paths both
      `getNestedObjectValue` and `setNestedObjectValue` reject: the empty
      path, `.`, `..`, any path containing `..` (checked before trimming),
      a path that is empty once trimmed, and one with no non-empty piece. */
  function Segments(path: string): (r: Option<seq<string>>)
    ensures r.Some? ==> ValidKeys(r.value)
  {
    if path == "" then None
    else if path == "." || path == ".." || HasDoubleDot(path) then None
    else
      var trimmed := Trim(path);
      if trimmed == "" then None
      else
        var keys := RemoveEmpty(Split(trimmed));
        assert forall i :: 0 <= i < |keys| ==> keys[i] in Split(trimmed);
        if |keys| == 0 then None else Some(keys)
  }

  // ---------------------------------------------------------------------------
  // Splitting and joining

  /** Joining the pieces of a split gives back the original string. */
  lemma {:induction false} JoinSplit(s: string)
    ensures Join(Split(s)) == s
    decreases |s|
  {
    if |s| > 0 {
      var rest := Split(s[1..]);
      JoinSplit(s[1..]);
      if s[0] == '.' {
        assert Split(s) == [""] + rest;
        assert s == "" + "." + s[1..];
      } else if |rest| == 1 {
        assert s == [s[0]] + s[1..];
      } else {
        assert Join(rest) == rest[0] + "." + Join(rest[1..]);
        assert Split(s)[1..] == rest[1..];
        assert s == [s[0]] + s[1..];
      }
    }
  }

  /** A dot separates the pieces of its left side from those of its right side. */
  lemma {:induction false} SplitAroundDot(a: string, b: string)
    ensures Split(a + "." + b) == Split(a) + Split(b)
    decreases |a|
  {
    var t := "." + b;
    assert a + "." + b == a + t;
    if |a| == 0 {
      assert a + t == t && t[1..] == b;
    } else {
      assert a[1..] + "." + b == a[1..] + t;
      SplitAroundDot(a[1..], b);
      SplitStep(a, t, Split(b));
    }
  }

  /** Splitting `a + t` for a non-empty `a`: the pieces of `a[1..] + t`
      with `a[0]` glued to the first one, or preceded by an empty piece
      when `a[0]` is a dot. */
  lemma SplitStep(a: string, t: string, tail: seq<string>)
    requires |a| > 0
    requires Split(a[1..] + t) == Split(a[1..]) + tail
    ensures Split(a + t) == Split(a) + tail
  {
    var s := a + t;
    assert s[0] == a[0] && s[1..] == a[1..] + t;
    var ra := Split(a[1..]);
    var rest := Split(s[1..]);
    if a[0] != '.' {
      assert rest[0] == ra[0];
      assert rest[1..] == ra[1..] + tail;
    }
  }

  lemma {:induction false} SplitDotFree(k: string)
    requires '.' !in k
    ensures Split(k) == [k]
    decreases |k|
  {
    if |k| > 0 {
      SplitDotFree(k[1..]);
      assert k == [k[0]] + k[1..];
    }
  }

  /** Splitting a join of dot-free pieces gives back the pieces. */
  lemma {:induction false} SplitJoin(parts: seq<string>)
    requires |parts| > 0
    requires forall i :: 0 <= i < |parts| ==> '.' !in parts[i]
    ensures Split(Join(parts)) == parts
    decreases |parts|
  {
    SplitDotFree(parts[0]);
    if |parts| > 1 {
      SplitJoin(parts[1..]);
      SplitAroundDot(parts[0], Join(parts[1..]));
      assert parts == [parts[0]] + parts[1..];
    }
  }

  lemma {:induction false} RemoveEmptyConcat(a: seq<string>, b: seq<string>)
    ensures RemoveEmpty(a + b) == RemoveEmpty(a) + RemoveEmpty(b)
    decreases |a|
  {
    if |a| > 0 {
      RemoveEmptyConcat(a[1..], b);
      assert (a + b)[1..] == a[1..] + b;
      assert (a + b)[0] == a[0];
      if a[0] == "" {
        assert RemoveEmpty(a + b) == RemoveEmpty(a[1..] + b);
        assert RemoveEmpty(a) == RemoveEmpty(a[1..]);
      } else {
        assert RemoveEmpty(a + b) == [a[0]] + RemoveEmpty(a[1..] + b);
        assert RemoveEmpty(a) == [a[0]] + RemoveEmpty(a[1..]);
        assert [a[0]] + (RemoveEmpty(a[1..]) + RemoveEmpty(b))
            == ([a[0]] + RemoveEmpty(a[1..])) + RemoveEmpty(b);
      }
    } else {
      assert a + b == b;
    }
  }

  lemma {:induction false} RemoveEmptyKeepsNonEmpty(parts: seq<string>)
    requires forall i :: 0 <= i < |parts| ==> parts[i] != ""
    ensures RemoveEmpty(parts) == parts
    decreases |parts|
  {
    if |parts| > 0 {
      RemoveEmptyKeepsNonEmpty(parts[1..]);
    }
  }

  predicate AllDots(s: string) {
    forall i :: 0 <= i < |s| ==> s[i] == '.'
  }

  /** Splitting leaves no non-empty piece exactly when the string is made of dots. */
  lemma {:induction false} NoPiecesIffAllDots(s: string)
    ensures RemoveEmpty(Split(s)) == [] <==> AllDots(s)
    decreases |s|
  {
    if |s| > 0 {
      NoPiecesIffAllDots(s[1..]);
      var rest := Split(s[1..]);
      if s[0] == '.' {
        assert Split(s) == [""] + rest;
        assert (AllDots(s) <==> AllDots(s[1..])) by {
          if AllDots(s[1..]) {
            forall i | 0 <= i < |s| ensures s[i] == '.' {
              if i > 0 { assert s[i] == s[1..][i - 1]; }
            }
          }
        }
      } else {
        assert Split(s)[0] != "";
      }
    }
  }

  // ---------------------------------------------------------------------------
  // Double dots

  lemma HasDoubleDotConcat(a: string, b: string)
    ensures HasDoubleDot(a + b) <==>
      HasDoubleDot(a) || HasDoubleDot(b) || (|a| > 0 && |b| > 0 && a[|a| - 1] == '.' && b[0] == '.')
  {
    var s := a + b;
    if HasDoubleDot(s) {
      var i :| 0 <= i < |s| - 1 && s[i] == '.' && s[i + 1] == '.';
      if i + 1 < |a| {
        assert a[i] == '.' && a[i + 1] == '.';
      } else if i >= |a| {
        assert b[i - |a|] == '.' && b[i - |a| + 1] == '.';
      } else {
        assert a[|a| - 1] == '.' && b[0] == '.';
      }
    }
    if HasDoubleDot(a) {
      var i :| 0 <= i < |a| - 1 && a[i] == '.' && a[i + 1] == '.';
      assert s[i] == '.' && s[i + 1] == '.';
    }
    if HasDoubleDot(b) {
      var i :| 0 <= i < |b| - 1 && b[i] == '.' && b[i + 1] == '.';
      assert s[|a| + i] == '.' && s[|a| + i + 1] == '.';
    }
    if |a| > 0 && |b| > 0 && a[|a| - 1] == '.' && b[0] == '.' {
      assert s[|a| - 1] == '.' && s[|a|] == '.';
    }
  }

  /** The first and last characters of a join, and the absence of `..` in it. */
  lemma {:induction false} JoinShape(keys: seq<string>)
    requires ValidKeys(keys)
    ensures var j := Join(keys);
      && |j| > 0
      && j[0] == keys[0][0]
      && j[|j| - 1] == keys[|keys| - 1][|keys[|keys| - 1]| - 1]
      && !HasDoubleDot(j)
    decreases |keys|
  {
    var k := keys[0];
    assert k[|k| - 1] in k;
    if |keys| > 1 {
      var tail := keys[1..];
      JoinShape(tail);
      HasDoubleDotConcat(".", Join(tail));
      HasDoubleDotConcat(k, "." + Join(tail));
      assert Join(keys) == k + ("." + Join(tail));
    }
  }

  // ---------------------------------------------------------------------------
  // Trimming

  lemma {:induction false} TrimStartPadded(w: string, y: string)
    requires AllWhitespace(w)
    requires |y| == 0 || !IsWhitespace(y[0])
    ensures TrimStart(w + y) == y
    decreases |w|
  {
    if |w| > 0 {
      assert (w + y)[1..] == w[1..] + y;
      TrimStartPadded(w[1..], y);
    }
  }

  lemma {:induction false} TrimEndPadded(y: string, w: string)
    requires AllWhitespace(w)
    requires |y| == 0 || !IsWhitespace(y[|y| - 1])
    ensures TrimEnd(y + w) == y
    decreases |w|
  {
    if |w| > 0 {
      var w' := w[..|w| - 1];
      assert (y + w)[..|y + w| - 1] == y + w';
      TrimEndPadded(y, w');
    }
  }

  /** Trimming removes exactly the whitespace padding around a string that
      neither starts nor ends with whitespace. */
  lemma TrimPadded(lead: string, x: string, trail: string)
    requires AllWhitespace(lead) && AllWhitespace(trail)
    requires |x| > 0 && !IsWhitespace(x[0]) && !IsWhitespace(x[|x| - 1])
    ensures Trim(lead + x + trail) == x
  {
    assert lead + x + trail == lead + (x + trail);
    TrimStartPadded(lead, x + trail);
    TrimEndPadded(x, trail);
  }

  // ---------------------------------------------------------------------------
  // What a path denotes

  /** `path` spells the keys `keys`: optional whitespace, an optional single
      dot, the keys joined by dots, an optional single dot, optional
      whitespace. A key next to the whitespace padding may not itself begin
      or end with whitespace, since trimming would eat into it. */
  ghost predicate SpelledAs(path: string, keys: seq<string>, lead: string, d1: string, d2: string, trail: string) {
    && ValidKeys(keys)
    && AllWhitespace(lead) && AllWhitespace(trail)
    && (d1 == "" || d1 == ".") && (d2 == "" || d2 == ".")
    && (d1 == "" ==> !IsWhitespace(keys[0][0]))
    && (d2 == "" ==> !IsWhitespace(keys[|keys| - 1][|keys[|keys| - 1]| - 1]))
    && path == lead + d1 + Join(keys) + d2 + trail
  }

  /** Splitting a string framed by at most one dot on each side yields the
      pieces of the inside, framed by one empty piece per dot. */
  lemma SplitFramed(d1: string, m: string, d2: string)
    requires (d1 == "" || d1 == ".") && (d2 == "" || d2 == ".")
    ensures Split(d1 + m + d2) ==
      (if d1 == "" then [] else [""]) + Split(m) + (if d2 == "" then [] else [""])
  {
    var back: seq<string> := if d2 == "" then [] else [""];
    assert Split(m + d2) == Split(m) + back by {
      if d2 == "." {
        SplitAroundDot(m, "");
        assert m + d2 == m + "." + "";
      } else {
        assert m + d2 == m;
      }
    }
    if d1 == "." {
      SplitAroundDot("", m + d2);
      assert d1 + m + d2 == "" + "." + (m + d2);
    } else {
      assert d1 + m + d2 == m + d2;
    }
  }

  /** The non-empty pieces of a framed string whose inside splits into
      non-empty pieces are the inside's pieces. */
  lemma KeysOfFramed(d1: string, m: string, d2: string)
    requires (d1 == "" || d1 == ".") && (d2 == "" || d2 == ".")
    requires forall i :: 0 <= i < |Split(m)| ==> Split(m)[i] != ""
    ensures RemoveEmpty(Split(d1 + m + d2)) == Split(m)
  {
    var front: seq<string> := if d1 == "" then [] else [""];
    var back: seq<string> := if d2 == "" then [] else [""];
    SplitFramed(d1, m, d2);
    RemoveEmptyConcat(front + Split(m), back);
    RemoveEmptyConcat(front, Split(m));
    RemoveEmptyKeepsNonEmpty(Split(m));
  }

  lemma NoDoubleDotInWhitespace(w: string)
    requires AllWhitespace(w)
    ensures !HasDoubleDot(w)
  {
  }

  /** A spelling never contains `..` and is never `.` or `..` itself. */
  lemma SpellingIsNotRejected(path: string, keys: seq<string>, lead: string, d1: string, d2: string, trail: string)
    requires SpelledAs(path, keys, lead, d1, d2, trail)
    ensures path != "" && path != "." && path != ".." && !HasDoubleDot(path)
  {
    var j := Join(keys);
    JoinShape(keys);
    var x := d1 + j + d2;
    assert path == lead + x + trail;
    assert path[|lead| + |d1|] == j[0] == keys[0][0];
    assert keys[0][0] in keys[0];
    NoDoubleDotInWhitespace(lead);
    NoDoubleDotInWhitespace(trail);
    var last := keys[|keys| - 1];
    assert last[|last| - 1] in last;
    HasDoubleDotConcat(d1, j);
    HasDoubleDotConcat(d1 + j, d2);
    assert x[|x| - 1] == (if d2 == "" then j[|j| - 1] else '.');
    HasDoubleDotConcat(lead, x);
    HasDoubleDotConcat(lead + x, trail);
  }

  /** Every spelling of a key sequence is accepted and denotes those keys: so
      `a.b`, `.a.b.` and ` a.b ` all address `["a", "b"]`. */
  lemma SegmentsOfSpelling(path: string, keys: seq<string>, lead: string, d1: string, d2: string, trail: string)
    requires SpelledAs(path, keys, lead, d1, d2, trail)
    ensures Segments(path) == Some(keys)
  {
    SpellingIsNotRejected(path, keys, lead, d1, d2, trail);
    var j := Join(keys);
    JoinShape(keys);
    var x := d1 + j + d2;
    assert path == lead + x + trail;
    var last := keys[|keys| - 1];
    assert x[0] == (if d1 == "" then j[0] else '.');
    assert x[|x| - 1] == (if d2 == "" then j[|j| - 1] else '.');
    TrimPadded(lead, x, trail);
    SplitJoin(keys);
    KeysOfFramed(d1, j, d2);
  }

  /** With no `..` and no dot at either end, every piece of a split is non-empty. */
  lemma {:induction false} SplitPiecesNonEmpty(s: string)
    requires |s| > 0 && s[0] != '.' && s[|s| - 1] != '.'
    requires !HasDoubleDot(s)
    ensures forall i :: 0 <= i < |Split(s)| ==> Split(s)[i] != ""
    decreases |s|
  {
    var rest := Split(s[1..]);
    if |s| > 1 {
      var t := s[1..];
      assert !HasDoubleDot(t) by {
        HasDoubleDotConcat([s[0]], t);
        assert s == [s[0]] + t;
      }
      if t[0] == '.' {
        // t = "." + u where u starts with a non-dot
        var u := t[1..];
        assert |s| > 2;
        assert s[1] == '.' && s[2] == u[0];
        assert u[0] != '.';
        assert !HasDoubleDot(u) by {
          HasDoubleDotConcat(['.'], u);
          assert t == ['.'] + u;
        }
        assert u[|u| - 1] == s[|s| - 1];
        SplitPiecesNonEmpty(u);
        assert t == "" + "." + u;
        SplitAroundDot("", u);
        assert rest == [""] + Split(u);
      } else {
        assert t[|t| - 1] == s[|s| - 1];
        SplitPiecesNonEmpty(t);
      }
      assert Split(s) == [[s[0]] + rest[0]] + rest[1..];
    }
  }

  lemma StripLeadingDot(t: string) returns (d1: string, rest: string)
    requires |t| > 0 && !HasDoubleDot(t) && !AllDots(t)
    ensures (d1 == "" || d1 == ".") && t == d1 + rest
    ensures |rest| > 0 && rest[0] != '.' && !HasDoubleDot(rest)
  {
    if t[0] == '.' {
      d1, rest := ".", t[1..];
      assert t == d1 + rest;
      HasDoubleDotConcat(d1, rest);
    } else {
      d1, rest := "", t;
    }
  }

  lemma StripTrailingDot(t: string) returns (m: string, d2: string)
    requires |t| > 0 && t[0] != '.' && !HasDoubleDot(t)
    ensures (d2 == "" || d2 == ".") && t == m + d2
    ensures |m| > 0 && m[0] == t[0] && m[|m| - 1] != '.' && !HasDoubleDot(m)
  {
    if t[|t| - 1] == '.' {
      m, d2 := t[..|t| - 1], ".";
      assert t == m + d2;
      HasDoubleDotConcat(m, d2);
    } else {
      m, d2 := t, "";
    }
  }

  /** The trimmed form of an accepted path is its keys joined by dots,
      framed by at most one dot on each side. */
  lemma TrimmedAcceptedPath(t: string) returns (d1: string, m: string, d2: string)
    requires |t| > 0 && !HasDoubleDot(t) && !AllDots(t)
    ensures (d1 == "" || d1 == ".") && (d2 == "" || d2 == ".")
    ensures t == d1 + m + d2
    ensures |m| > 0 && m[0] != '.' && m[|m| - 1] != '.' && !HasDoubleDot(m)
  {
    var rest;
    d1, rest := StripLeadingDot(t);
    m, d2 := StripTrailingDot(rest);
  }

  lemma RegroupPadding(a: string, b: string, c: string, d: string, e: string)
    ensures a + b + c + d + e == a + (b + c + d) + e
  {
  }

  lemma CutThreeWays(s: string, i: nat, j: nat)
    requires i <= j <= |s|
    ensures s == s[..i] + s[i..j] + s[j..]
  {
    assert s[..j] == s[..i] + s[i..j];
  }

  /** A path is its trimmed form padded with whitespace on both sides. */
  lemma TrimPadding(path: string) returns (lead: string, trail: string)
    ensures path == lead + Trim(path) + trail
    ensures AllWhitespace(lead) && AllWhitespace(trail)
    ensures |Trim(path)| > 0 ==> !IsWhitespace(Trim(path)[0]) && !IsWhitespace(Trim(path)[|Trim(path)| - 1])
  {
    var t := Trim(path);
    var n :| TrimmedAt(path, t, n);
    lead, trail := path[..n], path[n + |t|..];
    CutThreeWays(path, n, n + |t|);
  }

  /** What acceptance of a path says about its trimmed form. */
  lemma AcceptedTrimmed(path: string, lead: string, trail: string)
    requires Segments(path).Some?
    requires path == lead + Trim(path) + trail
    ensures |Trim(path)| > 0 && !HasDoubleDot(Trim(path)) && !AllDots(Trim(path))
    ensures Segments(path).value == RemoveEmpty(Split(Trim(path)))
  {
    var t := Trim(path);
    HasDoubleDotConcat(lead, t);
    HasDoubleDotConcat(lead + t, trail);
    NoPiecesIffAllDots(t);
  }

  /** Every accepted path spells the keys it denotes; with
      `SegmentsOfSpelling` this says the keys of a path are exactly its
      non-empty dot-separated pieces once the path is trimmed. */
  lemma SpellingOfSegments(path: string)
    requires Segments(path).Some?
    ensures exists lead, d1, d2, trail :: SpelledAs(path, Segments(path).value, lead, d1, d2, trail)
  {
    var keys := Segments(path).value;
    var t := Trim(path);
    var lead, trail := TrimPadding(path);
    AcceptedTrimmed(path, lead, trail);
    var d1, m, d2 := TrimmedAcceptedPath(t);
    SplitPiecesNonEmpty(m);
    KeysOfFramed(d1, m, d2);
    assert keys == Split(m);
    JoinSplit(m);
    JoinShape(keys);
    assert t[0] == (if d1 == "" then m[0] else '.');
    assert t[|t| - 1] == (if d2 == "" then m[|m| - 1] else '.');
    assert path == lead + d1 + Join(keys) + d2 + trail by {
      assert Join(keys) == m;
      RegroupPadding(lead, d1, m, d2, trail);
    }
    assert SpelledAs(path, keys, lead, d1, d2, trail);
  }

  /** The paths with no address: exactly `.`, `..`, those containing `..`,
      and those that are only dots once trimmed (the empty and the
      whitespace-only paths among them). */
  lemma SegmentsNoneIff(path: string)
    ensures Segments(path).None? <==>
      path == "." || path == ".." || HasDoubleDot(path) || AllDots(Trim(path))
  {
    NoPiecesIffAllDots(Trim(path));
    if path == "" {
      var lead :| TrimmedAt(path, Trim(path), lead);
    }
  }

  /** A plain dotted spelling (no padding, no framing dots) denotes its keys. */
  lemma SegmentsOfJoin(keys: seq<string>)
    requires ValidKeys(keys)
    requires !IsWhitespace(keys[0][0]) && !IsWhitespace(keys[|keys| - 1][|keys[|keys| - 1]| - 1])
    ensures Segments(Join(keys)) == Some(keys)
  {
    var path := Join(keys);
    assert path == "" + "" + Join(keys) + "" + "";
    SegmentsOfSpelling(path, keys, "", "", "", "");
  }
}
