/**
 * The string operations the recorder and the generator are built from:
 * Ruby's Array#join, String#split with a string separator, String#gsub with a
 * string pattern, and fixed-affix extraction (the inverse of interpolation).
 */
module Strings {
  import opened Wrappers

  /** Array#join: the parts with `sep` between consecutive ones; no parts give "". */
  function Join(parts: seq<string>, sep: string): string
    decreases |parts|
  {
    if |parts| == 0 then ""
    else if |parts| == 1 then parts[0]
    else parts[0] + sep + Join(parts[1..], sep)
  }

  /**
   * Splits `s` at every occurrence of `sep`, scanning from the left and never
   * reusing characters of a separator already matched. Empty fields are kept,
   * so there is always one more field than there are separators.
   */
  function SplitOn(s: string, sep: string): (parts: seq<string>)
    requires |sep| > 0
    ensures |parts| >= 1
    decreases |s|
  {
    if |s| == 0 then [""]
    else if |sep| <= |s| && s[..|sep|] == sep then [""] + SplitOn(s[|sep|..], sep)
    else
      var rest := SplitOn(s[1..], sep);
      [[s[0]] + rest[0]] + rest[1..]
  }

  /** Does `pat` occur in `s` starting at index `i`? */
  predicate OccursAt(s: string, pat: string, i: nat) {
    i + |pat| <= |s| && s[i..i + |pat|] == pat
  }

  ghost predicate NoOccurrence(s: string, pat: string) {
    forall i: nat :: !OccursAt(s, pat, i)
  }

  /**
   * String#gsub with a literal pattern: every occurrence of `pat` found by a
   * left-to-right scan is replaced by `rep`; scanning resumes after the match.
   */
  function ReplaceAll(s: string, pat: string, rep: string): string
    requires |pat| > 0
    decreases |s|
  {
    if |s| == 0 then ""
    else if |pat| <= |s| && s[..|pat|] == pat then rep + ReplaceAll(s[|pat|..], pat, rep)
    else [s[0]] + ReplaceAll(s[1..], pat, rep)
  }

  /** The text strictly between a fixed prefix and a fixed suffix, if `line` has both. */
  function Between(line: string, pre: string, post: string): (r: Option<string>)
    ensures r.Some? <==> |pre| + |post| <= |line| && line[..|pre|] == pre && line[|line| - |post|..] == post
    ensures r.Some? ==> line == pre + r.value + post
  {
    if |pre| + |post| <= |line| && line[..|pre|] == pre && line[|line| - |post|..] == post
    then Some(line[|pre|..|line| - |post|])
    else None
  }

  // ---------------------------------------------------------------- Between

  /** Interpolating `x` between fixed affixes and extracting it again gives `x` back. */
  lemma BetweenRoundTrip(pre: string, x: string, post: string)
    ensures Between(pre + x + post, pre, post) == Some(x)
  {
    var line := pre + x + post;
    assert line[..|pre|] == pre;
    assert line[|line| - |post|..] == post;
    assert line[|pre|..|line| - |post|] == x;
  }

  // ---------------------------------------------------------------- Join

  lemma {:induction false} JoinAppend(a: seq<string>, b: seq<string>, sep: string)
    requires |a| >= 1 && |b| >= 1
    ensures Join(a + b, sep) == Join(a, sep) + sep + Join(b, sep)
    decreases |a|
  {
    if |a| == 1 {
      assert (a + b)[1..] == b;
    } else {
      assert (a + b)[1..] == a[1..] + b;
      JoinAppend(a[1..], b, sep);
    }
  }

  /** Joining three non-empty runs of parts. */
  lemma JoinThree(a: seq<string>, m: seq<string>, b: seq<string>, sep: string)
    requires |a| >= 1 && |m| >= 1 && |b| >= 1
    ensures Join(a + m + b, sep) == Join(a, sep) + sep + (Join(m, sep) + sep + Join(b, sep))
  {
    assert a + m + b == a + (m + b);
    JoinAppend(a, m + b, sep);
    JoinAppend(m, b, sep);
  }

  /** Joining a run of parts first and then the whole gives the same text. */
  lemma JoinFlatten(a: seq<string>, m: seq<string>, b: seq<string>, sep: string)
    requires |a| >= 1 && |m| >= 1 && |b| >= 1
    ensures Join(a + m + b, sep) == Join(a + [Join(m, sep)] + b, sep)
  {
    JoinThree(a, m, b, sep);
    JoinThree(a, [Join(m, sep)], b, sep);
  }

  lemma JoinConsHead(x: string, y: string, rest: seq<string>, sep: string)
    ensures Join([x + y] + rest, sep) == x + Join([y] + rest, sep)
  {
    if |rest| > 0 {
      assert ([x + y] + rest)[1..] == rest;
      assert ([y] + rest)[1..] == rest;
    }
  }

  // ---------------------------------------------------------------- SplitOn

  /** Splitting text that starts with a separator-free prefix glues that prefix onto the first field. */
  lemma {:induction false} SplitPrefix(a: string, t: string, sep: string)
    requires |sep| > 0 && sep[0] !in a
    ensures SplitOn(a + t, sep) == [a + SplitOn(t, sep)[0]] + SplitOn(t, sep)[1..]
    decreases |a|
  {
    var T := SplitOn(t, sep);
    if |a| == 0 {
      assert a + t == t;
      assert a + T[0] == T[0];
      assert [T[0]] + T[1..] == T;
    } else {
      var s := a + t;
      assert s[0] == a[0];
      assert s[1..] == a[1..] + t;
      SplitPrefix(a[1..], t, sep);
      assert [a[0]] + (a[1..] + T[0]) == a + T[0];
    }
  }

  /** Splitting a joined list of separator-free parts recovers the list. */
  lemma {:induction false} SplitJoin(parts: seq<string>, sep: string)
    requires |sep| > 0 && |parts| >= 1
    requires forall k :: 0 <= k < |parts| ==> sep[0] !in parts[k]
    ensures SplitOn(Join(parts, sep), sep) == parts
    decreases |parts|
  {
    if |parts| == 1 {
      SplitPrefix(parts[0], "", sep);
      assert parts[0] + "" == parts[0];
    } else {
      var rest := Join(parts[1..], sep);
      var t := sep + rest;
      assert Join(parts, sep) == parts[0] + t;
      SplitPrefix(parts[0], t, sep);
      assert t[..|sep|] == sep && t[|sep|..] == rest;
      assert SplitOn(t, sep) == [""] + SplitOn(rest, sep);
      SplitJoin(parts[1..], sep);
      assert parts[0] + "" == parts[0];
      assert [parts[0]] + parts[1..] == parts;
    }
  }

  /**
   * A separator whose first character occurs nowhere else in it cannot
   * overlap itself, so text without a whole separator ends the first field
   * exactly where the next separator starts.
   */
  lemma {:induction false} SplitFirstField(a: string, t: string, sep: string)
    requires |sep| > 0 && sep[0] !in sep[1..] && NoOccurrence(a, sep)
    ensures SplitOn(a + sep + t, sep) == [a] + SplitOn(t, sep)
    decreases |a|
  {
    var u := a + sep + t;
    if |a| == 0 {
      assert u == sep + t && u[..|sep|] == sep && u[|sep|..] == t;
    } else {
      assert u[..|sep|] != sep by {
        if |sep| <= |a| {
          assert a[0..|sep|] == u[..|sep|];
          assert !OccursAt(a, sep, 0);
        } else {
          assert u[..|sep|][|a|] == sep[0];
          assert sep[|a|] == sep[1..][|a| - 1];
        }
      }
      assert u[1..] == a[1..] + sep + t;
      NoOccurrenceTail(a, sep);
      SplitFirstField(a[1..], t, sep);
      assert [a[0]] + a[1..] == a;
    }
  }

  /**
   * Splitting a joined list recovers it when no part contains the separator
   * and the separator's first character occurs nowhere else in it.
   */
  lemma {:induction false} SplitJoinUnique(parts: seq<string>, sep: string)
    requires |sep| > 0 && sep[0] !in sep[1..] && |parts| >= 1
    requires forall k :: 0 <= k < |parts| ==> NoOccurrence(parts[k], sep)
    ensures SplitOn(Join(parts, sep), sep) == parts
    decreases |parts|
  {
    if |parts| == 1 {
      SplitFirstFieldLast(parts[0], sep);
    } else {
      SplitJoinUnique(parts[1..], sep);
      SplitFirstField(parts[0], Join(parts[1..], sep), sep);
      assert [parts[0]] + parts[1..] == parts;
    }
  }

  /** Text without the separator is a single field. */
  lemma {:induction false} SplitFirstFieldLast(a: string, sep: string)
    requires |sep| > 0 && NoOccurrence(a, sep)
    ensures SplitOn(a, sep) == [a]
    decreases |a|
  {
    if |a| > 0 {
      assert !OccursAt(a, sep, 0);
      assert !(|sep| <= |a| && a[..|sep|] == sep);
      NoOccurrenceTail(a, sep);
      SplitFirstFieldLast(a[1..], sep);
      assert [a[0]] + a[1..] == a;
    }
  }

  /** Joining the fields of a split with the same separator gives the text back. */
  lemma {:induction false} JoinSplit(s: string, sep: string)
    requires |sep| > 0
    ensures Join(SplitOn(s, sep), sep) == s
    decreases |s|
  {
    if |s| > 0 {
      if |sep| <= |s| && s[..|sep|] == sep {
        var r := SplitOn(s[|sep|..], sep);
        assert SplitOn(s, sep) == [""] + r;
        JoinSplit(s[|sep|..], sep);
        assert ([""] + r)[1..] == r;
        assert Join([""] + r, sep) == "" + sep + Join(r, sep);
        assert s == sep + s[|sep|..];
      } else {
        var r := SplitOn(s[1..], sep);
        assert SplitOn(s, sep) == [[s[0]] + r[0]] + r[1..];
        JoinSplit(s[1..], sep);
        JoinConsHead([s[0]], r[0], r[1..], sep);
        assert [r[0]] + r[1..] == r;
        assert s == [s[0]] + s[1..];
      }
    }
  }

  /** With a one-character separator, splitting distributes over a separator in the middle. */
  lemma {:induction false} SplitConcat(s: string, c: char, t: string)
    ensures SplitOn(s + [c] + t, [c]) == SplitOn(s, [c]) + SplitOn(t, [c])
    decreases |s|
  {
    var u := s + [c] + t;
    if |s| == 0 {
      assert u == [c] + t && u[..1] == [c] && u[1..] == t;
    } else if s[0] == c {
      assert u[..1] == [c] && u[1..] == s[1..] + [c] + t;
      assert s[..1] == [c];
      SplitConcat(s[1..], c, t);
    } else {
      assert u[0] == s[0] && u[1..] == s[1..] + [c] + t;
      assert u[..1] != [c];
      assert s[..1] != [c];
      SplitConcat(s[1..], c, t);
      var a := SplitOn(s[1..], [c]);
      var b := SplitOn(t, [c]);
      assert (a + b)[0] == a[0] && (a + b)[1..] == a[1..] + b;
    }
  }

  // ---------------------------------------------------------------- ReplaceAll

  lemma ShiftOccurrence(s: string, pat: string, i: nat)
    requires |s| > 0 && OccursAt(s[1..], pat, i)
    ensures OccursAt(s, pat, i + 1)
  {
    assert s[1..][i..i + |pat|] == s[i + 1..i + 1 + |pat|];
  }

  /** Dropping the first character creates no occurrence. */
  lemma NoOccurrenceTail(a: string, pat: string)
    requires |a| > 0 && NoOccurrence(a, pat)
    ensures NoOccurrence(a[1..], pat)
  {
    forall i: nat ensures !OccursAt(a[1..], pat, i) {
      assert !OccursAt(a, pat, i + 1);
      if i + |pat| <= |a[1..]| {
        assert a[1..][i..i + |pat|] == a[i + 1..i + 1 + |pat|];
      }
    }
  }

  /** Text without the pattern's first character does not contain the pattern. */
  lemma NoOccurrenceWithoutHead(s: string, pat: string)
    requires |pat| > 0 && pat[0] !in s
    ensures NoOccurrence(s, pat)
  {
    forall i: nat ensures !OccursAt(s, pat, i) {
      if i + |pat| <= |s| {
        assert s[i..i + |pat|][0] == s[i];
      }
    }
  }

  /** Text in which the pattern does not occur is left unchanged. */
  lemma {:induction false} ReplaceAllIdentity(s: string, pat: string, rep: string)
    requires |pat| > 0
    ensures NoOccurrence(s, pat) ==> ReplaceAll(s, pat, rep) == s
    decreases |s|
  {
    if |s| > 0 && NoOccurrence(s, pat) {
      assert !OccursAt(s, pat, 0);
      assert !(|pat| <= |s| && s[..|pat|] == pat);
      forall i: nat ensures !OccursAt(s[1..], pat, i) {
        if OccursAt(s[1..], pat, i) { ShiftOccurrence(s, pat, i); }
      }
      ReplaceAllIdentity(s[1..], pat, rep);
    }
  }

  /** A character in neither the input nor the replacement is not in the output either. */
  lemma {:induction false} ReplaceAllKeepsAbsent(s: string, pat: string, rep: string, c: char)
    requires |pat| > 0 && c !in s && c !in rep
    ensures c !in ReplaceAll(s, pat, rep)
    decreases |s|
  {
    if |s| > 0 {
      if |pat| <= |s| && s[..|pat|] == pat {
        ReplaceAllKeepsAbsent(s[|pat|..], pat, rep, c);
      } else {
        ReplaceAllKeepsAbsent(s[1..], pat, rep, c);
      }
    }
  }

  /**
   * Text in which no occurrence of the pattern starts passes through a
   * replacement unchanged.
   */
  lemma {:induction false} ReplaceAllSkip(pre: string, s: string, pat: string, rep: string)
    requires |pat| > 0
    requires forall i :: 0 <= i < |pre| ==> !OccursAt(pre + s, pat, i)
    ensures ReplaceAll(pre + s, pat, rep) == pre + ReplaceAll(s, pat, rep)
    decreases |pre|
  {
    if |pre| > 0 {
      var t := pre + s;
      assert !OccursAt(t, pat, 0);
      assert t[0] == pre[0] && t[1..] == pre[1..] + s;
      forall i | 0 <= i < |pre[1..]| ensures !OccursAt(pre[1..] + s, pat, i) {
        if OccursAt(t[1..], pat, i) { ShiftOccurrence(t, pat, i); }
      }
      ReplaceAllSkip(pre[1..], s, pat, rep);
      assert [pre[0]] + pre[1..] == pre;
    } else {
      assert pre + s == s;
    }
  }

  /** No occurrence of a pattern can start on a character other than its first. */
  lemma NoEarlyOccurrence(pre: string, s: string, pat: string)
    requires |pat| > 0 && pat[0] !in pre
    ensures forall i :: 0 <= i < |pre| ==> !OccursAt(pre + s, pat, i)
  {
    forall i | 0 <= i < |pre| ensures !OccursAt(pre + s, pat, i) {
      if i + |pat| <= |pre + s| {
        assert (pre + s)[i..i + |pat|][0] == pre[i];
      }
    }
  }

  /** One step of the scan, with the two cases side by side. */
  lemma ReplaceAllStep(t: string, pat: string, rep: string)
    requires |pat| > 0 && |t| > 0
    ensures |pat| <= |t| && t[..|pat|] == pat ==>
      ReplaceAll(t, pat, rep) == rep + ReplaceAll(t[|pat|..], pat, rep)
    ensures !(|pat| <= |t| && t[..|pat|] == pat) ==>
      ReplaceAll(t, pat, rep) == [t[0]] + ReplaceAll(t[1..], pat, rep)
  {
  }

  /**
   * gsub replaces every occurrence, each in its place: the output is the
   * input cut at the occurrences of the pattern (scanning from the left)
   * and glued back together with the replacement.
   */
  lemma {:induction false} ReplaceAllSplit(s: string, pat: string, rep: string)
    requires |pat| > 0
    ensures ReplaceAll(s, pat, rep) == Join(SplitOn(s, pat), rep)
    decreases |s|
  {
    if |s| > 0 {
      if |pat| <= |s| && s[..|pat|] == pat {
        var r := SplitOn(s[|pat|..], pat);
        assert SplitOn(s, pat) == [""] + r;
        assert ([""] + r)[1..] == r;
        ReplaceAllSplit(s[|pat|..], pat, rep);
      } else {
        var r := SplitOn(s[1..], pat);
        assert SplitOn(s, pat) == [[s[0]] + r[0]] + r[1..];
        JoinConsHead([s[0]], r[0], r[1..], rep);
        assert [r[0]] + r[1..] == r;
        ReplaceAllSplit(s[1..], pat, rep);
      }
    }
  }

  /**
   * If the output of a replacement starts with a word that shares no
   * character with `rep`, that word was copied from the input unchanged.
   */
  lemma {:induction false} CopiedPrefix(t: string, pat: string, rep: string, w: string)
    requires |pat| > 0 && |rep| > 0
    requires forall k :: 0 <= k < |w| ==> w[k] !in rep
    requires |w| <= |ReplaceAll(t, pat, rep)| && ReplaceAll(t, pat, rep)[..|w|] == w
    ensures |w| <= |t| && t[..|w|] == w
    decreases |t|
  {
    if |w| > 0 && |t| > 0 {
      var r := ReplaceAll(t, pat, rep);
      assert w[0] == r[0] && w[0] !in rep;
      ReplaceAllStep(t, pat, rep);
      if |pat| <= |t| && t[..|pat|] == pat {
        assert false;
      } else {
        var r1 := ReplaceAll(t[1..], pat, rep);
        assert r == [t[0]] + r1;
        assert r1[..|w| - 1] == w[1..];
        CopiedPrefix(t[1..], pat, rep, w[1..]);
        assert t[..|w|] == [t[0]] + t[1..][..|w| - 1];
      }
    }
  }

  /**
   * gsub is complete: when the replacement shares no character with the
   * pattern, no occurrence of the pattern survives in the output.
   */
  lemma {:induction false} ReplaceAllComplete(s: string, pat: string, rep: string)
    requires |pat| > 0 && |rep| > 0
    requires forall k :: 0 <= k < |rep| ==> rep[k] !in pat
    ensures NoOccurrence(ReplaceAll(s, pat, rep), pat)
    decreases |s|
  {
    var r := ReplaceAll(s, pat, rep);
    assert forall k :: 0 <= k < |pat| ==> pat[k] !in rep;
    if |s| == 0 {
      assert r == "";
    } else if |pat| <= |s| && s[..|pat|] == pat {
      var r1 := ReplaceAll(s[|pat|..], pat, rep);
      ReplaceAllComplete(s[|pat|..], pat, rep);
      assert r == rep + r1;
      forall i: nat | i + |pat| <= |r| ensures !OccursAt(r, pat, i) {
        if i < |rep| {
          assert r[i..i + |pat|][0] == rep[i];
          assert rep[i] !in pat;
        } else {
          assert r[i..i + |pat|] == r1[i - |rep|..i - |rep| + |pat|];
          assert !OccursAt(r1, pat, i - |rep|);
        }
      }
    } else {
      var r1 := ReplaceAll(s[1..], pat, rep);
      ReplaceAllComplete(s[1..], pat, rep);
      assert r == [s[0]] + r1;
      forall i: nat | 0 < i && i + |pat| <= |r| ensures !OccursAt(r, pat, i) {
        assert r[i..i + |pat|] == r1[i - 1..i - 1 + |pat|];
        assert !OccursAt(r1, pat, i - 1);
      }
      if OccursAt(r, pat, 0) {
        CopiedPrefix(s, pat, rep, pat);
        assert false;
      }
    }
  }

  /**
   * Joining pattern-free parts with a separator that shares no character
   * with the pattern creates no occurrence across a boundary.
   */
  lemma NoOccurrenceAcross(a: string, sep: string, b: string, pat: string)
    requires |sep| > 0 && |pat| > 0 && NoOccurrence(a, pat) && NoOccurrence(b, pat)
    requires forall k :: 0 <= k < |sep| ==> sep[k] !in pat
    ensures NoOccurrence(a + sep + b, pat)
  {
    var s := a + sep + b;
    forall i: nat ensures !OccursAt(s, pat, i) {
      if i + |pat| > |s| {
      } else if i + |pat| <= |a| {
        assert s[i..i + |pat|] == a[i..i + |pat|];
        assert !OccursAt(a, pat, i);
      } else if i >= |a| + |sep| {
        var j := i - |a| - |sep|;
        assert s[i..i + |pat|] == b[j..j + |pat|];
        assert !OccursAt(b, pat, j);
      } else {
        // the window overlaps the separator, whose characters are not in `pat`
        var j := if i < |a| then |a| else i;
        assert s[i..i + |pat|][j - i] == sep[j - |a|];
        assert sep[j - |a|] !in pat;
      }
    }
  }

  lemma {:induction false} NoOccurrenceJoin(parts: seq<string>, sep: string, pat: string)
    requires |sep| > 0 && |pat| > 0
    requires forall k :: 0 <= k < |parts| ==> NoOccurrence(parts[k], pat)
    requires forall k :: 0 <= k < |sep| ==> sep[k] !in pat
    ensures NoOccurrence(Join(parts, sep), pat)
    decreases |parts|
  {
    if |parts| == 0 {
    } else if |parts| > 1 {
      NoOccurrenceJoin(parts[1..], sep, pat);
      NoOccurrenceAcross(parts[0], sep, Join(parts[1..], sep), pat);
    }
  }
}
