/**
 * The Python string operations the backend relies on, over ASCII:
 * `str.lower()`, `str.strip()`, `startswith`/`endswith`, the `in` substring
 * test, `str.replace`, `str.split` and `str.join`.
 *
 * Python's `lower()` and `strip()` also act on non-ASCII characters; here
 * only ASCII letters are lowered and only ASCII whitespace is stripped.
 */
module Text {

  /** Python's `str.isspace()` on ASCII: space, \t, \n, \v, \f, \r and the separators \x1c-\x1f. */
  predicate IsSpace(c: char) {
    c == ' ' || (9 <= c as int <= 13) || (28 <= c as int <= 31)
  }

  predicate AllSpace(s: string) {
    forall k :: 0 <= k < |s| ==> IsSpace(s[k])
  }

  /** Neither starts nor ends with whitespace. */
  predicate IsStripped(s: string) {
    |s| == 0 || (!IsSpace(s[0]) && !IsSpace(s[|s| - 1]))
  }

  /** `r` is a slice of `s` with nothing but whitespace around it. */
  predicate WhitespaceFramed(s: string, r: string) {
    exists i | 0 <= i <= |s| - |r| :: r == s[i..i + |r|] && AllSpace(s[..i]) && AllSpace(s[i + |r|..])
  }

  /** Python's `str.lstrip()`: the suffix left after dropping leading whitespace. */
  function TrimStart(s: string): (r: string)
    ensures |r| <= |s| && r == s[|s| - |r|..]
    ensures AllSpace(s[..|s| - |r|])
    ensures |r| > 0 ==> !IsSpace(r[0])
    decreases |s|
  {
    if |s| > 0 && IsSpace(s[0]) then TrimStart(s[1..]) else s
  }

  /** Python's `str.rstrip()`: the prefix left after dropping trailing whitespace. */
  function TrimEnd(s: string): (r: string)
    ensures |r| <= |s| && r == s[..|r|]
    ensures AllSpace(s[|r|..])
    ensures |r| > 0 ==> !IsSpace(r[|r| - 1])
    decreases |s|
  {
    if |s| > 0 && IsSpace(s[|s| - 1]) then TrimEnd(s[..|s| - 1]) else s
  }

  /**
   * Python's `str.strip()`: the result is a slice of `s` with only
   * whitespace cut off on either side, and it has no whitespace left at
   * either end.
   */
  function Strip(s: string): (r: string)
    ensures IsStripped(r)
    ensures WhitespaceFramed(s, r)
  {
    var t := TrimStart(s);
    var r := TrimEnd(t);
    FramedSlice(s, t, r);
    r
  }

  /**
   * A whitespace-framed prefix `r` of a whitespace-framed suffix `t` of `s`
   * is a slice of `s` framed by whitespace, and it is stripped when `t`
   * starts and `r` ends with a non-space.
   */
  lemma FramedSlice(s: string, t: string, r: string)
    requires |t| <= |s| && t == s[|s| - |t|..] && AllSpace(s[..|s| - |t|])
    requires |t| > 0 ==> !IsSpace(t[0])
    requires |r| <= |t| && r == t[..|r|] && AllSpace(t[|r|..])
    requires |r| > 0 ==> !IsSpace(r[|r| - 1])
    ensures IsStripped(r)
    ensures WhitespaceFramed(s, r)
  {
    var i := |s| - |t|;
    assert t[|r|..] == s[i + |r|..];
    assert r == s[i..i + |r|] && AllSpace(s[..i]) && AllSpace(s[i + |r|..]);
    if |r| > 0 {
      assert r[0] == t[0];
    }
  }

  lemma {:induction false} TrimStartPadded(pre: string, x: string)
    requires AllSpace(pre)
    requires |x| == 0 || !IsSpace(x[0])
    ensures TrimStart(pre + x) == x
    decreases |pre|
  {
    if |pre| > 0 {
      assert (pre + x)[1..] == pre[1..] + x;
      TrimStartPadded(pre[1..], x);
    } else {
      assert pre + x == x;
    }
  }

  lemma {:induction false} TrimEndPadded(x: string, post: string)
    requires AllSpace(post)
    requires |x| == 0 || !IsSpace(x[|x| - 1])
    ensures TrimEnd(x + post) == x
    decreases |post|
  {
    if |post| > 0 {
      assert (x + post)[..|x + post| - 1] == x + post[..|post| - 1];
      TrimEndPadded(x, post[..|post| - 1]);
    } else {
      assert x + post == x;
    }
  }

  /** Stripping undoes whitespace padding: it recovers any already-stripped text exactly. */
  lemma StripPadded(pre: string, t: string, post: string)
    requires AllSpace(pre) && AllSpace(post) && IsStripped(t)
    ensures Strip(pre + t + post) == t
  {
    if |t| > 0 {
      assert pre + t + post == pre + (t + post);
      TrimStartPadded(pre, t + post);
      TrimEndPadded(t, post);
    } else {
      assert pre + t + post == pre + post;
      assert AllSpace(pre + post);
      TrimStartPadded(pre + post, "");
      assert pre + post + "" == pre + post;
    }
  }

  /** Stripping a non-empty stripped text followed by whitespace recovers the text. */
  lemma StripTrailingSpace(t: string, post: string)
    requires |t| > 0 && IsStripped(t) && AllSpace(post)
    ensures Strip(t + post) == t
  {
    assert (t + post)[0] == t[0];
    assert TrimStart(t + post) == t + post;
    TrimEndPadded(t, post);
  }

  /** Text without whitespace at its ends is left as it is. */
  lemma StripStripped(t: string)
    requires IsStripped(t)
    ensures Strip(t) == t
  {
    StripPadded("", t, "");
    assert "" + t + "" == t;
  }

  /** Stripping twice is stripping once. */
  lemma StripIdempotent(s: string)
    ensures Strip(Strip(s)) == Strip(s)
  {
    StripStripped(Strip(s));
  }

  /** Python's `str.lower()` on one character, ASCII letters only. */
  function LowerChar(c: char): char {
    if 'A' <= c <= 'Z' then (c as int + 32) as char else c
  }

  /** Python's `str.lower()`, ASCII letters only. */
  function Lower(s: string): string {
    seq(|s|, k requires 0 <= k < |s| => LowerChar(s[k]))
  }

  lemma LowerAppend(a: string, b: string)
    ensures Lower(a + b) == Lower(a) + Lower(b)
  {
  }

  /** Python's `s.startswith(p)`. */
  predicate StartsWith(s: string, p: string) {
    |p| <= |s| && s[..|p|] == p
  }

  /** Python's `s.endswith(p)`. */
  predicate EndsWith(s: string, p: string) {
    |p| <= |s| && s[|s| - |p|..] == p
  }

  /** `t` occurs in `s` starting at index `i`. */
  predicate OccursAt(s: string, t: string, i: int) {
    0 <= i && i + |t| <= |s| && s[i..i + |t|] == t
  }

  /** Python's `t in s` on strings, scanning left to right. */
  function Contains(s: string, t: string): bool
    decreases |s|
  {
    StartsWith(s, t) || (|s| > 0 && Contains(s[1..], t))
  }

  /** The scan agrees with the positional definition of a substring. */
  lemma {:induction false} ContainsIff(s: string, t: string)
    ensures Contains(s, t) <==> exists i :: OccursAt(s, t, i)
    decreases |s|
  {
    if StartsWith(s, t) {
      assert OccursAt(s, t, 0);
    } else if |s| == 0 {
      assert |t| > 0;
    } else {
      ContainsIff(s[1..], t);
      if Contains(s[1..], t) {
        var i :| OccursAt(s[1..], t, i);
        assert s[1..][i..i + |t|] == s[i + 1..i + 1 + |t|];
        assert OccursAt(s, t, i + 1);
      }
      if i :| OccursAt(s, t, i) {
        assert i != 0;
        assert s[1..][i - 1..i - 1 + |t|] == s[i..i + |t|];
        assert OccursAt(s[1..], t, i - 1);
      }
    }
  }

  /** Every character of a contained string is a character of the container. */
  lemma ContainedChars(s: string, t: string, c: char)
    requires Contains(s, t) && c in t
    ensures c in s
  {
    ContainsIff(s, t);
    var i :| OccursAt(s, t, i);
    assert s[i..i + |t|] == t;
  }

  /**
   * Python's `s.replace(pat, rep)`: every occurrence of `pat` found by a
   * left-to-right scan is replaced, and scanning resumes after it, so
   * occurrences never overlap.
   */
  function Replace(s: string, pat: string, rep: string): string
    requires |pat| > 0
    decreases |s|
  {
    if StartsWith(s, pat) then rep + Replace(s[|pat|..], pat, rep)
    else if |s| == 0 then ""
    else [s[0]] + Replace(s[1..], pat, rep)
  }

  /** Python's `s.split(sep)`: the pieces between left-to-right, non-overlapping occurrences of `sep`. */
  function Split(s: string, sep: string): (parts: seq<string>)
    requires |sep| > 0
    ensures |parts| > 0
    decreases |s|
  {
    if StartsWith(s, sep) then [""] + Split(s[|sep|..], sep)
    else if |s| == 0 then [""]
    else
      var rest := Split(s[1..], sep);
      [[s[0]] + rest[0]] + rest[1..]
  }

  /** Python's `sep.join(parts)`. */
  function Join(parts: seq<string>, sep: string): string
  {
    if |parts| == 0 then ""
    else if |parts| == 1 then parts[0]
    else parts[0] + sep + Join(parts[1..], sep)
  }

  lemma JoinConsChar(c: char, a: string, t: seq<string>, sep: string)
    ensures Join([[c] + a] + t, sep) == [c] + Join([a] + t, sep)
  {
    assert ([[c] + a] + t)[1..] == t;
    assert ([a] + t)[1..] == t;
  }

  /** Python's identity `s.replace(p, r) == r.join(s.split(p))`. */
  lemma {:induction false} ReplaceIsJoinOfSplit(s: string, pat: string, rep: string)
    requires |pat| > 0
    ensures Replace(s, pat, rep) == Join(Split(s, pat), rep)
    decreases |s|
  {
    if StartsWith(s, pat) {
      ReplaceIsJoinOfSplit(s[|pat|..], pat, rep);
      var rest := Split(s[|pat|..], pat);
      assert ([""] + rest)[1..] == rest;
    } else if |s| == 0 {
    } else {
      ReplaceIsJoinOfSplit(s[1..], pat, rep);
      var rest := Split(s[1..], pat);
      assert rest == [rest[0]] + rest[1..];
      JoinConsChar(s[0], rest[0], rest[1..], rep);
    }
  }

  /** Replacing a pattern by itself changes nothing. */
  lemma {:induction false} ReplaceBySelf(s: string, pat: string)
    requires |pat| > 0
    ensures Replace(s, pat, pat) == s
    decreases |s|
  {
    if StartsWith(s, pat) {
      ReplaceBySelf(s[|pat|..], pat);
      assert s == s[..|pat|] + s[|pat|..];
    } else if |s| > 0 {
      ReplaceBySelf(s[1..], pat);
      assert s == [s[0]] + s[1..];
    }
  }

  /** When the pattern does not occur, replacement is the identity. */
  lemma {:induction false} ReplaceAbsent(s: string, pat: string, rep: string)
    requires |pat| > 0
    requires !Contains(s, pat)
    ensures Replace(s, pat, rep) == s
    decreases |s|
  {
    if |s| > 0 {
      ReplaceAbsent(s[1..], pat, rep);
      assert s == [s[0]] + s[1..];
    }
  }

  /** The first piece of a split is a prefix of the split string. */
  lemma {:induction false} SplitHeadIsPrefix(s: string, sep: string)
    requires |sep| > 0
    ensures StartsWith(s, Split(s, sep)[0])
    decreases |s|
  {
    if !StartsWith(s, sep) && |s| > 0 {
      SplitHeadIsPrefix(s[1..], sep);
    }
  }

  /** No piece of a split contains the separator: every occurrence was cut out. */
  lemma {:induction false} SplitPiecesAvoidSeparator(s: string, sep: string)
    requires |sep| > 0
    ensures forall k | 0 <= k < |Split(s, sep)| :: !Contains(Split(s, sep)[k], sep)
    decreases |s|
  {
    if StartsWith(s, sep) {
      SplitPiecesAvoidSeparator(s[|sep|..], sep);
      var rest := Split(s[|sep|..], sep);
      assert Split(s, sep) == [""] + rest;
      assert !Contains("", sep);
    } else if |s| == 0 {
      assert !Contains("", sep);
    } else {
      SplitPiecesAvoidSeparator(s[1..], sep);
      SplitHeadIsPrefix(s[1..], sep);
      var rest := Split(s[1..], sep);
      var head := [s[0]] + rest[0];
      assert head[1..] == rest[0];
      assert head == s[..|head|];
      if |sep| <= |head| {
        assert head[..|sep|] == s[..|sep|];
      }
      assert !StartsWith(head, sep);
      assert !Contains(head, sep);
      forall k | 0 <= k < |Split(s, sep)|
        ensures !Contains(Split(s, sep)[k], sep)
      {
        if k > 0 {
          assert Split(s, sep)[k] == rest[k];
        }
      }
    }
  }

  /** Joining the pieces of a split with the separator rebuilds the string. */
  lemma SplitJoinRoundTrip(s: string, sep: string)
    requires |sep| > 0
    ensures Join(Split(s, sep), sep) == s
  {
    ReplaceIsJoinOfSplit(s, sep, sep);
    ReplaceBySelf(s, sep);
  }

  /** A string without the separator splits into itself alone. */
  lemma {:induction false} SplitWithoutSeparator(s: string, sep: string)
    requires |sep| > 0
    requires !Contains(s, sep)
    ensures Split(s, sep) == [s]
    decreases |s|
  {
    if |s| > 0 {
      SplitWithoutSeparator(s[1..], sep);
      assert s == [s[0]] + s[1..];
    }
  }

  lemma {:induction false} SplitAfterPiece(a: string, sep: string, t: string)
    requires |sep| == 1
    requires !Contains(a, sep)
    ensures Split(a + sep + t, sep) == [a] + Split(t, sep)
    decreases |a|
  {
    if |a| == 0 {
      assert a + sep + t == sep + t;
      assert (sep + t)[|sep|..] == t;
    } else {
      var s := a + sep + t;
      assert s[..1] == a[..1];
      assert !StartsWith(s, sep);
      assert s[1..] == a[1..] + sep + t;
      SplitAfterPiece(a[1..], sep, t);
      assert a == [a[0]] + a[1..];
    }
  }

  /**
   * With a one-character separator that no piece contains, splitting the
   * joined text gives the pieces back.
   */
  lemma {:induction false} JoinSplitRoundTrip(parts: seq<string>, sep: string)
    requires |sep| == 1 && |parts| > 0
    requires forall k | 0 <= k < |parts| :: !Contains(parts[k], sep)
    ensures Split(Join(parts, sep), sep) == parts
    decreases |parts|
  {
    if |parts| == 1 {
      SplitWithoutSeparator(parts[0], sep);
    } else {
      JoinSplitRoundTrip(parts[1..], sep);
      SplitAfterPiece(parts[0], sep, Join(parts[1..], sep));
      assert parts == [parts[0]] + parts[1..];
    }
  }
}
