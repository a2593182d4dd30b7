/**
 * The handful of Python `str` operations the converters rely on, with
 * Python's semantics: `lower()` (ASCII letters only), `endswith`,
 * `startswith`, the `in` substring test, `split` on one character,
 * `sep.join(...)`, `strip()` and `strip(chars)`.
 */
module PyStr {

  /** `c.lower()` for one character; only ASCII capitals change. */
  function LowerChar(c: char): char {
    if 'A' <= c <= 'Z' then (c as int + 32) as char else c
  }

  /** `s.lower()`. */
  function Lower(s: string): (r: string)
    ensures |r| == |s|
    ensures forall i :: 0 <= i < |s| ==> r[i] == LowerChar(s[i])
  {
    seq(|s|, i requires 0 <= i < |s| => LowerChar(s[i]))
  }

  /** `s.endswith(suffix)`. */
  predicate EndsWith(s: string, suffix: string) {
    |suffix| <= |s| && s[|s| - |suffix|..] == suffix
  }

  /** `s.startswith(prefix)`. */
  predicate StartsWith(s: string, prefix: string) {
    |prefix| <= |s| && s[..|prefix|] == prefix
  }

  /** `sub in s`. */
  predicate Contains(s: string, sub: string)
    decreases |s|
  {
    StartsWith(s, sub) || (|s| > 0 && Contains(s[1..], sub))
  }

  /** `s.split(sep)` for a one-character separator: never empty, and the
      pieces are the maximal runs between separators. */
  function Split(s: string, sep: char): (pieces: seq<string>)
    ensures |pieces| > 0
    decreases |s|
  {
    if s == [] then [""]
    else
      var rest := Split(s[1..], sep);
      if s[0] == sep then [""] + rest
      else [[s[0]] + rest[0]] + rest[1..]
  }

  /** `sep.join(parts)`. */
  function JoinWith(parts: seq<string>, sep: string): string
    decreases |parts|
  {
    if parts == [] then ""
    else if |parts| == 1 then parts[0]
    else parts[0] + sep + JoinWith(parts[1..], sep)
  }

  /** The characters `str.isspace()` accepts, which `str.strip()` removes:
      the ASCII whitespace and separators 0x09-0x0d, 0x1c-0x1f and 0x20,
      and the Unicode spaces and line separators. */
  const Whitespace: set<char> := {
    '\U{9}', '\U{a}', '\U{b}', '\U{c}', '\U{d}', '\U{1c}', '\U{1d}', '\U{1e}', '\U{1f}',
    '\U{20}', '\U{85}', '\U{a0}', '\U{1680}', '\U{2000}', '\U{2001}', '\U{2002}', '\U{2003}',
    '\U{2004}', '\U{2005}', '\U{2006}', '\U{2007}', '\U{2008}', '\U{2009}', '\U{200a}',
    '\U{2028}', '\U{2029}', '\U{202f}', '\U{205f}', '\U{3000}'
  }

  /** The first index at or after `i` whose character is not in `chars`
      (`|s|` if there is none). */
  function SkipForward(s: string, chars: set<char>, i: nat): (k: nat)
    requires i <= |s|
    ensures i <= k <= |s|
    ensures k == |s| || s[k] !in chars
    decreases |s| - i
  {
    if i < |s| && s[i] in chars then SkipForward(s, chars, i + 1) else i
  }

  /** Every character SkipForward passes over is in `chars`. */
  lemma {:induction false} SkipForwardSkips(s: string, chars: set<char>, i: nat)
    requires i <= |s|
    ensures forall k :: i <= k < SkipForward(s, chars, i) ==> s[k] in chars
    decreases |s| - i
  {
    if i < |s| && s[i] in chars {
      SkipForwardSkips(s, chars, i + 1);
    }
  }

  /** The index just after the last character before `j` that is not in
      `chars`, searching no further back than `lo`. */
  function SkipBackward(s: string, chars: set<char>, lo: nat, j: nat): (k: nat)
    requires lo <= j <= |s|
    ensures lo <= k <= j
    ensures k == lo || s[k - 1] !in chars
    decreases j
  {
    if lo < j && s[j - 1] in chars then SkipBackward(s, chars, lo, j - 1) else j
  }

  /** Every character SkipBackward passes over is in `chars`. */
  lemma {:induction false} SkipBackwardSkips(s: string, chars: set<char>, lo: nat, j: nat)
    requires lo <= j <= |s|
    ensures forall k :: SkipBackward(s, chars, lo, j) <= k < j ==> s[k] in chars
    decreases j
  {
    if lo < j && s[j - 1] in chars {
      SkipBackwardSkips(s, chars, lo, j - 1);
    }
  }

  /** `s.strip(chars)`: `s` without its leading and trailing characters
      of `chars`. */
  function StripChars(s: string, chars: set<char>): (r: string)
    ensures |r| <= |s|
  {
    var i := SkipForward(s, chars, 0);
    s[i..SkipBackward(s, chars, i, |s|)]
  }

  /** What `strip(chars)` removes: the result is a slice `s[i..j]` with
      only characters of `chars` before and after it, and the slice itself
      neither starts nor ends with one of them. */
  lemma StripSlice(s: string, chars: set<char>)
    ensures exists i, j ::
              && 0 <= i <= j <= |s|
              && StripChars(s, chars) == s[i..j]
              && forall k :: 0 <= k < i || j <= k < |s| ==> s[k] in chars
    ensures var r := StripChars(s, chars);
      r == [] || (r[0] !in chars && r[|r| - 1] !in chars)
  {
    var i := SkipForward(s, chars, 0);
    var j := SkipBackward(s, chars, i, |s|);
    SkipForwardSkips(s, chars, 0);
    SkipBackwardSkips(s, chars, i, |s|);
    assert StripChars(s, chars) == s[i..j];
  }

  /** `s.strip()`: strips the whitespace. */
  function Strip(s: string): string {
    StripChars(s, Whitespace)
  }

  /** Splitting on a character and joining back with it gives the string
      back, and no piece contains the separator. */
  lemma {:induction false} SplitJoinRoundTrip(s: string, sep: char)
    ensures JoinWith(Split(s, sep), [sep]) == s
    ensures forall k :: 0 <= k < |Split(s, sep)| ==> sep !in Split(s, sep)[k]
    decreases |s|
  {
    if s != [] {
      SplitJoinRoundTrip(s[1..], sep);
      var rest := Split(s[1..], sep);
      if s[0] == sep {
        assert Split(s, sep) == [""] + rest;
        assert JoinWith([""] + rest, [sep]) == "" + [sep] + JoinWith(rest, [sep]);
        assert s == [s[0]] + s[1..];
      } else {
        var pieces := Split(s, sep);
        assert pieces == [[s[0]] + rest[0]] + rest[1..];
        if |rest| == 1 {
          assert JoinWith(pieces, [sep]) == [s[0]] + rest[0];
        } else {
          assert rest == [rest[0]] + rest[1..];
          assert JoinWith(rest, [sep]) == rest[0] + [sep] + JoinWith(rest[1..], [sep]);
          assert JoinWith(pieces, [sep]) == [s[0]] + rest[0] + [sep] + JoinWith(rest[1..], [sep]);
        }
        assert s == [s[0]] + s[1..];
        forall k | 0 <= k < |pieces| ensures sep !in pieces[k] {
          if k > 0 { assert pieces[k] == rest[k]; }
        }
      }
    }
  }

  /** A text that holds the separator is never found inside a piece that
      does not: the reason a `split` line can only match a one-line text. */
  lemma {:induction false} NoSepNoContains(s: string, sub: string, sep: char)
    requires sep !in s && sep in sub
    ensures !Contains(s, sub)
    decreases |s|
  {
    if |s| > 0 {
      assert forall c :: c in s[1..] ==> c in s;
      NoSepNoContains(s[1..], sub, sep);
    }
  }

  /** Text found in `a` is still found once something is appended. */
  lemma {:induction false} ContainsAppend(a: string, b: string, t: string)
    requires Contains(a, t)
    ensures Contains(a + b, t)
    decreases |a|
  {
    if StartsWith(a, t) {
      assert (a + b)[..|t|] == a[..|t|];
    } else {
      ContainsAppend(a[1..], b, t);
      assert (a + b)[1..] == a[1..] + b;
    }
  }

  /** Text found in `b` is still found once something is prepended. */
  lemma {:induction false} ContainsPrepend(a: string, b: string, t: string)
    requires Contains(b, t)
    ensures Contains(a + b, t)
    decreases |a|
  {
    if a == [] {
      assert a + b == b;
    } else {
      ContainsPrepend(a[1..], b, t);
      assert (a + b)[1..] == a[1..] + b;
    }
  }

  /** Text found in one part is found in `sep.join(parts)`. */
  lemma {:induction false} JoinContains(parts: seq<string>, sep: string, k: nat, t: string)
    requires k < |parts| && Contains(parts[k], t)
    ensures Contains(JoinWith(parts, sep), t)
    decreases |parts|
  {
    if |parts| > 1 {
      var rest := JoinWith(parts[1..], sep);
      assert JoinWith(parts, sep) == parts[0] + (sep + rest);
      if k == 0 {
        ContainsAppend(parts[0], sep + rest, t);
      } else {
        JoinContains(parts[1..], sep, k - 1, t);
        ContainsPrepend(parts[0] + sep, rest, t);
        assert (parts[0] + sep) + rest == parts[0] + (sep + rest);
      }
    }
  }

  /** Text found in a piece of `s.split(sep)` is found in `s`. */
  lemma SplitPieceContains(s: string, sep: char, k: nat, t: string)
    requires k < |Split(s, sep)| && Contains(Split(s, sep)[k], t)
    ensures Contains(s, t)
  {
    SplitJoinRoundTrip(s, sep);
    JoinContains(Split(s, sep), [sep], k, t);
  }

  /** `sep.join(parts)` splits at any part boundary `k` into the join of
      the parts before it, the separator, and the join of the rest. */
  lemma {:induction false} JoinSplitAt(parts: seq<string>, sep: string, k: nat)
    requires 0 < k < |parts|
    ensures JoinWith(parts, sep) == JoinWith(parts[..k], sep) + sep + JoinWith(parts[k..], sep)
    decreases |parts|
  {
    var rest := JoinWith(parts[1..], sep);
    if k == 1 {
      assert JoinWith(parts[..1], sep) == parts[0];
      assert parts[1..] == parts[k..];
    } else {
      JoinSplitAt(parts[1..], sep, k - 1);
      assert parts[1..][..k - 1] == parts[..k][1..];
      assert parts[1..][k - 1..] == parts[k..];
      assert JoinWith(parts[..k], sep) == parts[0] + sep + JoinWith(parts[1..][..k - 1], sep);
    }
  }

  /** The last pieces of `s.split(sep)`, joined back with the separator,
      are the end of `s`. */
  lemma SplitTailEnds(s: string, sep: char, k: nat)
    requires k < |Split(s, sep)|
    ensures EndsWith(s, JoinWith(Split(s, sep)[k..], [sep]))
  {
    var pieces := Split(s, sep);
    SplitJoinRoundTrip(s, sep);
    if k == 0 {
      assert pieces[k..] == pieces;
      assert s[|s| - |s|..] == s;
    } else {
      JoinSplitAt(pieces, [sep], k);
      var front := JoinWith(pieces[..k], [sep]) + [sep];
      var back := JoinWith(pieces[k..], [sep]);
      assert s == front + back;
      assert s[|s| - |back|..] == back;
    }
  }

  /** A suffix of `b` is a suffix of `a + b`. */
  lemma EndsWithAppend(a: string, b: string, t: string)
    requires EndsWith(b, t)
    ensures EndsWith(a + b, t)
  {
    assert (a + b)[|a + b| - |t|..] == b[|b| - |t|..];
  }

  /** A suffix of a suffix is a suffix. */
  lemma EndsWithTrans(s: string, mid: string, t: string)
    requires EndsWith(s, mid) && EndsWith(mid, t)
    ensures EndsWith(s, t)
  {
    assert s[|s| - |t|..] == s[|s| - |mid|..][|mid| - |t|..];
  }

  /** `sep.join(parts)` ends with the last part. */
  lemma {:induction false} JoinEndsWithLast(parts: seq<string>, sep: string)
    requires parts != []
    ensures EndsWith(JoinWith(parts, sep), parts[|parts| - 1])
    decreases |parts|
  {
    if |parts| > 1 {
      JoinEndsWithLast(parts[1..], sep);
      var rest := JoinWith(parts[1..], sep);
      assert JoinWith(parts, sep) == (parts[0] + sep) + rest;
    }
  }
}
