/**
 * The handful of Python `str` operations the core relies on, over strings of
 * code points: `isspace`, `lower`, the `in` test, `replace`, `count`,
 * `split()`, `strip()` and `sep.join(parts)`.
 */
module Text {

  // ---------------------------------------------------------------------------
  // Characters

  /** Python's `str.isspace` for one code point: the characters `split()` and `strip()` treat as blanks. */
  predicate IsSpace(c: char) {
    || ('\t' <= c <= '\r')
    || ('\U{1C}' <= c <= '\U{1F}')
    || c == ' '
    || c == '\U{85}'
    || c == '\U{A0}'
    || c == '\U{1680}'
    || ('\U{2000}' <= c <= '\U{200A}')
    || c == '\U{2028}'
    || c == '\U{2029}'
    || c == '\U{202F}'
    || c == '\U{205F}'
    || c == '\U{3000}'
  }

  /** True when the code point is an upper-case letter of ASCII or Latin-1. */
  predicate IsUpper(c: char) {
    ('A' <= c <= 'Z') || ('\U{C0}' <= c <= '\U{DE}' && c != '\U{D7}')
  }

  /** Python's `lower()` on ASCII and Latin-1 letters: each lies 32 code points below its lower-case form. */
  function LowerChar(c: char): (r: char)
    ensures !IsUpper(r)
    ensures IsUpper(c) <==> r != c
  {
    if IsUpper(c) then (c as int + 32) as char else c
  }

  /** Python's `s.lower()`, one code point at a time. */
  function Lower(s: string): (r: string)
    ensures |r| == |s|
    ensures forall i :: 0 <= i < |s| ==> r[i] == LowerChar(s[i])
  {
    seq(|s|, i requires 0 <= i < |s| => LowerChar(s[i]))
  }

  /** Lowering twice is lowering once: matching a lowered word against lowered text is case-insensitive. */
  lemma LowerIdempotent(s: string)
    ensures Lower(Lower(s)) == Lower(s)
  {
    forall i | 0 <= i < |s|
      ensures Lower(Lower(s))[i] == Lower(s)[i]
    {
      assert !IsUpper(Lower(s)[i]);
    }
  }

  // ---------------------------------------------------------------------------
  // Substrings

  predicate IsPrefix(p: string, s: string) {
    |p| <= |s| && s[..|p|] == p
  }

  /** Python's `sub in s`: `sub` occurs at some position of `s` (the empty string occurs everywhere). */
  predicate Contains(s: string, sub: string)
    decreases |s|
  {
    IsPrefix(sub, s) || (|s| > 0 && Contains(s[1..], sub))
  }

  /** `Contains` agrees with the positional reading "some slice of `s` equals `sub`". */
  lemma {:induction false} ContainsAt(s: string, sub: string)
    ensures Contains(s, sub) <==> exists i :: 0 <= i <= |s| - |sub| && IsPrefix(sub, s[i..])
    decreases |s|
  {
    if IsPrefix(sub, s) {
      assert s[0..] == s;
    } else if |s| > 0 {
      ContainsAt(s[1..], sub);
      if Contains(s[1..], sub) {
        var i :| 0 <= i <= |s[1..]| - |sub| && IsPrefix(sub, s[1..][i..]);
        assert s[1..][i..] == s[i + 1..];
      }
      if exists i :: 0 <= i <= |s| - |sub| && IsPrefix(sub, s[i..]) {
        var i :| 0 <= i <= |s| - |sub| && IsPrefix(sub, s[i..]);
        assert i != 0 by { assert s[0..] == s; }
        assert s[1..][i - 1..] == s[i..];
      }
    }
  }

  /** A text shorter than `sub` cannot contain it. */
  lemma {:induction false} ShortDoesNotContain(s: string, sub: string)
    requires |s| < |sub|
    ensures !Contains(s, sub)
    decreases |s|
  {
    if |s| > 0 {
      ShortDoesNotContain(s[1..], sub);
    }
  }

  /** Whoever contains `a + b` contains `a`. */
  lemma {:induction false} ContainsPrefixPart(s: string, a: string, b: string)
    requires Contains(s, a + b)
    ensures Contains(s, a)
    decreases |s|
  {
    if IsPrefix(a + b, s) {
      assert s[..|a|] == (a + b)[..|a|] == a;
    } else {
      ContainsPrefixPart(s[1..], a, b);
    }
  }

  /** A text in which the first character of `sub` never occurs cannot contain `sub`. */
  lemma {:induction false} LeadAbsent(s: string, sub: string)
    requires sub != []
    requires forall i :: 0 <= i < |s| ==> s[i] != sub[0]
    ensures !Contains(s, sub)
    decreases |s|
  {
    if |s| > 0 {
      assert !IsPrefix(sub, s) by {
        if |sub| <= |s| { assert s[..|sub|][0] == s[0]; }
      }
      LeadAbsent(s[1..], sub);
    }
  }

  /** Two texts free of the pair `cc` stay free of it when joined, unless the second starts with `c`. */
  lemma {:induction false} PairFreeConcat(a: string, b: string, c: char)
    requires !Contains(a, [c, c]) && !Contains(b, [c, c])
    requires b == [] || b[0] != c
    ensures !Contains(a + b, [c, c])
    decreases |a|
  {
    if a == [] {
      assert a + b == b;
    } else {
      assert !IsPrefix([c, c], a + b) by {
        if |a| >= 2 {
          assert (a + b)[..2] == a[..2];
        } else if b != [] {
          assert (a + b)[1] == b[0];
        }
      }
      assert Contains(a[1..], [c, c]) ==> Contains(a, [c, c]);
      PairFreeConcat(a[1..], b, c);
      assert (a + b)[1..] == a[1..] + b;
    }
  }

  // ---------------------------------------------------------------------------
  // Replacement

  /**
   * Python's `s.replace(pat, rep)` for a non-empty pattern: scanning from the
   * left, every occurrence is replaced and the scan resumes after it, so the
   * replaced occurrences never overlap.
   */
  function Replace(s: string, pat: string, rep: string): string
    requires pat != []
    decreases |s|
  {
    if |s| < |pat| then s
    else if s[..|pat|] == pat then rep + Replace(s[|pat|..], pat, rep)
    else [s[0]] + Replace(s[1..], pat, rep)
  }

  /** Python's `s.count(pat)` for a non-empty pattern: the non-overlapping occurrences, counted from the left. */
  function Count(s: string, pat: string): nat
    requires pat != []
    decreases |s|
  {
    if |s| < |pat| then 0
    else if s[..|pat|] == pat then 1 + Count(s[|pat|..], pat)
    else Count(s[1..], pat)
  }

  /** Each replaced occurrence changes the length by `|rep| - |pat|`. */
  lemma {:induction false} ReplaceLength(s: string, pat: string, rep: string)
    requires pat != []
    ensures |Replace(s, pat, rep)| == |s| + Count(s, pat) * (|rep| - |pat|)
    decreases |s|
  {
    if |s| < |pat| {
    } else if s[..|pat|] == pat {
      var rest := s[|pat|..];
      ReplaceLength(rest, pat, rep);
      Distribute(Count(rest, pat), |rep| - |pat|);
    } else {
      ReplaceLength(s[1..], pat, rep);
    }
  }

  lemma Distribute(k: int, d: int)
    ensures (1 + k) * d == d + k * d
  {
  }

  /** A text in which the pattern does not occur is returned as it is. */
  lemma {:induction false} ReplaceAbsent(s: string, pat: string, rep: string)
    requires pat != []
    requires !Contains(s, pat)
    ensures Replace(s, pat, rep) == s
    decreases |s|
  {
    if |s| < |pat| {
    } else {
      assert !IsPrefix(pat, s);
      ReplaceAbsent(s[1..], pat, rep);
      assert [s[0]] + s[1..] == s;
    }
  }

  /** The pattern occurs exactly when the count is positive. */
  lemma {:induction false} CountPositive(s: string, pat: string)
    requires pat != []
    ensures Count(s, pat) > 0 <==> Contains(s, pat)
    decreases |s|
  {
    if |s| < |pat| {
      ShortDoesNotContain(s, pat);
    } else if s[..|pat|] == pat {
    } else {
      CountPositive(s[1..], pat);
    }
  }

  /**
   * Deleting every doubled character `cc` leaves none behind: the scan removes
   * the leftmost pair first, so a kept `c` is never followed by another `c`.
   */
  lemma {:induction false} RemovePairLeavesNone(s: string, c: char)
    ensures !Contains(Replace(s, [c, c], ""), [c, c])
    decreases |s|
  {
    var pair := [c, c];
    if |s| < 2 {
      ShortDoesNotContain(s, pair);
    } else if s[..2] == pair {
      RemovePairLeavesNone(s[2..], c);
      assert Replace(s, pair, "") == Replace(s[2..], pair, "");
    } else {
      var rest := Replace(s[1..], pair, "");
      RemovePairLeavesNone(s[1..], c);
      assert Replace(s, pair, "") == [s[0]] + rest;
      if s[0] == c {
        assert s[1] != c;
        KeptHead(s[1..], c);
      }
      assert ([s[0]] + rest)[1..] == rest;
    }
  }

  /** A text that does not start with `c` keeps its first character when pairs `cc` are removed. */
  lemma KeptHead(t: string, c: char)
    requires |t| > 0 && t[0] != c
    ensures |Replace(t, [c, c], "")| > 0 && Replace(t, [c, c], "")[0] == t[0]
  {
  }

  // ---------------------------------------------------------------------------
  // Splitting, stripping and joining

  /** Every code point of `s` is a blank (true of the empty string). */
  predicate IsBlank(s: string) {
    forall i :: 0 <= i < |s| ==> IsSpace(s[i])
  }

  /** A word: non-empty and free of blanks. */
  predicate IsWord(w: string) {
    |w| > 0 && forall i :: 0 <= i < |w| ==> !IsSpace(w[i])
  }

  /** Python's `s.lstrip()`: drop leading blanks. */
  function TrimLeft(s: string): (r: string)
    ensures |r| <= |s| && r == s[|s| - |r|..]
    ensures r == [] || !IsSpace(r[0])
    ensures IsBlank(s[..|s| - |r|])
    decreases |s|
  {
    if s != [] && IsSpace(s[0]) then TrimLeft(s[1..]) else s
  }

  /** Python's `s.rstrip()`: drop trailing blanks. */
  function TrimRight(s: string): (r: string)
    ensures |r| <= |s| && r == s[..|r|]
    ensures r == [] || !IsSpace(r[|r| - 1])
    ensures IsBlank(s[|r|..])
    decreases |s|
  {
    if s != [] && IsSpace(s[|s| - 1]) then
      var r := TrimRight(s[..|s| - 1]);
      assert s[|r|..] == s[..|s| - 1][|r|..] + [s[|s| - 1]];
      r
    else s
  }

  /** Python's `s.strip()`. */
  function Strip(s: string): string {
    TrimRight(TrimLeft(s))
  }

  /** `strip()` yields the empty string exactly for blank input. */
  lemma StripEmptyIffBlank(s: string)
    ensures Strip(s) == [] <==> IsBlank(s)
  {
    var t := TrimLeft(s);
    assert s == s[..|s| - |t|] + t;
    assert t != [] ==> t[0] == s[|s| - |t|];
    assert TrimRight(t) == [] ==> IsBlank(t) by {
      assert t[0..] == t;
    }
    assert t == [] ==> s == s[..|s|];
  }

  /** What `strip()` keeps neither starts nor ends with a blank. */
  lemma StripBounds(s: string)
    ensures var r := Strip(s); r == [] || (!IsSpace(r[0]) && !IsSpace(r[|r| - 1]))
  {
    var t := TrimLeft(s);
    var r := TrimRight(t);
    if r != [] {
      assert r[0] == t[0];
    }
  }

  /** The longest blank-free prefix of `s`. */
  function LeadingWord(s: string): (w: string)
    ensures IsPrefix(w, s)
    ensures forall i :: 0 <= i < |w| ==> !IsSpace(w[i])
    ensures |w| == |s| || IsSpace(s[|w|])
    decreases |s|
  {
    if s == [] || IsSpace(s[0]) then [] else [s[0]] + LeadingWord(s[1..])
  }

  /**
   * Python's `s.split()` with no separator: the maximal runs of non-blank code
   * points, in order. Blanks are skipped; a non-blank starts a word that runs
   * to the next blank.
   */
  function Split(s: string): (words: seq<string>)
    ensures forall k :: 0 <= k < |words| ==> IsWord(words[k])
    decreases |s|
  {
    if s == [] then []
    else if IsSpace(s[0]) then Split(s[1..])
    else
      var w := LeadingWord(s);
      assert w[0] == s[0];
      var rest := Split(s[|w|..]);
      assert forall k :: 0 < k <= |rest| ==> ([w] + rest)[k] == rest[k - 1];
      [w] + rest
  }

  /** `split()` finds no word exactly in blank input. */
  lemma {:induction false} SplitEmptyIffBlank(s: string)
    ensures Split(s) == [] <==> IsBlank(s)
    decreases |s|
  {
    if s != [] && IsSpace(s[0]) {
      SplitEmptyIffBlank(s[1..]);
      assert IsBlank(s[1..]) ==> IsBlank(s);
      assert IsBlank(s) ==> IsBlank(s[1..]) by {
        assert forall i :: 0 <= i < |s[1..]| ==> s[1..][i] == s[i + 1];
      }
    }
  }

  /** A text that is one word splits into that word alone. */
  lemma {:induction false} SplitWord(w: string)
    requires IsWord(w)
    ensures Split(w) == [w]
  {
    LeadingWordWhole(w);
    assert w[|w|..] == [];
  }

  /** Without blanks, the leading word is the whole text. */
  lemma {:induction false} LeadingWordWhole(s: string)
    requires forall i :: 0 <= i < |s| ==> !IsSpace(s[i])
    ensures LeadingWord(s) == s
    decreases |s|
  {
    if s != [] {
      LeadingWordWhole(s[1..]);
    }
  }

  /** The leading word of `a` is kept when `b` is appended, unless `a` is all word and `b` continues it. */
  lemma {:induction false} LeadingWordConcat(a: string, b: string)
    requires |LeadingWord(a)| < |a| || b == [] || IsSpace(b[0])
    ensures LeadingWord(a + b) == LeadingWord(a)
    decreases |a|
  {
    if a == [] {
      assert a + b == b;
    } else if !IsSpace(a[0]) {
      assert (a + b)[1..] == a[1..] + b;
      LeadingWordConcat(a[1..], b);
    }
  }

  /**
   * Splitting at a blank splits each side: when the two texts meet at a blank
   * (or one is empty), the words of `a + b` are the words of `a` followed by
   * those of `b`. Together with `SplitEmptyIffBlank` and `SplitWord` this fixes
   * `Split` on every text.
   */
  lemma {:induction false} SplitConcat(a: string, b: string)
    requires a == [] || b == [] || IsSpace(a[|a| - 1]) || IsSpace(b[0])
    ensures Split(a + b) == Split(a) + Split(b)
    decreases |a|, 1
  {
    if a == [] {
      assert a + b == b;
    } else if IsSpace(a[0]) {
      assert (a + b)[1..] == a[1..] + b;
      SplitConcat(a[1..], b);
    } else {
      SplitConcatWordLed(a, b);
    }
  }

  /** `SplitConcat` when `a` starts with a word: that word leads both splits. */
  lemma {:induction false} SplitConcatWordLed(a: string, b: string)
    requires a != [] && !IsSpace(a[0])
    requires b == [] || IsSpace(a[|a| - 1]) || IsSpace(b[0])
    ensures Split(a + b) == Split(a) + Split(b)
    decreases |a|, 0
  {
    var w := LeadingWord(a);
    var rest := a[|w|..];
    assert w[0] == a[0];
    assert Split(a) == [w] + Split(rest);
    assert Split(a + b) == [w] + Split(rest + b) by {
      LeadingWordConcat(a, b);
      assert (a + b)[0] == a[0];
      assert (a + b)[|w|..] == rest + b;
    }
    assert Split(rest + b) == Split(rest) + Split(b) by {
      if |w| == |a| {
        assert rest == [] && rest + b == b;
      } else {
        assert rest[|rest| - 1] == a[|a| - 1];
        SplitConcat(rest, b);
      }
    }
    assert [w] + (Split(rest) + Split(b)) == ([w] + Split(rest)) + Split(b);
  }

  /** The number of words `split()` finds. */
  function WordCount(s: string): nat {
    |Split(s)|
  }

  /** Python's `sep.join(parts)`: the parts in order, one separator between neighbours and none at the ends. */
  function JoinWith(sep: string, parts: seq<string>): string
    decreases |parts|
  {
    if |parts| == 0 then ""
    else if |parts| == 1 then parts[0]
    else parts[0] + sep + JoinWith(sep, parts[1..])
  }

  /** Joining one more part adds exactly one separator, before the new part. */
  lemma {:induction false} JoinWithAppend(sep: string, parts: seq<string>, last: string)
    requires parts != []
    ensures JoinWith(sep, parts + [last]) == JoinWith(sep, parts) + sep + last
    decreases |parts|
  {
    if |parts| == 1 {
      assert (parts + [last])[1..] == [last];
    } else {
      assert (parts + [last])[1..] == parts[1..] + [last];
      JoinWithAppend(sep, parts[1..], last);
    }
  }
}
