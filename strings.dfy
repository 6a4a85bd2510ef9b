/**
 * The Python string operations the scripts rely on: `in` (substring), `startswith`,
 * `split` / `join` on one separator character, `replace` (all occurrences, left to
 * right, non-overlapping), ASCII `lower`, `str(int)` and `os.path.join` of two parts.
 */
module Strings {
  import opened Wrappers

  predicate StartsWith(s: string, prefix: string) {
    |prefix| <= |s| && s[..|prefix|] == prefix
  }

  /** Python's `sub in s`. */
  predicate Contains(s: string, sub: string) {
    exists i :: 0 <= i <= |s| && StartsWith(s[i..], sub)
  }

  lemma ContainsAt(s: string, sub: string, i: nat)
    requires i <= |s| && StartsWith(s[i..], sub)
    ensures Contains(s, sub)
  {
  }

  /** A string contains each of its own parts. */
  lemma ContainsInfix(a: string, m: string, b: string, sub: string)
    requires Contains(m, sub)
    ensures Contains(a + m + b, sub)
  {
    var i :| 0 <= i <= |m| && StartsWith(m[i..], sub);
    var s := a + m + b;
    assert s[|a| + i..][..|sub|] == m[i..][..|sub|];
    ContainsAt(s, sub, |a| + i);
  }

  /** Index of the first occurrence of `c` in `s`. */
  function IndexOf(s: string, c: char): (r: Option<nat>)
    ensures r.Some? ==> r.value < |s| && s[r.value] == c && c !in s[..r.value]
    ensures r.None? ==> c !in s
  {
    if s == [] then None
    else if s[0] == c then Some(0)
    else match IndexOf(s[1..], c)
      case None => None
      case Some(i) =>
        assert s[..i + 1] == [s[0]] + s[1..][..i];
        Some(i + 1)
  }

  /** Python's `s.split(c)` for a one-character separator: always at least one part. */
  function Split(s: string, c: char): (r: seq<string>)
    ensures |r| >= 1
    ensures forall k :: 0 <= k < |r| ==> c !in r[k]
    decreases |s|
  {
    match IndexOf(s, c)
    case None => [s]
    case Some(i) => [s[..i]] + Split(s[i + 1..], c)
  }

  /** Python's `c.join(parts)`. */
  function Join(parts: seq<string>, c: char): string {
    if parts == [] then ""
    else if |parts| == 1 then parts[0]
    else parts[0] + [c] + Join(parts[1..], c)
  }

  /** Joining the parts of a split gives the original string back. */
  lemma {:induction false} JoinSplit(s: string, c: char)
    ensures Join(Split(s, c), c) == s
    decreases |s|
  {
    match IndexOf(s, c)
    case None =>
    case Some(i) =>
      JoinCons(s[..i], Split(s[i + 1..], c), c);
      JoinSplit(s[i + 1..], c);
      assert s == s[..i] + [c] + s[i + 1..];
  }

  lemma JoinCons(x: string, rest: seq<string>, c: char)
    requires |rest| >= 1
    ensures Join([x] + rest, c) == x + [c] + Join(rest, c)
  {
    assert ([x] + rest)[1..] == rest;
  }

  lemma {:induction false} IndexOfAfterPrefix(a: string, b: string, c: char)
    requires c !in a
    ensures IndexOf(a + [c] + b, c) == Some(|a|)
  {
    if a == [] {
      assert a + [c] + b == [c] + b;
    } else {
      assert (a + [c] + b)[1..] == a[1..] + [c] + b;
      IndexOfAfterPrefix(a[1..], b, c);
    }
  }

  lemma IndexOfNone(a: string, c: char)
    requires c !in a
    ensures IndexOf(a, c) == None
  {
  }

  /** Splitting a joined list of separator-free parts gives the parts back. */
  lemma {:induction false} SplitJoin(parts: seq<string>, c: char)
    requires |parts| >= 1
    requires forall k :: 0 <= k < |parts| ==> c !in parts[k]
    ensures Split(Join(parts, c), c) == parts
  {
    if |parts| == 1 {
      IndexOfNone(parts[0], c);
    } else {
      var rest := Join(parts[1..], c);
      IndexOfAfterPrefix(parts[0], rest, c);
      var s := parts[0] + [c] + rest;
      assert s[..|parts[0]|] == parts[0];
      assert s[|parts[0]| + 1..] == rest;
      SplitJoin(parts[1..], c);
    }
  }

  lemma {:induction false} JoinAppend(a: seq<string>, b: seq<string>, c: char)
    requires |a| >= 1 && |b| >= 1
    ensures Join(a + b, c) == Join(a, c) + [c] + Join(b, c)
  {
    if |a| == 1 {
      assert (a + b)[1..] == b;
    } else {
      assert (a + b)[1..] == a[1..] + b;
      JoinAppend(a[1..], b, c);
    }
  }

  /** A substring free of the separator lies inside one of the joined parts. */
  lemma {:induction false} ContainsJoinedPart(parts: seq<string>, c: char, sub: string)
    requires |parts| >= 1 && c !in sub
    requires Contains(Join(parts, c), sub)
    ensures exists k :: 0 <= k < |parts| && Contains(parts[k], sub)
  {
    if |parts| == 1 {
      assert Contains(parts[0], sub);
    } else {
      var h := parts[0];
      var rest := Join(parts[1..], c);
      var s := h + [c] + rest;
      assert Join(parts, c) == s;
      var i :| 0 <= i <= |s| && StartsWith(s[i..], sub);
      assert forall k :: 0 <= k < |sub| ==> sub[k] == s[i + k];
      assert s[|h|] == c;
      if i + |sub| <= |h| {
        assert h[i..][..|sub|] == s[i..][..|sub|];
        ContainsAt(h, sub, i);
      } else {
        assert i > |h|;
        assert rest[i - |h| - 1..][..|sub|] == s[i..][..|sub|];
        ContainsAt(rest, sub, i - |h| - 1);
        ContainsJoinedPart(parts[1..], c, sub);
        var k :| 0 <= k < |parts[1..]| && Contains(parts[1..][k], sub);
        assert parts[k + 1] == parts[1..][k];
      }
    }
  }

  lemma SplitCons(s: string, c: char, i: nat)
    requires IndexOf(s, c) == Some(i)
    ensures |Split(s, c)| == 1 + |Split(s[i + 1..], c)| && Split(s, c)[0] == s[..i]
    ensures forall k :: 1 <= k < |Split(s, c)| ==> Split(s, c)[k] == Split(s[i + 1..], c)[k - 1]
  {
  }

  /** Each part of a split sits at some offset of the original string. */
  lemma {:induction false} SplitPartAt(s: string, c: char, k: nat) returns (off: nat)
    requires k < |Split(s, c)|
    ensures off + |Split(s, c)[k]| <= |s|
    ensures forall j :: 0 <= j < |Split(s, c)[k]| ==> s[off + j] == Split(s, c)[k][j]
    decreases |s|
  {
    match IndexOf(s, c)
    case None =>
      off := 0;
      assert Split(s, c) == [s];
      assert Split(s, c)[k] == s;
    case Some(i) =>
      SplitCons(s, c, i);
      var rest := s[i + 1..];
      if k == 0 {
        off := 0;
        assert Split(s, c)[k] == s[..i];
      } else {
        var part := Split(rest, c)[k - 1];
        var o := SplitPartAt(rest, c, k - 1);
        off := i + 1 + o;
        forall j | 0 <= j < |part| ensures s[off + j] == part[j] {
          assert s[off + j] == rest[o + j];
        }
      }
  }

  /** Every part of a split occurs in the original string. */
  lemma SplitPartsOccur(s: string, c: char, k: nat, sub: string)
    requires k < |Split(s, c)| && Contains(Split(s, c)[k], sub)
    ensures Contains(s, sub)
  {
    var part := Split(s, c)[k];
    var off := SplitPartAt(s, c, k);
    var t :| 0 <= t <= |part| && StartsWith(part[t..], sub);
    assert s[off + t..][..|sub|] == part[t..][..|sub|];
    ContainsAt(s, sub, off + t);
  }

  // ---------------------------------------------------------------------------
  // str.replace

  /** Python's `s.replace(pat, rep)` for a non-empty pattern: leftmost, non-overlapping. */
  function ReplaceAll(s: string, pat: string, rep: string): string
    requires |pat| > 0
    decreases |s|
  {
    if |s| < |pat| then s
    else if s[..|pat|] == pat then rep + ReplaceAll(s[|pat|..], pat, rep)
    else [s[0]] + ReplaceAll(s[1..], pat, rep)
  }

  /** Replacing a pattern that does not occur changes nothing. */
  lemma {:induction false} ReplaceAbsent(s: string, pat: string, rep: string)
    requires |pat| > 0 && !Contains(s, pat)
    ensures ReplaceAll(s, pat, rep) == s
    decreases |s|
  {
    if |s| >= |pat| {
      assert !StartsWith(s[0..], pat);
      assert s[0..] == s;
      ReplaceAbsent(s[1..], pat, rep);
    }
  }

  /**
   * The leftmost occurrence is rewritten and scanning resumes after it: when the first
   * occurrence of `pat` in `a + pat + b` starts at |a|, the result is `a + rep` followed by
   * the rewrite of `b`.
   */
  lemma {:induction false} ReplaceLeftmost(a: string, b: string, pat: string, rep: string)
    requires |pat| > 0
    requires forall i :: 0 <= i < |a| ==> !StartsWith((a + pat + b)[i..], pat)
    ensures ReplaceAll(a + pat + b, pat, rep) == a + rep + ReplaceAll(b, pat, rep)
    decreases |a|
  {
    var s := a + pat + b;
    if a == [] {
      assert s == pat + b;
      assert s[..|pat|] == pat;
      assert s[|pat|..] == b;
    } else {
      assert s[0..] == s;
      assert s[..|pat|] != pat by {
        assert !StartsWith(s[0..], pat);
      }
      var t := a[1..] + pat + b;
      assert s[1..] == t;
      forall i | 0 <= i < |a[1..]| ensures !StartsWith(t[i..], pat) {
        assert t[i..] == s[i + 1..];
        assert !StartsWith(s[i + 1..], pat);
      }
      calc {
        ReplaceAll(s, pat, rep);
        [s[0]] + ReplaceAll(t, pat, rep);
        { ReplaceLeftmost(a[1..], b, pat, rep); }
        [s[0]] + (a[1..] + rep + ReplaceAll(b, pat, rep));
        { assert a == [s[0]] + a[1..]; }
        a + rep + ReplaceAll(b, pat, rep);
      }
    }
  }

  /** After a rewrite of a string in which the pattern occurs, the replacement occurs. */
  lemma {:induction false} ReplaceIntroduces(s: string, pat: string, rep: string)
    requires |pat| > 0 && Contains(s, pat)
    ensures Contains(ReplaceAll(s, pat, rep), rep)
    decreases |s|
  {
    assert StartsWith(s[0..], pat) || !StartsWith(s[0..], pat);
    assert s[0..] == s;
    if s[..|pat|] == pat {
      ContainsAt(rep + ReplaceAll(s[|pat|..], pat, rep), rep, 0);
    } else {
      var i :| 0 <= i <= |s| && StartsWith(s[i..], pat);
      assert i != 0;
      assert s[1..][i - 1..] == s[i..];
      ContainsAt(s[1..], pat, i - 1);
      ReplaceIntroduces(s[1..], pat, rep);
      ContainsInfix([s[0]], ReplaceAll(s[1..], pat, rep), [], rep);
      assert [s[0]] + ReplaceAll(s[1..], pat, rep) + [] == ReplaceAll(s, pat, rep);
    }
  }

  /** Replacing a pattern by itself leaves the text as it was. */
  lemma {:induction false} ReplaceBySelf(s: string, pat: string)
    requires |pat| > 0
    ensures ReplaceAll(s, pat, pat) == s
    decreases |s|
  {
    if |s| >= |pat| {
      if s[..|pat|] == pat {
        ReplaceBySelf(s[|pat|..], pat);
        assert s == s[..|pat|] + s[|pat|..];
      } else {
        ReplaceBySelf(s[1..], pat);
        assert s == [s[0]] + s[1..];
      }
    }
  }

  // ---------------------------------------------------------------------------
  // Character maps

  function LowerChar(c: char): char {
    if 'A' <= c <= 'Z' then (c as int + 32) as char else c
  }

  /** Python's `s.lower()` on ASCII letters. */
  function Lower(s: string): (r: string)
    ensures |r| == |s|
    ensures forall k :: 0 <= k < |s| ==> r[k] == LowerChar(s[k])
  {
    if s == [] then [] else [LowerChar(s[0])] + Lower(s[1..])
  }

  /** Lowering twice is lowering once, and leaves no upper-case ASCII letter. */
  lemma LowerIdempotent(s: string)
    ensures Lower(Lower(s)) == Lower(s)
    ensures forall k :: 0 <= k < |s| ==> !('A' <= Lower(s)[k] <= 'Z')
  {
  }

  /** Python's `s.replace(a, b)` for single characters. */
  function ReplaceChar(s: string, a: char, b: char): (r: string)
    ensures |r| == |s|
    ensures forall k :: 0 <= k < |s| ==> r[k] == (if s[k] == a then b else s[k])
  {
    if s == [] then [] else [if s[0] == a then b else s[0]] + ReplaceChar(s[1..], a, b)
  }

  function DigitChar(d: int): char
    requires 0 <= d < 10
  {
    ('0' as int + d) as char
  }

  function NatToString(n: nat): string
    decreases n
  {
    if n < 10 then [DigitChar(n)] else NatToString(n / 10) + [DigitChar(n % 10)]
  }

  /** Python's `str(n)` for an integer. */
  function IntToString(n: int): string {
    if n < 0 then "-" + NatToString(-n) else NatToString(n)
  }

  /** Python's `os.path.join(a, b)` for two POSIX path components. */
  function PathJoin(a: string, b: string): (r: string)
    ensures StartsWith(b, "/") ==> r == b
    ensures |b| <= |r|
    ensures !StartsWith(b, "/") ==> StartsWith(r, a) && r[|r| - |b|..] == b
  {
    if StartsWith(b, "/") then b
    else if a == [] || a[|a| - 1] == '/' then a + b
    else a + "/" + b
  }
}
