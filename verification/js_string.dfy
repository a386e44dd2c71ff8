/**
 * `String.prototype.replaceAll` with a string pattern, as section 22.1.3.20 of ECMA-262
 * (2024 edition) defines it, including the expansion of `$` patterns in the replacement
 * string (GetSubstitution, section 22.1.3.19.1) for a match that has no capture groups.
 */
module JsString {

  /** `pat` occurs in `s` at index `i`. */
  predicate OccursAt(s: string, pat: string, i: int)
  {
    0 <= i && i + |pat| <= |s| && s[i..i + |pat|] == pat
  }

  /** `s.includes(pat)`. */
  predicate Occurs(s: string, pat: string)
  {
    exists i | 0 <= i <= |s| - |pat| :: OccursAt(s, pat, i)
  }

  /**
   * GetSubstitution for a string pattern: in `replacement`, `$$` stands for `$`, `$&` for
   * the matched text, `` $` `` for the text before the match and `$'` for the text after
   * it. Every other character, including a `$` that starts none of these, is copied as is
   * (with no capture groups, `$1` and `$<` denote themselves).
   */
  function Substitution(replacement: string, matched: string, before: string, after: string): string
    decreases |replacement|
  {
    if replacement == [] then []
    else if replacement[0] == '$' && |replacement| >= 2 && replacement[1] in "$&`'" then
      var piece :=
        if replacement[1] == '$' then "$"
        else if replacement[1] == '&' then matched
        else if replacement[1] == '`' then before
        else after;
      piece + Substitution(replacement[2..], matched, before, after)
    else [replacement[0]] + Substitution(replacement[1..], matched, before, after)
  }

  /**
   * Scans `s`, the rest of the searched string after `before`, from left to right: at each
   * position where `pat` starts, the substitution for that match replaces it and the scan
   * resumes after it; elsewhere one character is kept. An empty pattern matches before
   * every character and at the end.
   */
  function ReplaceFrom(before: string, s: string, pat: string, replacement: string): string
    decreases |s|
  {
    if |pat| == 0 then
      Substitution(replacement, pat, before, s) +
      (if s == [] then [] else [s[0]] + ReplaceFrom(before + [s[0]], s[1..], pat, replacement))
    else if |s| < |pat| then s
    else if s[..|pat|] == pat then
      Substitution(replacement, pat, before, s[|pat|..]) + ReplaceFrom(before + pat, s[|pat|..], pat, replacement)
    else [s[0]] + ReplaceFrom(before + [s[0]], s[1..], pat, replacement)
  }

  /** `s.replaceAll(pat, replacement)` for a string `pat` and a string `replacement`. */
  function ReplaceAll(s: string, pat: string, replacement: string): string
  {
    ReplaceFrom([], s, pat, replacement)
  }

  /** A replacement without `$` is inserted literally. */
  lemma {:induction false} SubstitutionLiteral(replacement: string, matched: string, before: string, after: string)
    requires '$' !in replacement
    ensures Substitution(replacement, matched, before, after) == replacement
    decreases |replacement|
  {
    if replacement != [] {
      assert replacement[0] != '$';
      assert '$' !in replacement[1..];
      SubstitutionLiteral(replacement[1..], matched, before, after);
      assert replacement == [replacement[0]] + replacement[1..];
    }
  }

  /** No occurrence of `pat` starts before index `n` of `s`. */
  predicate NoneBefore(s: string, pat: string, n: int)
  {
    forall j :: 0 <= j < n ==> !OccursAt(s, pat, j)
  }

  /** Dropping a first character shifts every occurrence one place to the left. */
  lemma OccursShift(s: string, pat: string, j: nat)
    requires |s| > 0
    ensures OccursAt(s[1..], pat, j) <==> OccursAt(s, pat, j + 1)
  {
    if j + |pat| <= |s[1..]| {
      assert s[1..][j..j + |pat|] == s[j + 1..j + 1 + |pat|];
    }
  }

  /** One step of the scan at a position where `pat` does not start. */
  lemma ReplaceFromCopies(before: string, s: string, pat: string, replacement: string)
    requires |pat| > 0 && |s| > 0 && !OccursAt(s, pat, 0)
    ensures ReplaceFrom(before, s, pat, replacement) == [s[0]] + ReplaceFrom(before + [s[0]], s[1..], pat, replacement)
  {
    if |s| >= |pat| {
      assert s[..|pat|] == s[0..|pat|];
    } else {
      assert ReplaceFrom(before + [s[0]], s[1..], pat, replacement) == s[1..];
      assert s == [s[0]] + s[1..];
    }
  }

  lemma NoneBeforeShift(a: string, rest: string, pat: string)
    requires a != [] && NoneBefore(a + rest, pat, |a|)
    ensures !OccursAt(a + rest, pat, 0)
    ensures NoneBefore(a[1..] + rest, pat, |a| - 1)
  {
    var s := a + rest;
    assert s[1..] == a[1..] + rest;
    forall j | 0 <= j < |a| - 1
      ensures !OccursAt(a[1..] + rest, pat, j)
    {
      OccursShift(s, pat, j);
    }
  }

  /** The scan copies every character before the first possible match. */
  lemma {:induction false} ReplaceFromSkips(before: string, a: string, rest: string, pat: string, replacement: string)
    requires |pat| > 0
    requires NoneBefore(a + rest, pat, |a|)
    ensures ReplaceFrom(before, a + rest, pat, replacement) == a + ReplaceFrom(before + a, rest, pat, replacement)
    decreases |a|
  {
    var s := a + rest;
    if a == [] {
      assert s == rest && before + a == before;
    } else {
      NoneBeforeShift(a, rest, pat);
      ReplaceFromCopies(before, s, pat, replacement);
      assert s[1..] == a[1..] + rest;
      ReplaceFromSkips(before + [a[0]], a[1..], rest, pat, replacement);
      assert before + [a[0]] + a[1..] == before + a;
      assert a == [a[0]] + a[1..];
    }
  }

  /** A string in which `pat` never occurs comes back unchanged, whatever the replacement. */
  lemma ReplaceAllAbsent(s: string, pat: string, replacement: string)
    requires |pat| > 0
    requires !Occurs(s, pat)
    ensures ReplaceAll(s, pat, replacement) == s
  {
    assert s + [] == s;
    ReplaceFromSkips([], s, [], pat, replacement);
  }

  /** One step of the scan at a position where `pat` starts. */
  lemma ReplaceFromMatches(before: string, rest: string, pat: string, replacement: string)
    requires |pat| > 0
    ensures ReplaceFrom(before, pat + rest, pat, replacement)
         == Substitution(replacement, pat, before, rest) + ReplaceFrom(before + pat, rest, pat, replacement)
  {
    var s := pat + rest;
    assert s[..|pat|] == pat && s[|pat|..] == rest;
  }

  /** An occurrence that ends inside `x` is an occurrence in `x + y`, and conversely. */
  lemma OccursPrefix(x: string, y: string, pat: string, j: nat)
    requires j + |pat| <= |x|
    ensures OccursAt(x + y, pat, j) <==> OccursAt(x, pat, j)
  {
    assert (x + y)[j..j + |pat|] == x[j..j + |pat|];
  }

  /** The pieces joined by `sep`: `parts.join(sep)`. */
  function Join(parts: seq<string>, sep: string): string
    requires |parts| > 0
  {
    if |parts| == 1 then parts[0] else parts[0] + sep + Join(parts[1..], sep)
  }

  /**
   * `parts` cut a string at the leftmost non-overlapping occurrences of `pat`: in each piece
   * followed by `pat`, the first occurrence of `pat` is that separator, and the last piece
   * holds no occurrence at all.
   */
  predicate LeftmostSplit(parts: seq<string>, pat: string)
  {
    && |parts| > 0
    && (forall i :: 0 <= i < |parts| - 1 ==> NoneBefore(parts[i] + pat, pat, |parts[i]|))
    && !Occurs(parts[|parts| - 1], pat)
  }

  /** The last piece holds no occurrence and is copied as it is. */
  lemma ReplaceFromLastPiece(before: string, p: string, pat: string, replacement: string)
    requires |pat| > 0 && !Occurs(p, pat)
    ensures ReplaceFrom(before, p, pat, replacement) == p
  {
    assert NoneBefore(p + [], pat, |p|) by {
      assert p + [] == p;
    }
    ReplaceFromSkips(before, p, [], pat, replacement);
    assert p + [] == p;
  }

  /** A piece followed by its separator: the piece is copied, the separator replaced. */
  lemma ReplaceFromPiece(before: string, p: string, tail: string, pat: string, replacement: string)
    requires |pat| > 0 && '$' !in replacement
    requires NoneBefore(p + pat, pat, |p|)
    ensures ReplaceFrom(before, p + pat + tail, pat, replacement)
         == p + replacement + ReplaceFrom(before + p + pat, tail, pat, replacement)
  {
    var s := p + (pat + tail);
    assert p + pat + tail == s;
    assert NoneBefore(s, pat, |p|) by {
      forall j | 0 <= j < |p|
        ensures !OccursAt(s, pat, j)
      {
        assert s == (p + pat) + tail;
        OccursPrefix(p + pat, tail, pat, j);
      }
    }
    ReplaceFromSkips(before, p, pat + tail, pat, replacement);
    ReplaceFromMatches(before + p, tail, pat, replacement);
    SubstitutionLiteral(replacement, pat, before + p, tail);
  }

  lemma LeftmostSplitRest(parts: seq<string>, pat: string)
    requires LeftmostSplit(parts, pat) && |parts| > 1
    ensures LeftmostSplit(parts[1..], pat)
    ensures NoneBefore(parts[0] + pat, pat, |parts[0]|)
  {
    forall i | 0 <= i < |parts[1..]| - 1
      ensures NoneBefore(parts[1..][i] + pat, pat, |parts[1..][i]|)
    {
      assert parts[1..][i] == parts[i + 1];
    }
  }

  lemma {:induction false} ReplaceFromSplit(before: string, parts: seq<string>, pat: string, replacement: string)
    requires |pat| > 0 && '$' !in replacement
    requires LeftmostSplit(parts, pat)
    ensures ReplaceFrom(before, Join(parts, pat), pat, replacement) == Join(parts, replacement)
    decreases |parts|
  {
    if |parts| == 1 {
      ReplaceFromLastPiece(before, parts[0], pat, replacement);
    } else {
      var p := parts[0];
      var tail := Join(parts[1..], pat);
      LeftmostSplitRest(parts, pat);
      ReplaceFromPiece(before, p, tail, pat, replacement);
      ReplaceFromSplit(before + p + pat, parts[1..], pat, replacement);
    }
  }

  /**
   * The reference meaning of `replaceAll` for a replacement without `$`: cut the string at
   * the leftmost non-overlapping occurrences of the pattern and join the pieces with the
   * replacement.
   */
  lemma ReplaceAllSplit(parts: seq<string>, pat: string, replacement: string)
    requires |pat| > 0 && '$' !in replacement
    requires LeftmostSplit(parts, pat)
    ensures ReplaceAll(Join(parts, pat), pat, replacement) == Join(parts, replacement)
  {
    ReplaceFromSplit([], parts, pat, replacement);
  }

  lemma {:induction false} ReplaceFromSelf(before: string, s: string, pat: string)
    requires |pat| > 0 && '$' !in pat
    ensures ReplaceFrom(before, s, pat, pat) == s
    decreases |s|
  {
    if |s| >= |pat| {
      if s[..|pat|] == pat {
        SubstitutionLiteral(pat, pat, before, s[|pat|..]);
        ReplaceFromSelf(before + pat, s[|pat|..], pat);
        assert s == pat + s[|pat|..];
      } else {
        ReplaceFromSelf(before + [s[0]], s[1..], pat);
        assert s == [s[0]] + s[1..];
      }
    }
  }

  /**
   * Replacing a pattern by itself changes nothing: one pass never scans the text it has
   * just inserted, otherwise this would not terminate.
   */
  lemma ReplaceAllSelf(s: string, pat: string)
    requires |pat| > 0 && '$' !in pat
    ensures ReplaceAll(s, pat, pat) == s
  {
    ReplaceFromSelf([], s, pat);
  }
}
