/**
 * The JavaScript string operations the page agent relies on:
 * `String.prototype.trim`, `toLowerCase` and `replace` with a string pattern.
 */
module Text {
  import opened Wrappers

  /** ECMAScript WhiteSpace and LineTerminator code points, the set `trim` removes. */
  predicate IsWhitespace(c: char)
  {
    || c == '\t' || c == '\n' || c == '\U{000B}' || c == '\U{000C}' || c == '\r'
    || c == ' ' || c == '\U{00A0}' || c == '\U{1680}'
    || ('\U{2000}' <= c <= '\U{200A}')
    || c == '\U{2028}' || c == '\U{2029}' || c == '\U{202F}' || c == '\U{205F}'
    || c == '\U{3000}' || c == '\U{FEFF}'
  }

  predicate AllWhitespace(s: string)
  {
    forall k :: 0 <= k < |s| ==> IsWhitespace(s[k])
  }

  /** `s` is `r` with only whitespace before and after it. */
  predicate WhitespaceAround(s: string, lead: string, r: string, trail: string)
  {
    s == lead + (r + trail) && AllWhitespace(lead) && AllWhitespace(trail)
  }

  /** Drops the leading whitespace: what is left is a suffix that does not start with whitespace. */
  function TrimStart(s: string): (r: string)
    ensures |r| <= |s| && r == s[|s| - |r|..]
    ensures AllWhitespace(s[..|s| - |r|])
    ensures r != [] ==> !IsWhitespace(r[0])
  {
    if s != [] && IsWhitespace(s[0]) then TrimStart(s[1..]) else s
  }

  /** Drops the trailing whitespace: what is left is a prefix that does not end with whitespace. */
  function TrimEnd(s: string): (r: string)
    ensures |r| <= |s| && r == s[..|r|]
    ensures AllWhitespace(s[|r|..])
    ensures r != [] ==> !IsWhitespace(r[|r| - 1])
  {
    if s != [] && IsWhitespace(s[|s| - 1]) then TrimEnd(s[..|s| - 1]) else s
  }

  /** `s.trim()`: `s` with its leading and its trailing whitespace cut off, and nothing else. */
  function Trim(s: string): (r: string)
    ensures |r| <= |s|
    ensures r == "" <==> AllWhitespace(s)
    ensures r != "" ==> !IsWhitespace(r[0]) && !IsWhitespace(r[|r| - 1])
  {
    var t := TrimStart(s);
    var r := TrimEnd(t);
    assert r == [] ==> AllWhitespace(s) by {
      if r == [] {
        forall k | 0 <= k < |s|
          ensures IsWhitespace(s[k])
        {
          if k < |s| - |t| {
            assert s[k] == s[..|s| - |t|][k];
          }
        }
      }
    }
    r
  }

  /** Cutting leading whitespace, then trailing whitespace, leaves a middle part of `s` between two runs of whitespace. */
  lemma TrimCutsEnds(s: string, t: string, r: string)
    requires |t| <= |s| && t == s[|s| - |t|..] && AllWhitespace(s[..|s| - |t|])
    requires |r| <= |t| && r == t[..|r|] && AllWhitespace(t[|r|..])
    ensures exists lead, trail :: WhitespaceAround(s, lead, r, trail)
  {
    var lead, trail := s[..|s| - |t|], t[|r|..];
    assert s == lead + t;
    assert t == r + trail;
    assert WhitespaceAround(s, lead, r, trail);
  }

  /** `trim` removes leading and trailing whitespace and nothing else: `s` is its result with whitespace around it. */
  lemma TrimRemovesOnlyEnds(s: string)
    ensures exists lead, trail :: WhitespaceAround(s, lead, Trim(s), trail)
  {
    var t := TrimStart(s);
    assert Trim(s) == TrimEnd(t);
    TrimCutsEnds(s, t, TrimEnd(t));
  }

  /** Trimming a trimmed string changes nothing. */
  lemma TrimIdempotent(s: string)
    ensures Trim(Trim(s)) == Trim(s)
  {
    var t := Trim(s);
    if t != "" {
      assert !IsWhitespace(t[0]);
      assert TrimStart(t) == t;
      assert !IsWhitespace(t[|t| - 1]);
      assert TrimEnd(t) == t;
    }
  }

  function LowerChar(c: char): char
  {
    if 'A' <= c <= 'Z' then (c as int + 32) as char else c
  }

  /** `s.toLowerCase()`, on the ASCII letters. */
  function ToLower(s: string): (r: string)
    ensures |r| == |s|
    ensures forall k :: 0 <= k < |s| ==> r[k] == LowerChar(s[k])
  {
    if s == [] then [] else [LowerChar(s[0])] + ToLower(s[1..])
  }

  /** `pat` occurs in `s` at position `j`. */
  predicate OccursAt(s: string, pat: string, j: int)
  {
    0 <= j && j + |pat| <= |s| && s[j..j + |pat|] == pat
  }

  /** The first position at or after `start` where `pat` occurs, if any. */
  function IndexFrom(s: string, pat: string, start: nat): (r: Option<nat>)
    ensures r.Some? ==> start <= r.value && OccursAt(s, pat, r.value)
    ensures r.Some? ==> forall j :: start <= j < r.value ==> !OccursAt(s, pat, j)
    ensures r.None? ==> forall j :: start <= j ==> !OccursAt(s, pat, j)
    decreases |s| - start
  {
    if start + |pat| > |s| then None
    else if s[start..start + |pat|] == pat then Some(start)
    else IndexFrom(s, pat, start + 1)
  }

  /** `s.indexOf(pat)` as an option: the first occurrence of `pat` in `s`. */
  function IndexOf(s: string, pat: string): (r: Option<nat>)
    ensures r.Some? ==> OccursAt(s, pat, r.value) && forall j :: 0 <= j < r.value ==> !OccursAt(s, pat, j)
    ensures r.None? ==> forall j :: !OccursAt(s, pat, j)
  {
    IndexFrom(s, pat, 0)
  }

  /** `s.replace(pat, rep)` with a string pattern: only the first occurrence is replaced. */
  function ReplaceFirst(s: string, pat: string, rep: string): (r: string)
    ensures (forall j :: !OccursAt(s, pat, j)) ==> r == s
    ensures (exists j :: OccursAt(s, pat, j)) ==> |r| == |s| - |pat| + |rep|
  {
    match IndexOf(s, pat)
    case None => s
    case Some(k) => s[..k] + rep + s[k + |pat|..]
  }

  /** Replacing the first occurrence cuts `s` around the earliest place `pat` occurs, or leaves it alone. */
  lemma ReplaceFirstCharacterized(s: string, pat: string, rep: string)
    ensures (forall j :: !OccursAt(s, pat, j)) ==> ReplaceFirst(s, pat, rep) == s
    ensures forall k :: OccursAt(s, pat, k) && (forall j :: 0 <= j < k ==> !OccursAt(s, pat, j)) ==>
      ReplaceFirst(s, pat, rep) == s[..k] + rep + s[k + |pat|..]
  {
    forall k | OccursAt(s, pat, k) && (forall j :: 0 <= j < k ==> !OccursAt(s, pat, j))
      ensures ReplaceFirst(s, pat, rep) == s[..k] + rep + s[k + |pat|..]
    {
      var i := IndexOf(s, pat);
      assert i.Some?;
    }
  }
}
