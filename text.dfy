/** The string operations the protocol code uses: `indexOf`, `replace` with a
    string pattern, `split(c)[0]`, `split(c)[1]` and ASCII lower-casing. */
module Text {
  import opened Results

  /** `s[i..]` starts with `pat`. */
  predicate OccursAt(s: string, pat: string, i: nat) {
    i + |pat| <= |s| && s[i..i + |pat|] == pat
  }

  /** The first position at or after `from` where `pat` occurs. */
  function IndexFrom(s: string, pat: string, from: nat): (r: Option<nat>)
    requires from <= |s|
    ensures r.Some? ==> from <= r.value && OccursAt(s, pat, r.value)
    ensures r.Some? ==> forall j :: from <= j < r.value ==> !OccursAt(s, pat, j)
    ensures r.None? ==> forall j :: from <= j <= |s| ==> !OccursAt(s, pat, j)
    decreases |s| - from
  {
    if OccursAt(s, pat, from) then Some(from)
    else if from + |pat| >= |s| then
      assert forall j :: from <= j <= |s| ==> !OccursAt(s, pat, j);
      None
    else IndexFrom(s, pat, from + 1)
  }

  /** `s.indexOf(pat)`, with `None` for -1. */
  function IndexOf(s: string, pat: string): (r: Option<nat>)
    ensures r.Some? ==> OccursAt(s, pat, r.value)
    ensures r.Some? ==> forall j :: 0 <= j < r.value ==> !OccursAt(s, pat, j)
    ensures r.None? ==> forall j :: 0 <= j <= |s| ==> !OccursAt(s, pat, j)
  {
    IndexFrom(s, pat, 0)
  }

  /** The replacement text `replace` inserts for `rep`, given the matched text and
      the text before and after the match. With a string pattern there are no
      capture groups, so only `$$` (a dollar sign), `$&` (the match), `` $` `` (the
      text before it) and `$'` (the text after it) are expanded; every other `$`
      stands for itself. */
  function Expand(rep: string, matched: string, before: string, after: string): string
    decreases |rep|
  {
    if |rep| == 0 then ""
    else if rep[0] == '$' && |rep| >= 2 && rep[1] in "$&`'" then
      DollarPattern(rep[1], matched, before, after) + Expand(rep[2..], matched, before, after)
    else [rep[0]] + Expand(rep[1..], matched, before, after)
  }

  /** What `$c` stands for, for the four pattern characters `c`. */
  function DollarPattern(c: char, matched: string, before: string, after: string): string {
    match c
    case '$' => "$"
    case '&' => matched
    case '`' => before
    case _ => after
  }

  /** A replacement without `$` is inserted literally. */
  lemma {:induction false} ExpandLiteral(rep: string, matched: string, before: string, after: string)
    requires '$' !in rep
    ensures Expand(rep, matched, before, after) == rep
    decreases |rep|
  {
    if |rep| > 0 {
      assert '$' !in rep[1..];
      ExpandLiteral(rep[1..], matched, before, after);
      assert [rep[0]] + rep[1..] == rep;
    }
  }

  /** The four patterns, each on its own: `$$` gives one dollar sign and the others
      insert the match, the text before it and the text after it; an unknown
      pattern such as `$1` is kept. */
  lemma ExpandPatterns(matched: string, before: string, after: string)
    ensures Expand("$$", matched, before, after) == "$"
    ensures Expand("$&", matched, before, after) == matched
    ensures Expand("$`", matched, before, after) == before
    ensures Expand("$'", matched, before, after) == after
    ensures Expand("$1", matched, before, after) == "$1"
  {
    assert "$$"[2..] == "" && "$&"[2..] == "" && "$`"[2..] == "" && "$'"[2..] == "";
    assert "$1"[1..] == "1" && "1"[1..] == "";
    assert matched + "" == matched && before + "" == before && after + "" == after;
  }

  /** `s.replace(pat, rep)` with a string pattern: only the first occurrence is
      replaced, by `rep` with its `$` patterns expanded; without an occurrence the
      string is unchanged. */
  function ReplaceFirst(s: string, pat: string, rep: string): string {
    match IndexOf(s, pat)
    case None => s
    case Some(i) => s[..i] + Expand(rep, pat, s[..i], s[i + |pat|..]) + s[i + |pat|..]
  }

  /** When the first character of `pat` does not occur before it, the first
      occurrence of `pat` is the one that follows `pre`. */
  lemma FirstOccurrenceAfter(pre: string, pat: string, post: string)
    requires |pat| > 0 && pat[0] !in pre
    ensures IndexOf(pre + pat + post, pat) == Some(|pre|)
  {
    var s := pre + pat + post;
    assert s[|pre|..|pre| + |pat|] == pat;
    forall j | 0 <= j < |pre|
      ensures !OccursAt(s, pat, j)
    {
      assert s[j] == pre[j] != pat[0];
    }
    assert OccursAt(s, pat, |pre|);
  }

  /** Replacing the placeholder that follows `pre` (see FirstOccurrenceAfter): the
      expanded replacement takes its place, and a replacement without `$` is
      inserted as it is. */
  lemma {:induction false} ReplaceFirstAfter(pre: string, pat: string, post: string, rep: string)
    requires |pat| > 0 && pat[0] !in pre
    ensures ReplaceFirst(pre + pat + post, pat, rep) == pre + Expand(rep, pat, pre, post) + post
    ensures '$' !in rep ==> ReplaceFirst(pre + pat + post, pat, rep) == pre + rep + post
  {
    FirstOccurrenceAfter(pre, pat, post);
    var s := pre + pat + post;
    assert s[..|pre|] == pre;
    assert s[|pre| + |pat|..] == post;
    if '$' !in rep {
      ExpandLiteral(rep, pat, pre, post);
    }
  }

  /** Without an occurrence of `pat` the string is left as it is. */
  lemma ReplaceFirstAbsent(s: string, pat: string, rep: string)
    requires forall j :: 0 <= j <= |s| ==> !OccursAt(s, pat, j)
    ensures ReplaceFirst(s, pat, rep) == s
  {
  }

  /** `String.prototype.toLowerCase` on ASCII letters; other characters are kept. */
  function LowerChar(c: char): (r: char)
    ensures 'A' <= c <= 'Z' ==> r != c && 'a' <= r <= 'z'
    ensures !('A' <= c <= 'Z') ==> r == c
  {
    if 'A' <= c <= 'Z' then (c as int + 32) as char else c
  }

  function Lower(s: string): (r: string)
    ensures |r| == |s|
    ensures forall i :: 0 <= i < |s| ==> r[i] == LowerChar(s[i])
  {
    seq(|s|, i requires 0 <= i < |s| => LowerChar(s[i]))
  }

  /** Lower-casing leaves text without capital letters unchanged. */
  lemma LowerOfLowerCase(s: string)
    requires forall i :: 0 <= i < |s| ==> !('A' <= s[i] <= 'Z')
    ensures Lower(s) == s
  {
  }

  /** `s.split(c)[0]`: the text before the first `c`, or all of `s`. */
  function Before(s: string, c: char): (r: string)
    ensures c !in r
    ensures |r| <= |s| && r == s[..|r|]
    ensures c !in s ==> r == s
    ensures c in s ==> |r| < |s| && s[|r|] == c
  {
    if s == [] then []
    else if s[0] == c then []
    else [s[0]] + Before(s[1..], c)
  }

  /** The text after the first `c`; `s.split(c)[1]` is `Before(After(s, c), c)`. */
  function After(s: string, c: char): (r: string)
    requires c in s
    ensures s == Before(s, c) + [c] + r
  {
    var k := |Before(s, c)|;
    assert s == s[..k] + [c] + s[k + 1..];
    s[k + 1..]
  }

  /** Splitting at a separator that does not occur before it recovers both halves. */
  lemma SplitAtFirst(a: string, c: char, b: string)
    requires c !in a
    ensures Before(a + [c] + b, c) == a
    ensures After(a + [c] + b, c) == b
  {
    var s := a + [c] + b;
    var r := Before(s, c);
    assert s[|a|] == c;
    assert r == s[..|a|] == a;
    assert s == r + [c] + After(s, c);
  }
}
