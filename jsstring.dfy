/**
  The JavaScript string operations the server relies on, over strings of
  Unicode scalar values: `String.prototype.includes`, `String.prototype.replace` with a
  string pattern and a string replacement, and `Array.prototype.join('')`.
 */
module JsString {
  import opened Wrappers

  /** `pat` occurs in `s` starting at index `i`. */
  predicate MatchAt(s: string, pat: string, i: int)
  {
    0 <= i && i + |pat| <= |s| && s[i..i + |pat|] == pat
  }

  /** The first index at or after `from` where `pat` occurs in `s`. */
  function IndexOfFrom(s: string, pat: string, from: nat): (r: Option<nat>)
    decreases |s| - from
    ensures r.Some? ==> from <= r.value && MatchAt(s, pat, r.value)
    ensures r.Some? ==> forall j :: from <= j < r.value ==> !MatchAt(s, pat, j)
    ensures r.None? ==> forall j :: from <= j ==> !MatchAt(s, pat, j)
  {
    if from + |pat| > |s| then None
    else if s[from..from + |pat|] == pat then Some(from)
    else IndexOfFrom(s, pat, from + 1)
  }

  /** `s.indexOf(pat)`, with `None` for JavaScript's -1. */
  function IndexOf(s: string, pat: string): (r: Option<nat>)
  {
    IndexOfFrom(s, pat, 0)
  }

  /** `s.includes(pat)`. */
  function Includes(s: string, pat: string): bool
  {
    IndexOf(s, pat).Some?
  }

  lemma IncludesIff(s: string, pat: string)
    ensures Includes(s, pat) <==> exists i :: MatchAt(s, pat, i)
  {
    if Includes(s, pat) {
      assert MatchAt(s, pat, IndexOf(s, pat).value);
    }
  }

  /**
    The replacement text that `replace` inserts for one match (the
    ECMAScript abstract operation GetSubstitution, for a string pattern,
    which has no capture groups). `$$` stands for `$`, `$&` for the matched
    text, `` $` `` for the text before the match and `$'` for the text after
    it; every other `$` is kept literally.
   */
  function Substitution(matched: string, before: string, after: string, rep: string): string
    decreases |rep|
  {
    if rep == [] then ""
    else if rep[0] == '$' && |rep| >= 2 && rep[1] == '$' then
      "$" + Substitution(matched, before, after, rep[2..])
    else if rep[0] == '$' && |rep| >= 2 && rep[1] == '&' then
      matched + Substitution(matched, before, after, rep[2..])
    else if rep[0] == '$' && |rep| >= 2 && rep[1] == '`' then
      before + Substitution(matched, before, after, rep[2..])
    else if rep[0] == '$' && |rep| >= 2 && rep[1] == '\'' then
      after + Substitution(matched, before, after, rep[2..])
    else
      [rep[0]] + Substitution(matched, before, after, rep[1..])
  }

  /**
    `rep` contains none of the replacement patterns `$$`, `$&`, `` $` `` or
    `$'` (any string without `$` qualifies).
   */
  predicate NoDollarPattern(rep: string)
  {
    forall i :: 0 <= i < |rep| - 1 && rep[i] == '$' ==> rep[i + 1] !in "$&`'"
  }

  /** A replacement without patterns is inserted verbatim. */
  lemma {:induction false} SubstitutionLiteral(matched: string, before: string, after: string, rep: string)
    requires NoDollarPattern(rep)
    ensures Substitution(matched, before, after, rep) == rep
    decreases |rep|
  {
    if rep != [] {
      assert NoDollarPattern(rep[1..]) by {
        forall i | 0 <= i < |rep[1..]| - 1 && rep[1..][i] == '$'
          ensures rep[1..][i + 1] !in "$&`'"
        {
          assert rep[i + 1] == '$';
        }
      }
      SubstitutionLiteral(matched, before, after, rep[1..]);
      assert [rep[0]] + rep[1..] == rep;
    }
  }

  /** `s.replace(pat, rep)`: only the first occurrence of `pat` is replaced. */
  function ReplaceFirst(s: string, pat: string, rep: string): string
  {
    match IndexOf(s, pat)
    case None => s
    case Some(p) =>
      s[..p] + Substitution(pat, s[..p], s[p + |pat|..], rep) + s[p + |pat|..]
  }

  /** Without an occurrence of `pat`, `replace` returns `s` unchanged. */
  lemma ReplaceFirstAbsent(s: string, pat: string, rep: string)
    requires forall i :: !MatchAt(s, pat, i)
    ensures ReplaceFirst(s, pat, rep) == s
  {
  }

  /**
    Given the first occurrence of `pat` at `p`, the result is the text before
    it, the expanded replacement, and the text after it.
   */
  lemma ReplaceFirstAt(s: string, pat: string, rep: string, p: nat)
    requires MatchAt(s, pat, p)
    requires forall j :: 0 <= j < p ==> !MatchAt(s, pat, j)
    ensures ReplaceFirst(s, pat, rep) ==
            s[..p] + Substitution(pat, s[..p], s[p + |pat|..], rep) + s[p + |pat|..]
  {
    assert IndexOf(s, pat) == Some(p);
  }

  /**
    With a replacement free of `$` patterns, the result is `s` with the first occurrence
    of `pat` (at `p`) replaced by `rep`; the rest of `s` is untouched.
   */
  lemma ReplaceFirstLiteral(s: string, pat: string, rep: string, p: nat)
    requires MatchAt(s, pat, p)
    requires forall j :: 0 <= j < p ==> !MatchAt(s, pat, j)
    requires NoDollarPattern(rep)
    ensures ReplaceFirst(s, pat, rep) == s[..p] + rep + s[p + |pat|..]
  {
    ReplaceFirstAt(s, pat, rep, p);
    SubstitutionLiteral(pat, s[..p], s[p + |pat|..], rep);
  }

  /** An occurrence in `t` is one in `a + t`, shifted by `|a|`. */
  lemma MatchAfter(a: string, t: string, pat: string, j: nat)
    requires MatchAt(t, pat, j)
    ensures MatchAt(a + t, pat, |a| + j)
  {
    assert (a + t)[|a| + j..|a| + j + |pat|] == t[j..j + |pat|];
  }

  /**
    Occurrences after the first one survive the replacement, shifted by the
    difference in length between the matched pattern and the text the
    replacement expands to.
   */
  lemma LaterOccurrenceKept(s: string, pat: string, rep: string, p: nat, q: nat)
    requires MatchAt(s, pat, p)
    requires forall j :: 0 <= j < p ==> !MatchAt(s, pat, j)
    requires p + |pat| <= q && MatchAt(s, pat, q)
    ensures MatchAt(ReplaceFirst(s, pat, rep), pat,
                    q - |pat| + |Substitution(pat, s[..p], s[p + |pat|..], rep)|)
  {
    var tail := s[p + |pat|..];
    var sub := Substitution(pat, s[..p], tail, rep);
    ReplaceFirstAt(s, pat, rep, p);
    assert MatchAt(tail, pat, q - p - |pat|) by {
      assert tail[q - p - |pat|..q - p] == s[q..q + |pat|];
    }
    MatchAfter(s[..p] + sub, tail, pat, q - p - |pat|);
  }

  /** With a pattern-free replacement the shift is the length difference itself. */
  lemma LaterOccurrenceKeptLiteral(s: string, pat: string, rep: string, p: nat, q: nat)
    requires MatchAt(s, pat, p)
    requires forall j :: 0 <= j < p ==> !MatchAt(s, pat, j)
    requires NoDollarPattern(rep)
    requires p + |pat| <= q && MatchAt(s, pat, q)
    ensures MatchAt(ReplaceFirst(s, pat, rep), pat, q - |pat| + |rep|)
  {
    var tail := s[p + |pat|..];
    ReplaceFirstLiteral(s, pat, rep, p);
    assert MatchAt(tail, pat, q - p - |pat|) by {
      assert tail[q - p - |pat|..q - p] == s[q..q + |pat|];
    }
    MatchAfter(s[..p] + rep, tail, pat, q - p - |pat|);
  }

  /** `chunks.join('')`: the chunks concatenated in order. */
  function Join(chunks: seq<string>): string
  {
    if chunks == [] then "" else Join(chunks[..|chunks| - 1]) + chunks[|chunks| - 1]
  }

  /** Joining distributes over concatenation of the chunk sequences. */
  lemma {:induction false} JoinAppend(a: seq<string>, b: seq<string>)
    ensures Join(a + b) == Join(a) + Join(b)
    decreases |b|
  {
    if b == [] {
      assert a + b == a;
    } else {
      var b' := b[..|b| - 1];
      assert (a + b)[..|a + b| - 1] == a + b';
      JoinAppend(a, b');
    }
  }

  /** Chunk `i` sits in the joined text right after the chunks before it. */
  lemma JoinAt(chunks: seq<string>, i: nat)
    requires i < |chunks|
    ensures var start := |Join(chunks[..i])|;
            start + |chunks[i]| <= |Join(chunks)| &&
            Join(chunks)[start..start + |chunks[i]|] == chunks[i]
  {
    var before, rest := chunks[..i], chunks[i + 1..];
    assert chunks == before + [chunks[i]] + rest;
    JoinAppend(before + [chunks[i]], rest);
    JoinAppend(before, [chunks[i]]);
    assert Join([chunks[i]]) == chunks[i] by {
      assert [chunks[i]][..0] == [];
    }
  }
}
