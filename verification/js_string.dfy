/**
  The JavaScript string primitives the build tasks rely on, over `seq<char>`:
  `indexOf`, `String.prototype.replace` with a string pattern (first match only),
  `replace` with a global literal regular expression (every match, left to right),
  the `$` patterns the replacement string may contain (GetSubstitution in the
  ECMAScript specification) and an ASCII-only `charAt(0).toUpperCase() + substr(1)`.
  `Join` is not used by the tasks modelled; it describes text built around a
  pattern in the statement of `ReplaceAllJoin`.
 */
module JsString {

  datatype Option<T> = None | Some(value: T) {
    function GetOr(default: T): T {
      match this
      case Some(v) => v
      case None => default
    }
  }

  predicate StartsWith(s: string, prefix: string) {
    |prefix| <= |s| && s[..|prefix|] == prefix
  }

  predicate EndsWith(s: string, suffix: string) {
    |suffix| <= |s| && s[|s| - |suffix|..] == suffix
  }

  /** `pat` occurs in `s` starting at index `i`. */
  predicate OccursAt(s: string, pat: string, i: int) {
    0 <= i && i + |pat| <= |s| && s[i..i + |pat|] == pat
  }

  ghost predicate NoOccurrence(s: string, pat: string) {
    forall i :: !OccursAt(s, pat, i)
  }

  /** `i` is the leftmost occurrence of `pat` in `s`. */
  ghost predicate FirstAt(s: string, pat: string, i: int) {
    OccursAt(s, pat, i) && forall j :: 0 <= j < i ==> !OccursAt(s, pat, j)
  }

  /** `s.indexOf(pat, from)`, with `None` for -1. */
  function IndexOfFrom(s: string, pat: string, from: nat): (r: Option<nat>)
    decreases |s| - from
    ensures r.Some? ==> from <= r.value && OccursAt(s, pat, r.value)
    ensures r.Some? ==> forall j :: from <= j < r.value ==> !OccursAt(s, pat, j)
    ensures r.None? ==> forall j :: from <= j ==> !OccursAt(s, pat, j)
  {
    if from + |pat| > |s| then None
    else if 0 < |pat| && s[from] != pat[0] then
      assert s[from..from + |pat|][0] == s[from];
      IndexOfFrom(s, pat, from + 1)
    else if s[from..from + |pat|] == pat then Some(from)
    else IndexOfFrom(s, pat, from + 1)
  }

  function IndexOf(s: string, pat: string): (r: Option<nat>)
    ensures r.Some? <==> !NoOccurrence(s, pat)
    ensures r.Some? ==> FirstAt(s, pat, r.value)
  {
    IndexOfFrom(s, pat, 0)
  }

  /**
    The replacement text for one match: `$$` is a dollar sign, `$&` the matched
    text, `` $` `` the text before the match and `$'` the text after it. A string
    pattern has no capture groups, so every other `$` (including `$1` and `$<`)
    stays literal.
   */
  function Expand(repl: string, matched: string, before: string, after: string): (r: string)
    decreases |repl|
    ensures '$' !in repl ==> r == repl
  {
    if |repl| == 0 then ""
    else if repl[0] == '$' && |repl| >= 2 && repl[1] == '$' then "$" + Expand(repl[2..], matched, before, after)
    else if repl[0] == '$' && |repl| >= 2 && repl[1] == '&' then matched + Expand(repl[2..], matched, before, after)
    else if repl[0] == '$' && |repl| >= 2 && repl[1] == '`' then before + Expand(repl[2..], matched, before, after)
    else if repl[0] == '$' && |repl| >= 2 && repl[1] == '\'' then after + Expand(repl[2..], matched, before, after)
    else [repl[0]] + Expand(repl[1..], matched, before, after)
  }

  /** The `$` patterns are live: `$&` inserts the matched text and `$1` stays literal. */
  lemma ExpandPatterns(matched: string, before: string, after: string)
    ensures Expand("$&", matched, before, after) == matched
    ensures Expand("$1", matched, before, after) == "$1"
    ensures Expand("a$$b", matched, before, after) == "a$b"
    ensures Expand("$`$'", matched, before, after) == before + after
  {
    assert "$&"[2..] == "";
    assert "$1"[1..] == "1" && "1"[1..] == "";
    assert "a$$b"[1..] == "$$b" && "$$b"[2..] == "b" && "b"[1..] == "";
    assert "$`$'"[2..] == "$'" && "$'"[2..] == "";
  }

  /** `s.replace(pat, repl)` with a string pattern. */
  function ReplaceFirst(s: string, pat: string, repl: string): string {
    match IndexOf(s, pat)
    case None => s
    case Some(i) =>
      s[..i] + Expand(repl, pat, s[..i], s[i + |pat|..]) + s[i + |pat|..]
  }

  /**
    Only the leftmost occurrence is replaced, by the expanded replacement, and the text
    around it is kept; without an occurrence the text comes back unchanged.
   */
  lemma ReplaceFirstSpec(s: string, pat: string, repl: string)
    ensures NoOccurrence(s, pat) ==> ReplaceFirst(s, pat, repl) == s
    ensures forall i :: FirstAt(s, pat, i) ==>
      ReplaceFirst(s, pat, repl) == s[..i] + Expand(repl, pat, s[..i], s[i + |pat|..]) + s[i + |pat|..]
  {
    forall i | FirstAt(s, pat, i) ensures IndexOf(s, pat) == Some(i) {
      var j := IndexOf(s, pat).value;
      assert OccursAt(s, pat, j) && OccursAt(s, pat, i);
    }
  }

  /**
    `s.replace(/pat/g, repl)` for a literal, non-empty pattern. `rest` is the part of
    the subject still to be scanned and `done` the part already scanned (what `` $` ``
    refers to); each match found scanning left to right is replaced and the scan
    resumes after it.
   */
  function ReplaceAllIn(done: string, rest: string, pat: string, repl: string): string
    requires 0 < |pat|
    decreases |rest|
  {
    if |rest| < |pat| then rest
    else if rest[..|pat|] == pat then
      Expand(repl, pat, done, rest[|pat|..]) + ReplaceAllIn(done + pat, rest[|pat|..], pat, repl)
    else
      [rest[0]] + ReplaceAllIn(done + [rest[0]], rest[1..], pat, repl)
  }

  /** The scan copies text that holds no match unchanged. */
  lemma {:induction false} ReplaceAllInUnchanged(done: string, rest: string, pat: string, repl: string)
    requires 0 < |pat|
    ensures NoOccurrence(rest, pat) ==> ReplaceAllIn(done, rest, pat, repl) == rest
    decreases |rest|
  {
    if |rest| >= |pat| && NoOccurrence(rest, pat) {
      assert !OccursAt(rest, pat, 0);
      NoOccurrenceTail(rest, pat);
      ReplaceAllInUnchanged(done + [rest[0]], rest[1..], pat, repl);
      assert [rest[0]] + rest[1..] == rest;
    }
  }

  function ReplaceAll(s: string, pat: string, repl: string): (r: string)
    requires 0 < |pat|
    ensures NoOccurrence(s, pat) ==> r == s
  {
    ReplaceAllInUnchanged("", s, pat, repl);
    ReplaceAllIn("", s, pat, repl)
  }

  /** `pieces.join(sep)`: a reference for stating what a global replace does. */
  function Join(pieces: seq<string>, sep: string): string {
    if |pieces| == 0 then ""
    else if |pieces| == 1 then pieces[0]
    else pieces[0] + sep + Join(pieces[1..], sep)
  }

  /** With a `$`-free replacement the scanned prefix does not matter. */
  lemma {:induction false} ReplaceAllInDone(d1: string, d2: string, rest: string, pat: string, repl: string)
    requires 0 < |pat| && '$' !in repl
    ensures ReplaceAllIn(d1, rest, pat, repl) == ReplaceAllIn(d2, rest, pat, repl)
    decreases |rest|
  {
    if |rest| < |pat| {
    } else if rest[..|pat|] == pat {
      ReplaceAllInDone(d1 + pat, d2 + pat, rest[|pat|..], pat, repl);
    } else {
      ReplaceAllInDone(d1 + [rest[0]], d2 + [rest[0]], rest[1..], pat, repl);
    }
  }

  /** The pattern's first character does not occur again later in it (true of `@VERSION`). */
  predicate HeadUnique(pat: string) {
    forall k :: 0 < k < |pat| ==> pat[k] != pat[0]
  }

  /**
    Text holding no match is copied through unchanged when what follows it is empty
    or starts with the pattern: with a head-unique pattern no match can straddle the
    boundary, so the scan resumes exactly at the following text.
   */
  lemma {:induction false} ReplaceAllInClean(done: string, p: string, t: string, pat: string, repl: string)
    requires 0 < |pat| && HeadUnique(pat)
    requires NoOccurrence(p, pat)
    requires |t| == 0 || StartsWith(t, pat)
    ensures ReplaceAllIn(done, p + t, pat, repl) == p + ReplaceAllIn(done + p, t, pat, repl)
    decreases |p|
  {
    if |p| == 0 {
      assert p + t == t;
      assert done + p == done;
    } else if |p + t| < |pat| {
      assert |t| == 0;
      assert p + t == p && p + "" == p;
    } else {
      NoMatchAtBoundary(p, t, pat);
      NoOccurrenceTail(p, pat);
      ReplaceAllInClean(done + [p[0]], p[1..], t, pat, repl);
      ReplaceAllInCleanStep(done, p, t, pat, repl);
    }
  }

  /** The inductive step of `ReplaceAllInClean`: copy `p[0]`, then the rest of `p`. */
  lemma ReplaceAllInCleanStep(done: string, p: string, t: string, pat: string, repl: string)
    requires 0 < |p| && 0 < |pat| <= |p + t| && (p + t)[..|pat|] != pat
    requires ReplaceAllIn(done + [p[0]], p[1..] + t, pat, repl) == p[1..] + ReplaceAllIn(done + [p[0]] + p[1..], t, pat, repl)
    ensures ReplaceAllIn(done, p + t, pat, repl) == p + ReplaceAllIn(done + p, t, pat, repl)
  {
    var rest := p + t;
    assert rest[0] == p[0] && rest[1..] == p[1..] + t;
    ReplaceAllInNoMatch(done, rest, pat, repl);
    assert done + [p[0]] + p[1..] == done + p;
    assert [p[0]] + p[1..] == p;
  }

  /** Where no match starts, the scan copies one character and moves on. */
  lemma ReplaceAllInNoMatch(done: string, rest: string, pat: string, repl: string)
    requires 0 < |pat| <= |rest| && rest[..|pat|] != pat
    ensures ReplaceAllIn(done, rest, pat, repl) == [rest[0]] + ReplaceAllIn(done + [rest[0]], rest[1..], pat, repl)
  {
  }

  /** A match at the start of `p + t` would lie in `p` or straddle into `t`; neither can. */
  lemma NoMatchAtBoundary(p: string, t: string, pat: string)
    requires 0 < |p| && 0 < |pat| && HeadUnique(pat) && NoOccurrence(p, pat)
    requires |t| == 0 || StartsWith(t, pat)
    requires |pat| <= |p + t|
    ensures (p + t)[..|pat|] != pat
  {
    var rest := p + t;
    if |p| >= |pat| {
      assert rest[..|pat|] == p[..|pat|];
      assert !OccursAt(p, pat, 0);
    } else {
      assert rest[..|pat|][|p|] == t[0] == pat[0];
      assert pat[|p|] != pat[0];
    }
  }

  lemma NoOccurrenceTail(p: string, pat: string)
    requires 0 < |p| && NoOccurrence(p, pat)
    ensures NoOccurrence(p[1..], pat)
  {
    forall i ensures !OccursAt(p[1..], pat, i) {
      if 0 <= i && i + |pat| <= |p| - 1 {
        assert p[1..][i..i + |pat|] == p[i + 1..i + 1 + |pat|];
        assert !OccursAt(p, pat, i + 1);
      }
    }
  }

  /**
    Replacing every `pat` in pieces joined by `pat` yields the pieces joined by the
    replacement, when no piece holds a match, the pattern's first character does not
    recur in it, and the replacement has no `$` patterns.
   */
  lemma {:induction false} ReplaceAllJoin(pieces: seq<string>, pat: string, repl: string)
    requires 0 < |pat| && HeadUnique(pat) && '$' !in repl
    requires forall i :: 0 <= i < |pieces| ==> NoOccurrence(pieces[i], pat)
    ensures ReplaceAll(Join(pieces, pat), pat, repl) == Join(pieces, repl)
    decreases |pieces|
  {
    if |pieces| == 1 {
      ReplaceAllInClean("", pieces[0], "", pat, repl);
      assert pieces[0] + "" == pieces[0];
    } else if |pieces| > 1 {
      var p := pieces[0];
      var rest := Join(pieces[1..], pat);
      assert (pat + rest)[..|pat|] == pat;
      ReplaceAllInClean("", p, pat + rest, pat, repl);
      assert p + (pat + rest) == Join(pieces, pat);
      assert (pat + rest)[|pat|..] == rest;
      ReplaceAllInDone("" + p + pat, "", rest, pat, repl);
      ReplaceAllJoin(pieces[1..], pat, repl);
    }
  }

  predicate IsAsciiLower(c: char) {
    'a' <= c <= 'z'
  }

  /** `toUpperCase` restricted to ASCII: lower-case letters move up, all else stays. */
  function AsciiUpper(c: char): (r: char)
    ensures !IsAsciiLower(r)
    ensures IsAsciiLower(c) ==> 'A' <= r <= 'Z' && r as int + 32 == c as int
    ensures !IsAsciiLower(c) ==> r == c
  {
    if IsAsciiLower(c) then (c as int - 32) as char else c
  }

  /** `s.charAt(0).toUpperCase() + s.substr(1)`. */
  function Capitalize(s: string): (r: string)
    ensures |r| == |s|
    ensures 0 < |s| ==> r[0] == AsciiUpper(s[0])
    ensures forall i :: 1 <= i < |s| ==> r[i] == s[i]
  {
    if |s| == 0 then "" else [AsciiUpper(s[0])] + s[1..]
  }

  /** Capitalizing twice is capitalizing once, and only a lower-case first letter changes. */
  lemma CapitalizeFacts(s: string)
    ensures Capitalize(Capitalize(s)) == Capitalize(s)
    ensures (|s| == 0 || !IsAsciiLower(s[0])) <==> Capitalize(s) == s
    ensures forall c :: !IsAsciiLower(c) && !('A' <= c <= 'Z') ==> (c in s <==> c in Capitalize(s))
  {
    var r := Capitalize(s);
    if 0 < |s| && IsAsciiLower(s[0]) {
      assert r[0] != s[0];
    }
    forall c | !IsAsciiLower(c) && !('A' <= c <= 'Z') ensures c in s <==> c in r {
      if c in s {
        var i :| 0 <= i < |s| && s[i] == c;
        assert r[i] == c;
      }
      if c in r {
        var i :| 0 <= i < |r| && r[i] == c;
        assert s[i] == c;
      }
    }
  }
}
