/**
 * The JavaScript string operations the core relies on, over `string` = `seq<char>`:
 * ASCII case mapping (`toLowerCase`/`toUpperCase`), the whitespace set of `trim()` and
 * of the regular-expression class `\s`, substring search (`includes`, `startsWith`),
 * `split` on one character, and removal of a set of characters (`replace(/[..]/g, '')`).
 */
module Text {

  /** JavaScript `WhiteSpace` and `LineTerminator` code points: what `trim()` strips and `\s` matches. */
  predicate IsSpace(c: char) {
    c == ' ' || c == '\t' || c == '\n' || c == '\r' || c == '\U{000B}' || c == '\U{000C}'
    || c == '\U{00A0}' || c == '\U{FEFF}' || c == '\U{1680}' || ('\U{2000}' <= c <= '\U{200A}')
    || c == '\U{2028}' || c == '\U{2029}' || c == '\U{202F}' || c == '\U{205F}' || c == '\U{3000}'
  }

  /** The characters a regular-expression `.` does not match. */
  predicate IsLineTerminator(c: char) {
    c == '\n' || c == '\r' || c == '\U{2028}' || c == '\U{2029}'
  }

  predicate IsAsciiUpper(c: char) { 'A' <= c <= 'Z' }
  predicate IsAsciiLower(c: char) { 'a' <= c <= 'z' }
  predicate IsAsciiLetter(c: char) { IsAsciiUpper(c) || IsAsciiLower(c) }
  predicate IsDigit(c: char) { '0' <= c <= '9' }

  function Lower(c: char): (r: char)
    ensures !IsAsciiUpper(r)
    ensures IsAsciiUpper(c) ==> r as int == c as int + 32
    ensures !IsAsciiUpper(c) ==> r == c
  {
    if IsAsciiUpper(c) then (c as int + 32) as char else c
  }

  function Upper(c: char): (r: char)
    ensures !IsAsciiLower(r)
    ensures IsAsciiLower(c) ==> r as int == c as int - 32
    ensures !IsAsciiLower(c) ==> r == c
  {
    if IsAsciiLower(c) then (c as int - 32) as char else c
  }

  /** `s.toLowerCase()`, on the ASCII letters. */
  function LowerStr(s: string): (r: string)
    ensures |r| == |s|
    ensures forall i :: 0 <= i < |s| ==> r[i] == Lower(s[i])
  {
    seq(|s|, i requires 0 <= i < |s| => Lower(s[i]))
  }

  /** `s.toUpperCase()`, on the ASCII letters. */
  function UpperStr(s: string): (r: string)
    ensures |r| == |s|
    ensures forall i :: 0 <= i < |s| ==> r[i] == Upper(s[i])
  {
    seq(|s|, i requires 0 <= i < |s| => Upper(s[i]))
  }

  /** Lower-casing twice is lower-casing once. */
  lemma LowerStrIdempotent(s: string)
    ensures LowerStr(LowerStr(s)) == LowerStr(s)
  {
  }

  predicate StartsWith(s: string, p: string) {
    |p| <= |s| && s[..|p|] == p
  }

  /** `p` occurs in `s` at index `i`. */
  predicate OccursAt(s: string, p: string, i: nat) {
    i + |p| <= |s| && s[i..i + |p|] == p
  }

  /** `s.includes(p)`. */
  predicate Contains(s: string, p: string) {
    exists i: nat | i <= |s| :: OccursAt(s, p, i)
  }

  lemma ContainsAt(s: string, p: string, i: nat)
    requires OccursAt(s, p, i)
    ensures Contains(s, p)
  {
  }

  /** A pattern one of whose characters never appears in `s` cannot occur in `s`. */
  lemma NotContainsMissingChar(s: string, p: string, c: char)
    requires c in p && c !in s
    ensures !Contains(s, p)
  {
    var j :| 0 <= j < |p| && p[j] == c;
    forall i: nat | i <= |s|
      ensures !OccursAt(s, p, i)
    {
      if i + |p| <= |s| {
        assert s[i..i + |p|][j] == s[i + j] != c;
      }
    }
  }

  /** A pattern without the character `c` occurs in `a + [c] + b` only if it occurs in `a` or in `b`. */
  lemma NotContainsAcross(a: string, c: char, b: string, p: string)
    requires c !in p && !Contains(a, p) && !Contains(b, p)
    ensures !Contains(a + [c] + b, p)
  {
    var s := a + [c] + b;
    forall i: nat | i <= |s|
      ensures !OccursAt(s, p, i)
    {
      if i + |p| <= |a| {
        assert s[i..i + |p|] == a[i..i + |p|];
        assert !OccursAt(a, p, i);
      } else if |a| < i && i + |p| <= |s| {
        assert s[i..i + |p|] == b[i - |a| - 1..i - |a| - 1 + |p|];
        assert !OccursAt(b, p, i - |a| - 1);
      } else if i + |p| <= |s| {
        assert s[i..i + |p|][|a| - i] == c;
      }
    }
  }

  /** Patterns each missing one character (`missing[k]` for `ps[k]`) from `s` all fail to occur in it. */
  lemma {:induction false} NoneContained(s: string, ps: seq<string>, missing: string)
    requires |missing| == |ps|
    requires forall k :: 0 <= k < |ps| ==> missing[k] in ps[k] && missing[k] !in s
    ensures forall k :: 0 <= k < |ps| ==> !Contains(s, ps[k])
  {
    forall k | 0 <= k < |ps|
      ensures !Contains(s, ps[k])
    {
      NotContainsMissingChar(s, ps[k], missing[k]);
    }
  }

  lemma StartsWithContains(s: string, p: string)
    requires StartsWith(s, p)
    ensures Contains(s, p)
  {
    assert OccursAt(s, p, 0);
  }

  /** Anything that contains `q` contains each substring of `q`. */
  lemma ContainsTransitive(s: string, q: string, p: string)
    requires Contains(s, q) && Contains(q, p)
    ensures Contains(s, p)
  {
    var i: nat :| i <= |s| && OccursAt(s, q, i);
    var j: nat :| j <= |q| && OccursAt(q, p, j);
    assert i + j + |p| <= |s|;
    forall k | 0 <= k < |p|
      ensures s[i + j..i + j + |p|][k] == p[k]
    {
      assert p[k] == q[j..j + |p|][k] == q[j + k];
      assert q[j + k] == s[i..i + |q|][j + k];
    }
    assert OccursAt(s, p, i + j);
  }

  /** `ps.some(p => s.includes(p))`, evaluated left to right. */
  predicate AnyContained(s: string, ps: seq<string>)
    ensures AnyContained(s, ps) <==> exists k :: 0 <= k < |ps| && Contains(s, ps[k])
  {
    if ps == [] then false
    else Contains(s, ps[0]) || (AnyContained(s, ps[1..]) && assert forall k :: 0 <= k < |ps| - 1 ==> ps[1..][k] == ps[k + 1]; true)
  }

  /** Index just past the maximal run of whitespace starting at `i`. */
  function SpaceEnd(s: string, i: nat): (r: nat)
    requires i <= |s|
    ensures i <= r <= |s|
    ensures forall k :: i <= k < r ==> IsSpace(s[k])
    ensures r == |s| || !IsSpace(s[r])
    decreases |s| - i
  {
    if i < |s| && IsSpace(s[i]) then SpaceEnd(s, i + 1) else i
  }

  /** `s.trimStart()`. */
  function TrimStart(s: string): (r: string)
    ensures |r| <= |s| && r == s[|s| - |r|..]
    ensures r == [] || !IsSpace(r[0])
    ensures forall k :: 0 <= k < |s| - |r| ==> IsSpace(s[k])
  {
    s[SpaceEnd(s, 0)..]
  }

  /** `s.trimEnd()`. */
  function TrimEnd(s: string): (r: string)
    ensures |r| <= |s| && r == s[..|r|]
    ensures r == [] || !IsSpace(r[|r| - 1])
    ensures forall k :: |r| <= k < |s| ==> IsSpace(s[k])
  {
    if s != [] && IsSpace(s[|s| - 1]) then TrimEnd(s[..|s| - 1]) else s
  }

  /** `s.trim()`: both ends stripped of whitespace; the result neither starts nor ends with it. */
  function Trim(s: string): (r: string)
    ensures |r| <= |s|
    ensures r == [] || (!IsSpace(r[0]) && !IsSpace(r[|r| - 1]))
    ensures SpaceEnd(s, 0) + |r| <= |s| && r == s[SpaceEnd(s, 0)..SpaceEnd(s, 0) + |r|]
  {
    var t := TrimStart(s);
    var r := TrimEnd(t);
    r
  }

  lemma {:induction false} TrimOfNoSpace(s: string)
    requires forall k :: 0 <= k < |s| ==> !IsSpace(s[k])
    ensures Trim(s) == s
  {
  }

  /** Text that neither starts nor ends with whitespace is its own trim. */
  lemma TrimOfTrimmed(s: string)
    requires s == [] || (!IsSpace(s[0]) && !IsSpace(s[|s| - 1]))
    ensures Trim(s) == s
  {
    assert SpaceEnd(s, 0) == 0;
    assert TrimStart(s) == s;
  }

  /** Whitespace around a text that neither starts nor ends with whitespace is exactly what `trim` removes. */
  lemma TrimOfPadded(pre: string, core: string, post: string)
    requires forall k :: 0 <= k < |pre| ==> IsSpace(pre[k])
    requires forall k :: 0 <= k < |post| ==> IsSpace(post[k])
    requires core == [] || (!IsSpace(core[0]) && !IsSpace(core[|core| - 1]))
    ensures Trim(pre + core + post) == core
  {
    var s := pre + core + post;
    var t := TrimStart(s);
    if core == [] {
      assert forall k :: 0 <= k < |s| ==> IsSpace(s[k]);
      assert t == [];
    } else {
      assert s[|pre|] == core[0];
      assert t == s[|pre|..];
      assert t == core + post;
      var r := TrimEnd(t);
      assert t[|core| - 1] == core[|core| - 1];
      assert |r| == |core|;
      assert r == core;
    }
  }

  /** `s.replace(/[cs]/g, '')`: every character of `cs` removed, the rest kept in order. */
  function RemoveChars(s: string, cs: set<char>): (r: string)
    ensures |r| <= |s|
    ensures forall k :: 0 <= k < |r| ==> r[k] !in cs && r[k] in s
    ensures forall c :: c !in cs ==> multiset(r)[c] == multiset(s)[c]
    ensures (forall k :: 0 <= k < |s| ==> s[k] !in cs) ==> r == s
  {
    if s == [] then []
    else
      assert s == [s[0]] + s[1..];
      if s[0] in cs then RemoveChars(s[1..], cs)
      else [s[0]] + RemoveChars(s[1..], cs)
  }

  /** Index of the first occurrence of `c` at or after `i`, or `|s|` when there is none. */
  function CharIndex(s: string, c: char, i: nat): (r: nat)
    requires i <= |s|
    ensures i <= r <= |s|
    ensures forall k :: i <= k < r ==> s[k] != c
    ensures r < |s| ==> s[r] == c
    decreases |s| - i
  {
    if i == |s| || s[i] == c then i else CharIndex(s, c, i + 1)
  }

  /** `s.split(sep)` for a one-character separator: never empty, and the pieces joined with `sep` give back `s`. */
  function Split(s: string, sep: char): (parts: seq<string>)
    ensures |parts| >= 1
    ensures forall k :: 0 <= k < |parts| ==> sep !in parts[k]
    ensures Join(parts, sep) == s
    decreases |s|
  {
    var j := CharIndex(s, sep, 0);
    if j == |s| then [s]
    else
      var rest := Split(s[j + 1..], sep);
      assert s == s[..j] + [sep] + s[j + 1..];
      [s[..j]] + rest
  }

  /** `parts.join(sep)`. */
  function Join(parts: seq<string>, sep: char): string
    requires |parts| >= 1
  {
    if |parts| == 1 then parts[0] else parts[0] + [sep] + Join(parts[1..], sep)
  }

  /** Each distinct element once, in order of first occurrence (`[...new Set(xs)]`). */
  function Dedup(xs: seq<string>): (r: seq<string>)
    ensures forall x :: x in r <==> x in xs
    ensures forall i, j :: 0 <= i < j < |r| ==> r[i] != r[j]
    ensures |r| <= |xs|
  {
    DedupAfter(xs, [])
  }

  /** The elements of `xs` not in `seen`, first occurrences only, appended to nothing. */
  function DedupAfter(xs: seq<string>, seen: seq<string>): (r: seq<string>)
    ensures forall x :: x in r <==> x in xs && x !in seen
    ensures forall i, j :: 0 <= i < j < |r| ==> r[i] != r[j]
    ensures |r| <= |xs|
    decreases |xs|
  {
    if xs == [] then []
    else if xs[0] in seen then DedupAfter(xs[1..], seen)
    else
      var rest := DedupAfter(xs[1..], seen + [xs[0]]);
      assert xs[0] !in rest;
      [xs[0]] + rest
  }
}
