/**
 The string primitives the naming engine is built from: JavaScript's
 `indexOf`, `split` on a one-character separator, ASCII `toUpperCase`,
 underscore.string's `capitalize`, and the `hasChar` / `hasChars` helpers
 of lib/utility/utils.js.
 */
module Strings {
  import opened Wrappers

  /** The first position of `c` in `s` at or after `from`, or `None`. */
  function IndexFrom(s: string, c: char, from: nat): (r: Option<nat>)
    requires from <= |s|
    ensures r.None? ==> forall k :: from <= k < |s| ==> s[k] != c
    ensures r.Some? ==> from <= r.value < |s| && s[r.value] == c
    ensures r.Some? ==> forall k :: from <= k < r.value ==> s[k] != c
    decreases |s| - from
  {
    if from == |s| then None
    else if s[from] == c then Some(from)
    else IndexFrom(s, c, from + 1)
  }

  /** The first position of `c` in `s`, or `None` when `s` does not contain it
      (JavaScript's `s.indexOf(c)`, with -1 read as `None`). */
  function IndexOf(s: string, c: char): (r: Option<nat>)
    ensures r.None? <==> c !in s
    ensures r.Some? ==> r.value < |s| && s[r.value] == c && c !in s[..r.value]
  {
    var r := IndexFrom(s, c, 0);
    assert r.Some? ==> forall k :: 0 <= k < r.value ==> s[..r.value][k] == s[k];
    r
  }

  /** `IndexOf` finds the separator right after a prefix that does not contain it. */
  lemma IndexOfAfterPrefix(a: string, c: char, b: string)
    requires c !in a
    ensures IndexOf(a + [c] + b, c) == Some(|a|)
  {
    var s := a + [c] + b;
    assert s[|a|] == c;
    assert forall k :: 0 <= k < |a| ==> s[k] == a[k];
    assert forall k :: |a| < k <= |s| ==> s[..k][|a|] == c;
  }

  /** `hasChar` (lib/utility/utils.js:117-119): `str.indexOf(char) >= 0`. */
  function HasChar(str: string, ch: char): (b: bool)
    ensures b <==> ch in str
  {
    IndexOf(str, ch).Some?
  }

  /** `hasChars` (lib/utility/utils.js:102-109): the loop over `chars` with its
      early return, as a recursion. It holds exactly when some character of
      `chars` occurs in `str`. */
  function HasChars(str: string, chars: string): (b: bool)
    ensures b <==> exists i :: 0 <= i < |chars| && chars[i] in str
    decreases |chars|
  {
    if |chars| == 0 then false
    else if HasChar(str, chars[0]) then true
    else
      assert forall i :: 1 <= i < |chars| ==> chars[i] == chars[1..][i - 1];
      HasChars(str, chars[1..])
  }

  /** Concatenation regroups freely. */
  lemma ConcatAssoc(a: string, b: string, c: string)
    ensures a + b + c == a + (b + c)
  {
  }

  /** Glues `parts` back together with `d` between neighbours (JavaScript's
      `parts.join(d)`); the inverse of `Split`. */
  function Join(parts: seq<string>, d: char): string
    requires |parts| >= 1
    decreases |parts|
  {
    if |parts| == 1 then parts[0] else parts[0] + [d] + Join(parts[1..], d)
  }

  /** JavaScript's `s.split(d)` for a one-character separator: the maximal
      separator-free pieces, always at least one (`""` splits to `[""]`). */
  function Split(s: string, d: char): (r: seq<string>)
    ensures |r| >= 1
    ensures forall k :: 0 <= k < |r| ==> d !in r[k]
    ensures Join(r, d) == s
    decreases |s|
  {
    match IndexOf(s, d)
    case None => [s]
    case Some(i) =>
      var rest := Split(s[i + 1..], d);
      assert s == s[..i] + [d] + s[i + 1..];
      assert ([s[..i]] + rest)[1..] == rest;
      [s[..i]] + rest
  }

  /** Splitting undoes joining: the pieces of a join are the joined parts,
      provided no part contains the separator. */
  lemma {:induction false} SplitJoin(parts: seq<string>, d: char)
    requires |parts| >= 1
    requires forall k :: 0 <= k < |parts| ==> d !in parts[k]
    ensures Split(Join(parts, d), d) == parts
    decreases |parts|
  {
    if |parts| > 1 {
      SplitCons(parts[0], d, Join(parts[1..], d));
      SplitJoin(parts[1..], d);
      assert parts == [parts[0]] + parts[1..];
    } else {
      assert IndexOf(parts[0], d) == None;
    }
  }

  /** A string has one more piece than it has separators. */
  lemma {:induction false} SplitCount(s: string, d: char)
    ensures |Split(s, d)| == multiset(s)[d] + 1
    decreases |s|
  {
    match IndexOf(s, d)
    case None =>
    case Some(i) =>
      assert s == s[..i] + [d] + s[i + 1..];
      assert multiset(s[..i])[d] == 0;
      SplitCount(s[i + 1..], d);
  }

  /** The first piece is everything before the first separator; the other
      pieces are the pieces of what follows it. */
  lemma SplitCons(a: string, d: char, b: string)
    requires d !in a
    ensures Split(a + [d] + b, d) == [a] + Split(b, d)
  {
    IndexOfAfterPrefix(a, d, b);
    var s := a + [d] + b;
    assert s[..|a|] == a;
    assert s[|a| + 1..] == b;
  }

  /** A leading separator contributes one empty piece in front of the pieces of the rest. */
  lemma SplitLeadingSeparator(d: char, p: string)
    ensures Split([d] + p, d) == [""] + Split(p, d)
  {
    SplitCons("", d, p);
    assert "" + [d] + p == [d] + p;
  }

  /** A string without the separator is a single piece. */
  lemma SplitSingle(s: string, d: char)
    requires d !in s
    ensures Split(s, d) == [s]
  {
  }

  predicate IsLowerAscii(c: char) {
    'a' <= c <= 'z'
  }

  /** ASCII upper-casing of one character; every other character is unchanged. */
  function UpperChar(c: char): (u: char)
    ensures !IsLowerAscii(u)
    ensures IsLowerAscii(c) ==> u as int == c as int - 32
    ensures !IsLowerAscii(c) ==> u == c
  {
    if IsLowerAscii(c) then (c as int - 32) as char else c
  }

  /** JavaScript's `s.toUpperCase()`, restricted to the ASCII letters. */
  function ToUpper(s: string): (r: string)
    ensures |r| == |s|
    ensures forall i :: 0 <= i < |s| ==> r[i] == UpperChar(s[i])
    decreases |s|
  {
    if |s| == 0 then "" else [UpperChar(s[0])] + ToUpper(s[1..])
  }

  /** underscore.string's `capitalize(s)` without its `lowercaseRest` flag:
      the first character upper-cased, the rest unchanged. */
  function Capitalize(s: string): (r: string)
    ensures |r| == |s|
    ensures |s| > 0 ==> r[0] == UpperChar(s[0]) && r[1..] == s[1..]
  {
    if |s| == 0 then "" else [UpperChar(s[0])] + s[1..]
  }

  predicate IsDigit(c: char) {
    '0' <= c <= '9'
  }

  /** Some character of `s` is a decimal digit. */
  predicate ContainsDigit(s: string) {
    exists i :: 0 <= i < |s| && IsDigit(s[i])
  }
}
