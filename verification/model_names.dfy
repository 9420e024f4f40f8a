/**
 `parseModelName` (lib/utility/utils.js:15-26): the resource name of a path
 is the class-cased form of its first segment, or of its second segment
 when the first one looks like an API version number.

 The class-casing routine (underscore.string's `classify`) is not part of
 this model: it is the parameter `classify`, and every result is stated in
 terms of it.
 */
module ModelNames {
  import opened Wrappers
  import opened Strings

  /** The segments `parseModelName` looks at: one leading `/` removed, the
      rest split on `/` (never empty, since `split` never is). */
  function ModelSegments(path: string): (segs: seq<string>)
    ensures |segs| >= 1
  {
    var p := if |path| > 0 && path[0] == '/' then path[1..] else path;
    Split(p, '/')
  }

  /** The regular expression `v?\d+([\.\d+])*` finds a match starting at
      position `i` of `s`: an optional `v`, then at least one digit (the
      repeated group may match nothing, so it never decides a match). */
  predicate VersionPatternAt(s: string, i: nat)
    requires i < |s|
  {
    IsDigit(s[i]) || (s[i] == 'v' && i + 1 < |s| && IsDigit(s[i + 1]))
  }

  /** `segments[0].match(...)` is truthy: the unanchored pattern matches
      somewhere. Because it is unanchored and everything after its first digit
      is optional, this holds exactly when the segment contains a digit. */
  predicate VersionPatternMatches(s: string): (b: bool)
    ensures b <==> ContainsDigit(s)
  {
    assert forall i :: 0 <= i < |s| && IsDigit(s[i]) ==> VersionPatternAt(s, i);
    exists i: nat :: i < |s| && VersionPatternAt(s, i)
  }

  /** Digits separated by single dots: `1`, `2.0`, `10.4.1`. */
  predicate DottedNumber(s: string) {
    && |s| > 0
    && IsDigit(s[0]) && IsDigit(s[|s| - 1])
    && (forall i :: 0 <= i < |s| ==> IsDigit(s[i]) || s[i] == '.')
    && (forall i :: 0 <= i < |s| - 1 ==> s[i] == '.' ==> s[i + 1] != '.')
  }

  /** A whole segment that is a version marker such as `v1`, `2` or `v2.1`,
      the pattern the comment on lib/utility/utils.js:21 has in mind. */
  predicate IsVersionMarker(seg: string) {
    if |seg| > 0 && seg[0] == 'v' then DottedNumber(seg[1..]) else DottedNumber(seg)
  }

  /** The digit test accepts every version marker, and also segments that are
      not version markers at all, such as `ipv4` or `oauth2`. */
  lemma DigitTestAcceptsMoreThanVersionMarkers(seg: string)
    ensures IsVersionMarker(seg) ==> ContainsDigit(seg)
    ensures ContainsDigit("ipv4") && !IsVersionMarker("ipv4")
  {
    if IsVersionMarker(seg) {
      if |seg| > 0 && seg[0] == 'v' {
        assert IsDigit(seg[1..][0]);
        assert IsDigit(seg[1]);
      } else {
        assert IsDigit(seg[0]);
      }
    }
    assert IsDigit("ipv4"[3]);
    assert !DottedNumber("ipv4") by {
      assert !IsDigit("ipv4"[0]);
    }
  }

  /** `parseModelName`: `classify` of segment 1 when the version pattern
      matches segment 0, of segment 0 otherwise; `None` where the source would
      classify the missing segment 1. Because the pattern is unanchored, the
      choice is made exactly by whether segment 0 contains a digit. */
  function ModelName(classify: string -> string, path: string): (r: Option<string>)
    ensures ContainsDigit(ModelSegments(path)[0]) ==>
      if |ModelSegments(path)| >= 2 then r == Some(classify(ModelSegments(path)[1])) else r == None
    ensures !ContainsDigit(ModelSegments(path)[0]) ==> r == Some(classify(ModelSegments(path)[0]))
  {
    var segs := ModelSegments(path);
    if VersionPatternMatches(segs[0]) then
      if |segs| >= 2 then Some(classify(segs[1])) else None
    else
      Some(classify(segs[0]))
  }

  /** The one leading `/` is a no-op, for every path that does not itself
      start with `/`. */
  lemma ModelNameLeadingSlash(classify: string -> string, p: string)
    requires |p| == 0 || p[0] != '/'
    ensures ModelName(classify, "/" + p) == ModelName(classify, p)
  {
    assert ("/" + p)[1..] == p;
  }

  /** A second leading `/` is not removed: `//x` names the model after the
      empty segment, `/x` after `x`. */
  lemma ModelNameDoubleSlash(classify: string -> string)
    requires classify("") != classify("x")
    ensures ModelName(classify, "//x") != ModelName(classify, "/x")
  {
    assert "//x"[1..] == "/x";
    SplitLeadingSeparator('/', "x");
    assert "/x" == ['/'] + "x";
    assert "/x"[1..] == "x";
    assert !ContainsDigit("");
    assert !ContainsDigit("x") by {
      assert forall i :: 0 <= i < 1 ==> "x"[i] == 'x';
    }
  }

  /** A leading version segment is skipped: `/<version>/<rest>` is named after
      `<rest>`, whatever `<rest>` holds. It is the model name of `<rest>` on its
      own only when `<rest>` contains no digit (`/v1/oauth2` names `oauth2`,
      while `oauth2` alone looks like a version and names nothing). */
  lemma {:induction false} ModelNameSkipsVersion(classify: string -> string, version: string, rest: string)
    requires ContainsDigit(version) && '/' !in version
    requires '/' !in rest
    ensures ModelName(classify, "/" + version + "/" + rest) == Some(classify(rest))
    ensures !ContainsDigit(rest) ==> ModelName(classify, rest) == Some(classify(rest))
  {
    var path := "/" + version + "/" + rest;
    assert path[1..] == version + ['/'] + rest;
    SplitCons(version, '/', rest);
    SplitSingle(rest, '/');
    if |rest| > 0 {
      assert rest[0] != '/';
    }
  }

  /** Only the first two segments matter: whatever follows them never changes
      the model name. */
  lemma {:induction false} ModelNameIgnoresTail(classify: string -> string, seg0: string, seg1: string, tail: string)
    requires '/' !in seg0 && '/' !in seg1
    ensures ModelName(classify, "/" + seg0 + "/" + seg1 + "/" + tail)
         == ModelName(classify, "/" + seg0 + "/" + seg1)
  {
    var long := "/" + seg0 + "/" + seg1 + "/" + tail;
    var short := "/" + seg0 + "/" + seg1;
    assert long[1..] == seg0 + ['/'] + (seg1 + ['/'] + tail);
    assert short[1..] == seg0 + ['/'] + seg1;
    SplitCons(seg0, '/', seg1 + ['/'] + tail);
    SplitCons(seg1, '/', tail);
    SplitCons(seg0, '/', seg1);
    SplitSingle(seg1, '/');
  }
}
