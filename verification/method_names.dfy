/**
 `parseMethodName` (lib/utility/utils.js:51-94): a method name is a prefix
 chosen by the HTTP verb, followed by a suffix built from the path segments
 that remain once the leading `/` and the model segment are dropped.

 As in the rest of the model, underscore.string's `classify` is the
 parameter `classify`. A prefix the source would leave `undefined` (the
 verb and `GET` both missing from a custom verb map) is `None`, and
 appending to it gives text that starts with `undefined`, as in JavaScript.
 */
module MethodNames {
  import opened Wrappers
  import opened Strings

  /** Upper-case verb to method-name prefix. */
  type VerbMap = map<string, string>

  /** The `options` argument; only its `verbMap` is read. `None` stands for a
      missing `options` object or a missing (falsy) `verbMap`. */
  datatype Options = Options(verbMap: Option<VerbMap>)

  /** The verb map used when the caller supplies none (lib/utility/utils.js:54-59). */
  const DefaultVerbMap: VerbMap :=
    map["POST" := "create", "GET" := "find", "PUT" := "update", "DELETE" := "delete"]

  /** Characters whose presence sends a segment through `classify` rather than `Capitalize`. */
  const Separators := "_-."

  /** A supplied verb map replaces the default one wholesale. */
  function EffectiveVerbMap(options: Options): VerbMap {
    options.verbMap.GetOr(DefaultVerbMap)
  }

  /** `(verb || 'GET').toUpperCase()`; the empty string stands for every falsy verb. */
  function NormalizeVerb(verb: string): (v: string)
    ensures v != ""
    ensures forall i :: 0 <= i < |v| ==> !IsLowerAscii(v[i])
  {
    ToUpper(if verb == "" then "GET" else verb)
  }

  /** `verbMap[verb] || verbMap.GET`: a missing or empty entry falls back to
      the `GET` entry, and a missing `GET` entry leaves no prefix at all. */
  function ResolvePrefix(m: VerbMap, verb: string): (r: Option<string>)
    ensures r.None? <==> (verb !in m || m[verb] == "") && "GET" !in m
    ensures verb in m && m[verb] != "" ==> r == Some(m[verb])
    ensures (verb !in m || m[verb] == "") && "GET" in m ==> r == Some(m["GET"])
  {
    if verb in m && m[verb] != "" then Some(m[verb])
    else if "GET" in m then Some(m["GET"])
    else None
  }

  /** `components.splice(0, 1)`: drops the first element, if there is one. */
  function DropFirst(s: seq<string>): (r: seq<string>)
    ensures |s| > 0 ==> s == s[..1] + r
    ensures |s| == 0 ==> r == []
  {
    if |s| == 0 then [] else s[1..]
  }

  /** The path segments a method name is built from: the `/`-separated pieces
      without the empty piece of a leading `/` and without the model segment. */
  function Components(path: string): (r: seq<string>)
    ensures forall k :: 0 <= k < |r| ==> '/' !in r[k]
    ensures |r| == multiset(path)['/'] - (if |path| > 0 && path[0] == '/' then 1 else 0)
  {
    SplitCount(path, '/');
    var segs := Split(path, '/');
    var segs' := if |path| > 0 && path[0] == '/' then DropFirst(segs) else segs;
    DropFirst(segs')
  }

  /** A path variable segment: its first character is `{`. The empty segment is a literal. */
  predicate IsVariable(seg: string) {
    |seg| > 0 && seg[0] == '{'
  }

  /** What one literal segment adds to the name. */
  function LiteralName(classify: string -> string, seg: string): (r: string)
    ensures '_' in seg || '-' in seg || '.' in seg ==> r == classify(seg)
    ensures '_' !in seg && '-' !in seg && '.' !in seg ==> r == Capitalize(seg)
  {
    assert Separators[0] == '_' && Separators[1] == '-' && Separators[2] == '.';
    if HasChars(seg, Separators) then classify(seg) else Capitalize(seg)
  }

  /** What one segment adds to the name: nothing for a path variable. */
  function SegmentName(classify: string -> string, seg: string): string {
    if IsVariable(seg) then "" else LiteralName(classify, seg)
  }

  /** The segment names of `comps`, in order. */
  function Suffix(classify: string -> string, comps: seq<string>): string
    decreases |comps|
  {
    if |comps| == 0 then "" else SegmentName(classify, comps[0]) + Suffix(classify, comps[1..])
  }

  predicate AllVariables(comps: seq<string>) {
    forall k :: 0 <= k < |comps| ==> IsVariable(comps[k])
  }

  /** Everything after the prefix, for the normalised verb `v`. */
  function Tail(classify: string -> string, v: string, comps: seq<string>): string {
    if |comps| == 0 then (if v == "POST" then "" else "All")
    else Suffix(classify, comps) + (if AllVariables(comps) && v == "GET" then "One" else "")
  }

  /** Whether the source appends anything to the prefix: `All` when no segment
      remains (except for `POST`), and otherwise a literal segment's name or
      `One` (only for `GET`). */
  predicate Appends(v: string, comps: seq<string>) {
    if |comps| == 0 then v != "POST" else !AllVariables(comps) || v == "GET"
  }

  /** JavaScript's `name += s` on a name that may still be `undefined`: the
      missing name converts to the text `undefined`. */
  function Append(name: Option<string>, s: string): string {
    name.GetOr("undefined") + s
  }

  /** `parseMethodName(options, verb, path)`. The result starts with the entry
      of the normalised verb when that entry is present and non-empty, else
      with the `GET` entry; with neither, the name stays `undefined` (`None`)
      unless something is appended to it, which turns it into text starting
      with `undefined`. */
  function MethodName(classify: string -> string, options: Options, verb: string, path: string): (r: Option<string>)
    ensures
      var m := EffectiveVerbMap(options);
      var v := NormalizeVerb(verb);
      if v in m && m[v] != "" then r.Some? && m[v] <= r.value
      else if "GET" in m then r.Some? && m["GET"] <= r.value
      else (r.Some? <==> Appends(v, Components(path))) && (r.Some? ==> "undefined" <= r.value)
  {
    var v := NormalizeVerb(verb);
    var comps := Components(path);
    var prefix := ResolvePrefix(EffectiveVerbMap(options), v);
    if Appends(v, comps) then Some(Append(prefix, Tail(classify, v, comps))) else prefix
  }

  /** The suffix of two runs of segments is the two suffixes, one after the other. */
  lemma {:induction false} SuffixAppend(classify: string -> string, a: seq<string>, b: seq<string>)
    ensures Suffix(classify, a + b) == Suffix(classify, a) + Suffix(classify, b)
    decreases |a|
  {
    if |a| > 0 {
      assert (a + b)[1..] == a[1..] + b;
      SuffixAppend(classify, a[1..], b);
    } else {
      assert a + b == b;
    }
  }

  /** One more segment extends the suffix by its name and keeps "all path
      variables" only when it is one. */
  lemma PrefixStep(classify: string -> string, comps: seq<string>, i: nat)
    requires i < |comps|
    ensures Suffix(classify, comps[..i + 1]) == Suffix(classify, comps[..i]) + SegmentName(classify, comps[i])
    ensures AllVariables(comps[..i + 1]) == (AllVariables(comps[..i]) && IsVariable(comps[i]))
  {
    SuffixAppend(classify, comps[..i], [comps[i]]);
    assert comps[..i + 1] == comps[..i] + [comps[i]];
    assert Suffix(classify, [comps[i]]) == SegmentName(classify, comps[i]);
  }

  /** The name after the components `comps` have been processed from `prefix`:
      untouched while they are all path variables. */
  function NameAfter(classify: string -> string, prefix: Option<string>, comps: seq<string>): Option<string> {
    if AllVariables(comps) then prefix else Some(Append(prefix, Suffix(classify, comps)))
  }

  /** After a literal segment the suffix so far is always appended. */
  lemma LiteralStep(classify: string -> string, prefix: Option<string>, comps: seq<string>, i: nat)
    requires i < |comps| && !IsVariable(comps[i])
    ensures NameAfter(classify, prefix, comps[..i + 1])
         == Some(Append(prefix, Suffix(classify, comps[..i]) + LiteralName(classify, comps[i])))
  {
    PrefixStep(classify, comps, i);
  }

  /** A path variable leaves the name alone. */
  lemma NameAfterVariable(classify: string -> string, prefix: Option<string>, comps: seq<string>, i: nat)
    requires i < |comps| && IsVariable(comps[i])
    ensures NameAfter(classify, prefix, comps[..i + 1]) == NameAfter(classify, prefix, comps[..i])
  {
    PrefixStep(classify, comps, i);
    var before := Suffix(classify, comps[..i]);
    assert before + "" == before;
  }

  /** A literal component appends its name to the name so far. */
  lemma NameAfterLiteral(classify: string -> string, prefix: Option<string>, comps: seq<string>, i: nat)
    requires i < |comps| && !IsVariable(comps[i])
    ensures NameAfter(classify, prefix, comps[..i + 1])
         == Some(Append(NameAfter(classify, prefix, comps[..i]), LiteralName(classify, comps[i])))
  {
    var before := Suffix(classify, comps[..i]);
    var literal := LiteralName(classify, comps[i]);
    LiteralStep(classify, prefix, comps, i);
    if AllVariables(comps[..i]) {
      assert before == "" by {
        AllVariablesNoSuffix(classify, comps[..i]);
      }
      assert before + literal == literal;
    } else {
      AppendTwice(prefix, before, literal);
    }
  }

  /** Appending twice appends the concatenation: `undefined` is converted once. */
  lemma AppendTwice(name: Option<string>, a: string, b: string)
    ensures Append(Some(Append(name, a)), b) == Append(name, a + b)
  {
    ConcatAssoc(name.GetOr("undefined"), a, b);
  }

  /** The loop of `parseMethodName` (lib/utility/utils.js:80-87): appends the
      name of every literal component to `prefix` and reports whether every
      component was a path variable, in which case nothing was appended. */
  method AppendComponents(classify: string -> string, prefix: Option<string>, components: seq<string>)
    returns (name: Option<string>, allParams: bool)
    ensures allParams <==> AllVariables(components)
    ensures allParams ==> name == prefix
    ensures !allParams ==> name == Some(Append(prefix, Suffix(classify, components)))
  {
    name := prefix;
    allParams := true;
    var i := 0;
    while i < |components|
      invariant 0 <= i <= |components|
      invariant allParams == AllVariables(components[..i])
      invariant name == NameAfter(classify, prefix, components[..i])
    {
      var component := components[i];
      PrefixStep(classify, components, i);
      if !IsVariable(component) {
        NameAfterLiteral(classify, prefix, components, i);
        name := Some(Append(name, LiteralName(classify, component)));
        allParams := false;
      } else {
        NameAfterVariable(classify, prefix, components, i);
      }
      i := i + 1;
    }
    assert components[..i] == components;
  }

  /** `parseMethodName` as the source writes it, statement by statement. */
  method ParseMethodName(classify: string -> string, options: Options, verb: string, path: string)
    returns (r: Option<string>)
    ensures r == MethodName(classify, options, verb, path)
  {
    var components := Split(path, '/');
    var verbMap := EffectiveVerbMap(options);
    var v := NormalizeVerb(verb);
    if |path| > 0 && path[0] == '/' {
      components := DropFirst(components);
    }
    components := DropFirst(components);
    assert components == Components(path);
    var name := ResolvePrefix(verbMap, v);
    if |components| == 0 {
      if v != "POST" {
        name := Some(Append(name, "All"));
      }
    } else {
      var allParams;
      name, allParams := AppendComponents(classify, name, components);
      if allParams && v == "GET" {
        AllVariablesTail(classify, v, components);
        name := Some(Append(name, "One"));
      } else if !allParams {
        var suffix := Suffix(classify, components);
        assert Tail(classify, v, components) == suffix + "" == suffix;
      }
    }
    r := name;
  }

  /** The leading `/` is a no-op for every path that does not start with a second `/`. */
  lemma MethodNameLeadingSlash(classify: string -> string, options: Options, verb: string, p: string)
    requires |p| == 0 || p[0] != '/'
    ensures MethodName(classify, options, verb, "/" + p) == MethodName(classify, options, verb, p)
  {
    SplitLeadingSeparator('/', p);
    assert ['/'] + p == "/" + p;
    assert Components("/" + p) == Components(p);
  }

  /** The prefix the default map gives a verb that is already upper case. */
  lemma DefaultPrefix(verb: string)
    requires verb in DefaultVerbMap
    ensures NormalizeVerb(verb) == verb
    ensures ResolvePrefix(EffectiveVerbMap(Options(None)), verb) == Some(DefaultVerbMap[verb])
  {
    assert verb == "POST" || verb == "GET" || verb == "PUT" || verb == "DELETE";
  }

  /** The remaining segments of `//x` and of `/x`. */
  lemma DoubleSlashComponents(x: string)
    requires '/' !in x
    ensures Components("//" + x) == [x]
    ensures Components("/" + x) == []
  {
    SplitSingle(x, '/');
    SplitLeadingSeparator('/', x);
    assert "/" + x == ['/'] + x;
    SplitLeadingSeparator('/', "/" + x);
    assert "//" + x == ['/'] + ("/" + x);
  }

  /** A literal segment without `_`, `-` or `.` is capitalised. */
  lemma PlainLiteralName(classify: string -> string, seg: string)
    requires |seg| > 0 && seg[0] != '{'
    requires forall i :: 0 <= i < |seg| ==> seg[i] !in Separators
    ensures SegmentName(classify, seg) == [UpperChar(seg[0])] + seg[1..]
  {
  }

  /** A literal segment holding `_`, `-` or `.` goes through `classify`. */
  lemma SeparatedLiteralName(classify: string -> string, seg: string)
    requires |seg| > 0 && seg[0] != '{'
    requires '_' in seg || '-' in seg || '.' in seg
    ensures SegmentName(classify, seg) == classify(seg)
  {
    assert Separators[0] == '_' && Separators[1] == '-' && Separators[2] == '.';
  }

  /** The tail of a single literal segment without `_`, `-` or `.` is that
      segment capitalised, with no `One`. */
  lemma SinglePlainTail(classify: string -> string, v: string, seg: string)
    requires |seg| > 0 && seg[0] != '{'
    requires forall i :: 0 <= i < |seg| ==> seg[i] !in Separators
    ensures Tail(classify, v, [seg]) == Capitalize(seg)
  {
    PlainLiteralName(classify, seg);
    SuffixSingle(classify, seg);
    assert !AllVariables([seg]) by {
      assert !IsVariable([seg][0]);
    }
    assert Capitalize(seg) + "" == Capitalize(seg);
  }

  /** The suffix of a single segment is that segment's name. */
  lemma SuffixSingle(classify: string -> string, seg: string)
    ensures Suffix(classify, [seg]) == SegmentName(classify, seg)
  {
    assert Suffix(classify, [seg]) == SegmentName(classify, seg) + Suffix(classify, []);
  }

  /** `GET //x` is named after the segment `x`. */
  lemma DoubleSlashName(classify: string -> string, x: string)
    requires |x| > 0 && x[0] != '{' && '/' !in x
    requires forall i :: 0 <= i < |x| ==> x[i] !in Separators
    ensures MethodName(classify, Options(None), "GET", "//" + x) == Some("find" + Capitalize(x))
  {
    assert Components("//" + x) == [x] by {
      DoubleSlashComponents(x);
    }
    assert Tail(classify, "GET", [x]) == Capitalize(x) by {
      SinglePlainTail(classify, "GET", x);
    }
    assert !AllVariables([x]) by {
      assert !IsVariable([x][0]);
    }
    DefaultPrefix("GET");
  }

  /** `GET /x` has no segment after the model. */
  lemma SingleSlashName(classify: string -> string, x: string)
    requires '/' !in x
    ensures MethodName(classify, Options(None), "GET", "/" + x) == Some("findAll")
  {
    assert "find" + "All" == "findAll";
    assert Components("/" + x) == [] by {
      DoubleSlashComponents(x);
    }
    DefaultPrefix("GET");
  }

  /** A second leading `/` is not removed: it leaves an empty model segment and
      shifts the real model segment into the name, so the leading-slash
      invariance needs its precondition. For a plain segment the two names
      agree exactly when the segment capitalises to `All`. */
  lemma MethodNameDoubleSlash(classify: string -> string, x: string)
    requires |x| > 0 && x[0] != '{' && '/' !in x
    requires forall i :: 0 <= i < |x| ==> x[i] !in Separators
    ensures MethodName(classify, Options(None), "GET", "//" + x) == MethodName(classify, Options(None), "GET", "/" + x)
        <==> Capitalize(x) == "All"
  {
    var c := Capitalize(x);
    assert "find" + "All" == "findAll";
    DoubleSlashName(classify, x);
    SingleSlashName(classify, x);
    if "find" + c == "findAll" {
      assert c == ("find" + c)[4..];
    }
  }

  /** The names can collide: a segment that capitalises to `All` (`all`, `All`)
      gives `findAll` after `//` as well as after `/`. */
  lemma DoubleSlashCollision(classify: string -> string, x: string)
    requires Capitalize(x) == "All"
    ensures MethodName(classify, Options(None), "GET", "//" + x) == MethodName(classify, Options(None), "GET", "/" + x)
  {
    assert "find" + "All" == "findAll";
    CapitalizesToAll(x);
    assert MethodName(classify, Options(None), "GET", "//" + x) == Some("find" + Capitalize(x)) by {
      DoubleSlashName(classify, x);
    }
    assert MethodName(classify, Options(None), "GET", "/" + x) == Some("findAll") by {
      SingleSlashName(classify, x);
    }
  }

  /** A segment that capitalises to `All` is a plain literal. */
  lemma CapitalizesToAll(x: string)
    requires Capitalize(x) == "All"
    ensures |x| > 0 && x[0] != '{' && '/' !in x
    ensures forall i :: 0 <= i < |x| ==> x[i] !in Separators
  {
    assert |x| == 3 && x[1..] == "ll";
    assert x[0] == 'a' || x[0] == 'A';
    assert forall i :: 0 <= i < |x| ==> x[i] == 'a' || x[i] == 'A' || x[i] == 'l';
  }

  /** Only the upper-cased verb matters, and an empty verb is `GET`. */
  lemma MethodNameVerbCase(classify: string -> string, options: Options, v1: string, v2: string, path: string)
    requires ToUpper(v1) == ToUpper(v2)
    ensures MethodName(classify, options, v1, path) == MethodName(classify, options, v2, path)
    ensures MethodName(classify, options, "", path) == MethodName(classify, options, "GET", path)
  {
    assert |v1| == |ToUpper(v1)|;
    assert NormalizeVerb(v1) == NormalizeVerb(v2);
    assert NormalizeVerb("") == NormalizeVerb("GET");
  }

  /** A supplied verb map is not merged with the default: a verb it lacks
      takes its own `GET` entry even when the default map knows the verb. */
  lemma CustomVerbMapReplacesDefault(classify: string -> string, m: VerbMap, verb: string, path: string)
    requires NormalizeVerb(verb) !in m && "GET" in m
    ensures MethodName(classify, Options(Some(m)), verb, path) == Some(m["GET"] + Tail(classify, NormalizeVerb(verb), Components(path)))
  {
    TailWithoutAppends(classify, NormalizeVerb(verb), Components(path));
    assert m["GET"] + "" == m["GET"];
  }

  /** With neither the verb nor `GET` in the map the name is `undefined`,
      unless something is appended, which yields the text `undefined` followed
      by the tail. */
  lemma MissingPrefixName(classify: string -> string, options: Options, verb: string, path: string)
    requires ResolvePrefix(EffectiveVerbMap(options), NormalizeVerb(verb)) == None
    ensures var v := NormalizeVerb(verb);
      MethodName(classify, options, verb, path)
        == if Appends(v, Components(path)) then Some("undefined" + Tail(classify, v, Components(path))) else None
  {
  }

  /** When nothing is appended the tail is empty. */
  lemma TailWithoutAppends(classify: string -> string, v: string, comps: seq<string>)
    ensures !Appends(v, comps) ==> Tail(classify, v, comps) == ""
  {
    if !Appends(v, comps) && |comps| > 0 {
      AllVariablesNoSuffix(classify, comps);
    }
  }

  /** The remaining segments are empty exactly when the path, after its one
      leading `/`, holds no further `/`. */
  lemma {:induction false} NoComponentsIff(path: string)
    ensures Components(path) == [] <==>
      '/' !in (if |path| > 0 && path[0] == '/' then path[1..] else path)
  {
    var p := if |path| > 0 && path[0] == '/' then path[1..] else path;
    if |path| > 0 && path[0] == '/' {
      assert path == ['/'] + p;
      SplitLeadingSeparator('/', p);
    }
    SplitCount(p, '/');
  }

  /** With no segments left the name is the prefix followed by `All`, except
      for `POST`, whose name is the bare prefix. */
  lemma NoComponentsName(classify: string -> string, options: Options, verb: string, path: string, prefix: string)
    requires Components(path) == []
    requires ResolvePrefix(EffectiveVerbMap(options), NormalizeVerb(verb)) == Some(prefix)
    ensures NormalizeVerb(verb) != "POST" ==> MethodName(classify, options, verb, path) == Some(prefix + "All")
    ensures NormalizeVerb(verb) == "POST" ==> MethodName(classify, options, verb, path) == Some(prefix)
  {
  }

  /** The suffix of a segment followed by more is that segment's name followed by theirs. */
  lemma SuffixCons(classify: string -> string, seg: string, rest: seq<string>)
    ensures Suffix(classify, [seg] + rest) == SegmentName(classify, seg) + Suffix(classify, rest)
  {
    assert ([seg] + rest)[1..] == rest;
  }

  /** A run of segments is all path variables exactly when both its parts are. */
  lemma AllVariablesConcat(a: seq<string>, b: seq<string>)
    ensures AllVariables(a + b) <==> AllVariables(a) && AllVariables(b)
  {
    var ab := a + b;
    assert forall i :: 0 <= i < |a| ==> ab[i] == a[i];
    assert forall i :: 0 <= i < |b| ==> ab[|a| + i] == b[i];
    if AllVariables(a) && AllVariables(b) {
      forall k | 0 <= k < |ab| ensures IsVariable(ab[k]) {
        if k >= |a| {
          assert ab[k] == b[k - |a|];
        }
      }
    }
  }

  /** Inserting a path variable keeps "all segments are path variables" as it was. */
  lemma InsertVariableKeepsAllVariables(a: seq<string>, x: string, b: seq<string>)
    requires IsVariable(x)
    ensures AllVariables(a + [x] + b) <==> AllVariables(a + b)
  {
    AllVariablesConcat(a + [x], b);
    AllVariablesConcat(a, [x]);
    AllVariablesConcat(a, b);
  }

  /** Inserting a path variable leaves the suffix as it was. */
  lemma InsertVariableKeepsSuffix(classify: string -> string, a: seq<string>, x: string, b: seq<string>)
    requires IsVariable(x)
    ensures Suffix(classify, a + [x] + b) == Suffix(classify, a + b)
  {
    assert a + [x] + b == a + ([x] + b);
    SuffixAppend(classify, a, [x] + b);
    SuffixCons(classify, x, b);
    SuffixAppend(classify, a, b);
    assert "" + Suffix(classify, b) == Suffix(classify, b);
  }

  /** A path variable contributes nothing, wherever it stands among at least
      one other remaining segment. */
  lemma VariableSegmentIgnored(classify: string -> string, v: string, a: seq<string>, x: string, b: seq<string>)
    requires |a + b| > 0
    requires IsVariable(x)
    ensures Tail(classify, v, a + [x] + b) == Tail(classify, v, a + b)
  {
    InsertVariableKeepsSuffix(classify, a, x, b);
    InsertVariableKeepsAllVariables(a, x, b);
  }

  /** A literal segment appends its own name (see `LiteralName`) and rules out
      the `One` suffix. */
  lemma LiteralSegmentAppended(classify: string -> string, v: string, comps: seq<string>, x: string)
    requires !IsVariable(x)
    ensures Tail(classify, v, comps + [x]) == Suffix(classify, comps) + LiteralName(classify, x)
  {
    SuffixAppend(classify, comps, [x]);
    assert (comps + [x])[|comps|] == x;
  }

  /** When every remaining segment is a path variable, the name is the prefix
      followed by `One` for `GET`, and the bare prefix for every other verb. */
  lemma {:induction false} AllVariablesTail(classify: string -> string, v: string, comps: seq<string>)
    requires |comps| > 0 && AllVariables(comps)
    ensures Tail(classify, v, comps) == if v == "GET" then "One" else ""
  {
    AllVariablesNoSuffix(classify, comps);
  }

  /** Path variables alone contribute nothing. */
  lemma {:induction false} AllVariablesNoSuffix(classify: string -> string, comps: seq<string>)
    requires AllVariables(comps)
    ensures Suffix(classify, comps) == ""
    decreases |comps|
  {
    if |comps| > 0 {
      assert AllVariables(comps[1..]) by {
        forall k | 0 <= k < |comps[1..]| ensures IsVariable(comps[1..][k]) {
          assert comps[1..][k] == comps[k + 1];
        }
      }
      AllVariablesNoSuffix(classify, comps[1..]);
    }
  }

  /** For a path without a leading `/`, the remaining segments are the
      `/`-separated pieces after the first: the model segment is dropped. */
  lemma ComponentsOfJoin(parts: seq<string>)
    requires |parts| >= 1 && |parts[0]| > 0
    requires forall k :: 0 <= k < |parts| ==> '/' !in parts[k]
    ensures Components(Join(parts, '/')) == parts[1..]
  {
    SplitJoin(parts, '/');
    var path := Join(parts, '/');
    if |parts| > 1 {
      ConcatAssoc(parts[0], ['/'], Join(parts[1..], '/'));
    }
    assert path[0] == parts[0][0];
  }
}
