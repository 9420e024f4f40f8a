/**
 The examples documented on `parseMethodName` (lib/utility/utils.js:42-49),
 each stated for every path of the documented shape with the default
 options: `m` is the model segment (`app`, `acs`), `x` and `y` are path
 variables (`{id}`, `{app_guid}`), and the other segments are literals.
 Three cases that are not among those examples are stated too: a custom verb
 map `{GET: list}`, an empty custom verb map, and a path ending in `/`.
 */
module MethodNameExamples {
  import opened Wrappers
  import opened Strings
  import opened MethodNames

  /** A model segment: non-empty and free of `/`. */
  predicate ModelSegment(m: string) {
    |m| > 0 && '/' !in m
  }

  /** A path variable segment free of `/`. */
  predicate VariableSegment(x: string) {
    IsVariable(x) && '/' !in x
  }

  /** A literal segment free of `/` and of `_`, `-`, `.`: it is capitalised. */
  predicate PlainSegment(s: string) {
    |s| > 0 && s[0] != '{' && '/' !in s && forall i :: 0 <= i < |s| ==> s[i] !in Separators
  }

  /** A method name is its resolved prefix followed by its tail. */
  lemma NameFromParts(classify: string -> string, options: Options, verb: string, path: string,
                      comps: seq<string>, prefix: string)
    requires Components(path) == comps
    requires ResolvePrefix(EffectiveVerbMap(options), NormalizeVerb(verb)) == Some(prefix)
    ensures MethodName(classify, options, verb, path) == Some(prefix + Tail(classify, NormalizeVerb(verb), comps))
  {
    TailWithoutAppends(classify, NormalizeVerb(verb), comps);
    assert prefix + "" == prefix;
  }

  /** With the default map, a name is the verb's entry followed by the tail
      of the path's remaining segments. */
  lemma DefaultName(classify: string -> string, verb: string, path: string)
    requires verb in DefaultVerbMap
    ensures MethodName(classify, Options(None), verb, path)
         == Some(DefaultVerbMap[verb] + Tail(classify, verb, Components(path)))
  {
    DefaultPrefix(verb);
    NameFromParts(classify, Options(None), verb, path, Components(path), DefaultVerbMap[verb]);
  }

  /** GET app -> findAll, and POST app -> create: a bare model segment. */
  lemma BareModelNames(classify: string -> string, m: string)
    requires ModelSegment(m)
    ensures MethodName(classify, Options(None), "GET", m) == Some("findAll")
    ensures MethodName(classify, Options(None), "POST", m) == Some("create")
  {
    assert Components(m) == [] by {
      ComponentsOfJoin([m]);
    }
    assert DefaultVerbMap["GET"] + "All" == "findAll" by {
      assert DefaultVerbMap["GET"] == "find";
    }
    assert DefaultVerbMap["POST"] + "" == "create" by {
      assert DefaultVerbMap["POST"] == "create";
    }
    DefaultName(classify, "GET", m);
    DefaultName(classify, "POST", m);
  }

  /** A custom map `{GET: "list"}` replaces the default: GET app -> listAll. */
  lemma CustomGetIsListAll(classify: string -> string, m: string)
    requires ModelSegment(m)
    ensures MethodName(classify, Options(Some(map["GET" := "list"])), "GET", m) == Some("listAll")
  {
    var custom := Options(Some(map["GET" := "list"]));
    assert Components(m) == [] by {
      ComponentsOfJoin([m]);
    }
    assert ResolvePrefix(EffectiveVerbMap(custom), NormalizeVerb("GET")) == Some("list") by {
      DefaultPrefix("GET");
    }
    NameFromParts(classify, custom, "GET", m, [], "list");
    assert "list" + "All" == "listAll";
  }

  /** An empty custom map leaves the prefix `undefined`: GET app -> undefinedAll,
      and POST app, which appends nothing, has no name at all. */
  lemma EmptyVerbMapNames(classify: string -> string, m: string)
    requires ModelSegment(m)
    ensures MethodName(classify, Options(Some(map[])), "GET", m) == Some("undefinedAll")
    ensures MethodName(classify, Options(Some(map[])), "POST", m) == None
  {
    assert "undefined" + "All" == "undefinedAll";
    assert Components(m) == [] by {
      ComponentsOfJoin([m]);
    }
    assert NormalizeVerb("GET") == "GET" && NormalizeVerb("POST") == "POST" by {
      DefaultPrefix("GET");
      DefaultPrefix("POST");
    }
    MissingPrefixName(classify, Options(Some(map[])), "GET", m);
    MissingPrefixName(classify, Options(Some(map[])), "POST", m);
  }

  /** The path `m/s` leaves the one segment `s`. */
  lemma TwoSegmentComponents(m: string, s: string)
    requires ModelSegment(m) && '/' !in s
    ensures Components(m + "/" + s) == [s]
  {
    assert Join([m, s], '/') == m + "/" + s;
    ComponentsOfJoin([m, s]);
  }

  /** A model segment followed by one path variable: the verb's entry, then
      `One` for `GET` only. */
  lemma SingleVariableName(classify: string -> string, verb: string, m: string, x: string)
    requires verb in DefaultVerbMap
    requires ModelSegment(m) && VariableSegment(x)
    ensures MethodName(classify, Options(None), verb, m + "/" + x)
         == Some(DefaultVerbMap[verb] + if verb == "GET" then "One" else "")
  {
    TwoSegmentComponents(m, x);
    assert AllVariables([x]);
    AllVariablesTail(classify, verb, [x]);
    DefaultName(classify, verb, m + "/" + x);
  }

  /** GET app/{id} -> findOne */
  lemma GetVariableIsFindOne(classify: string -> string, m: string, x: string)
    requires ModelSegment(m) && VariableSegment(x)
    ensures MethodName(classify, Options(None), "GET", m + "/" + x) == Some("findOne")
  {
    assert DefaultVerbMap["GET"] + "One" == "findOne" by {
      assert DefaultVerbMap["GET"] == "find";
    }
    SingleVariableName(classify, "GET", m, x);
  }

  /** PUT app/{id} -> update */
  lemma PutVariableIsUpdate(classify: string -> string, m: string, x: string)
    requires ModelSegment(m) && VariableSegment(x)
    ensures MethodName(classify, Options(None), "PUT", m + "/" + x) == Some("update")
  {
    assert DefaultVerbMap["PUT"] + "" == "update" by {
      assert DefaultVerbMap["PUT"] == "update";
    }
    SingleVariableName(classify, "PUT", m, x);
  }

  /** GET app/ -> find: the empty segment after a trailing `/` is a literal that
      adds nothing to the name but still rules out `One`. */
  lemma TrailingSlashName(classify: string -> string, m: string)
    requires ModelSegment(m)
    ensures MethodName(classify, Options(None), "GET", m + "/") == Some("find")
  {
    assert DefaultVerbMap["GET"] + "" == "find" by {
      assert DefaultVerbMap["GET"] == "find";
    }
    assert Components(m + "/") == [""] by {
      TwoSegmentComponents(m, "");
      assert m + "/" + "" == m + "/";
    }
    assert Tail(classify, "GET", [""]) == "" by {
      SuffixSingle(classify, "");
      assert !AllVariables([""]) by {
        assert !IsVariable([""][0]);
      }
    }
    DefaultName(classify, "GET", m + "/");
  }

  /** POST app/saveFromTiApp -> createSaveFromTiApp: a plain literal is capitalised. */
  lemma PlainLiteralNames(classify: string -> string, m: string, s: string)
    requires ModelSegment(m) && PlainSegment(s)
    ensures MethodName(classify, Options(None), "POST", m + "/" + s) == Some("create" + Capitalize(s))
  {
    assert DefaultVerbMap["POST"] == "create";
    assert Components(m + "/" + s) == [s] by {
      TwoSegmentComponents(m, s);
    }
    assert Tail(classify, "POST", [s]) == Capitalize(s) by {
      SinglePlainTail(classify, "POST", s);
    }
    DefaultName(classify, "POST", m + "/" + s);
  }

  /** The suffix of `{x}/a/{y}/b`: the two literals' names in order. */
  lemma TwoLiteralSuffix(classify: string -> string, x: string, a: string, y: string, b: string)
    requires IsVariable(x) && IsVariable(y) && !IsVariable(a) && !IsVariable(b)
    ensures Suffix(classify, [x, a, y, b]) == LiteralName(classify, a) + LiteralName(classify, b)
    ensures !AllVariables([x, a, y, b])
  {
    SuffixAppend(classify, [x, a], [y, b]);
    assert [x, a] + [y, b] == [x, a, y, b];
    SuffixAppend(classify, [x], [a]);
    assert [x] + [a] == [x, a];
    SuffixAppend(classify, [y], [b]);
    assert [y] + [b] == [y, b];
    SuffixSingle(classify, x);
    SuffixSingle(classify, a);
    SuffixSingle(classify, y);
    SuffixSingle(classify, b);
    assert "" + LiteralName(classify, a) == LiteralName(classify, a);
    assert "" + LiteralName(classify, b) == LiteralName(classify, b);
    assert !IsVariable([x, a, y, b][1]);
  }

  /** The tail of `{x}/a/{y}/b` for `GET` when neither literal holds a separator. */
  lemma PlainThenPlainTail(classify: string -> string, x: string, a: string, y: string, b: string)
    requires IsVariable(x) && IsVariable(y)
    requires PlainSegment(a) && PlainSegment(b)
    ensures Tail(classify, "GET", [x, a, y, b]) == Capitalize(a) + Capitalize(b)
  {
    TwoLiteralSuffix(classify, x, a, y, b);
    PlainLiteralName(classify, a);
    PlainLiteralName(classify, b);
    assert Capitalize(a) + Capitalize(b) + "" == Capitalize(a) + Capitalize(b);
  }

  /** GET app/{app_guid}/module/{module_guid}/verification -> findModuleVerification,
      for the path `m/x/a/y/b`: literals are capitalised and concatenated,
      path variables vanish, and the literals rule out `One`. */
  lemma FindModuleVerification(classify: string -> string, m: string, x: string, a: string, y: string, b: string)
    requires ModelSegment(m) && VariableSegment(x) && VariableSegment(y)
    requires PlainSegment(a) && PlainSegment(b)
    ensures MethodName(classify, Options(None), "GET", Join([m, x, a, y, b], '/'))
         == Some("find" + Capitalize(a) + Capitalize(b))
  {
    var path := Join([m, x, a, y, b], '/');
    var ca, cb := Capitalize(a), Capitalize(b);
    assert Components(path) == [x, a, y, b] by {
      ComponentsOfJoin([m, x, a, y, b]);
      assert [m, x, a, y, b][1..] == [x, a, y, b];
    }
    assert Tail(classify, "GET", [x, a, y, b]) == ca + cb by {
      PlainThenPlainTail(classify, x, a, y, b);
    }
    ConcatAssoc("find", ca, cb);
    DefaultName(classify, "GET", path);
  }

  /** The tail of `{x}/p/{y}/u` for `DELETE` when `p` holds a separator and `u` does not. */
  lemma SeparatedThenPlainTail(classify: string -> string, x: string, p: string, y: string, u: string)
    requires IsVariable(x) && IsVariable(y)
    requires |p| > 0 && p[0] != '{' && ('_' in p || '-' in p || '.' in p)
    requires PlainSegment(u)
    ensures Tail(classify, "DELETE", [x, p, y, u]) == classify(p) + Capitalize(u)
  {
    TwoLiteralSuffix(classify, x, p, y, u);
    SeparatedLiteralName(classify, p);
    PlainLiteralName(classify, u);
    assert classify(p) + Capitalize(u) + "" == classify(p) + Capitalize(u);
  }

  /** DELETE acs/{app_guid}/push_devices/{app_env}/unsubscribe -> deletePushDevicesUnsubscribe,
      for the path `m/x/p/y/u`: a literal holding `_`, `-` or `.` goes through
      `classify`, so the documented name follows once `classify("push_devices")`
      is `PushDevices`. */
  lemma DeletePushDevicesUnsubscribe(classify: string -> string, m: string, x: string, p: string, y: string, u: string)
    requires ModelSegment(m) && VariableSegment(x) && VariableSegment(y)
    requires |p| > 0 && p[0] != '{' && '/' !in p && ('_' in p || '-' in p || '.' in p)
    requires PlainSegment(u)
    ensures MethodName(classify, Options(None), "DELETE", Join([m, x, p, y, u], '/'))
         == Some("delete" + classify(p) + Capitalize(u))
  {
    var path := Join([m, x, p, y, u], '/');
    var cp, cu := classify(p), Capitalize(u);
    assert Components(path) == [x, p, y, u] by {
      ComponentsOfJoin([m, x, p, y, u]);
      assert [m, x, p, y, u][1..] == [x, p, y, u];
    }
    assert Tail(classify, "DELETE", [x, p, y, u]) == cp + cu by {
      SeparatedThenPlainTail(classify, x, p, y, u);
    }
    ConcatAssoc("delete", cp, cu);
    DefaultName(classify, "DELETE", path);
  }
}
