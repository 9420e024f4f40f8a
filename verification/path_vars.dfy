/**
 `parsePathVars` (lib/utility/utils.js:33-37): the names of the path
 variables of a url template, in order, found by the global regular
 expression `\{[^}]*\}` with the braces stripped.

 The global match is modelled as a scanner: take the first `{`, then the
 first `}` after it; the text between is a name (it may contain `{`, never
 `}`), and scanning resumes after that `}`. When no `}` follows the first
 `{`, no later `{` can have one either, so the scan ends.
 */
module PathVars {
  import opened Wrappers
  import opened Strings

  /** `url.match(/\{[^}]*\}/g) || []`, each match with its braces stripped. */
  function ParsePathVars(url: string): (names: seq<string>)
    ensures forall k :: 0 <= k < |names| ==> '}' !in names[k]
    decreases |url|
  {
    match IndexOf(url, '{')
    case None => []
    case Some(i) =>
      var after := url[i + 1..];
      match IndexOf(after, '}')
      case None => []
      case Some(j) => [after[..j]] + ParsePathVars(after[j + 1..])
  }

  /** Each variable consumes its own closing `}`, so there are never more
      variables than `}` characters, and none at all without a `{` or a `}`. */
  lemma {:induction false} PathVarsBound(url: string)
    ensures |ParsePathVars(url)| <= multiset(url)['}']
    ensures '{' !in url || '}' !in url ==> ParsePathVars(url) == []
    decreases |url|
  {
    match IndexOf(url, '{')
    case None =>
    case Some(i) =>
      var after := url[i + 1..];
      match IndexOf(after, '}')
      case None =>
      case Some(j) =>
        var rest := after[j + 1..];
        PathVarsBound(rest);
        assert url == url[..i + j + 2] + rest;
        assert url[..i + j + 2][i + 1 + j] == '}';
        assert multiset(url)['}'] == multiset(url[..i + j + 2])['}'] + multiset(rest)['}'];
  }

  /** The url rebuilt from the text around the tokens and the token names:
      `gaps[0] + "{" + names[0] + "}" + gaps[1] + ... + gaps[|names|]`. */
  function Render(gaps: seq<string>, names: seq<string>): string
    requires |gaps| == |names| + 1
    decreases |names|
  {
    if |names| == 0 then gaps[0]
    else gaps[0] + "{" + names[0] + "}" + Render(gaps[1..], names[1..])
  }

  /** No `{` is followed, anywhere later, by a `}`: the pattern matches nowhere in `s`. */
  predicate NoToken(s: string) {
    forall i, j :: 0 <= i < j < |s| && s[i] == '{' ==> s[j] != '}'
  }

  /** `gaps` and `names` carve a url the way the global match does: the text
      before each token holds no `{` (else the match would start there), no
      name holds a `}` (the match ends at the first one), and the text after
      the last token holds no further match. */
  predicate Tokenization(gaps: seq<string>, names: seq<string>) {
    && |gaps| == |names| + 1
    && (forall k :: 0 <= k < |names| ==> '{' !in gaps[k] && '}' !in names[k])
    && NoToken(gaps[|names|])
  }

  /** A url in which the pattern matches nowhere has no path variables. */
  lemma NoTokenHasNoVars(url: string)
    requires NoToken(url)
    ensures ParsePathVars(url) == []
  {
    match IndexOf(url, '{')
    case None =>
    case Some(i) =>
      var after := url[i + 1..];
      assert forall q :: 0 <= q < |after| ==> after[q] == url[i + 1 + q];
  }

  /** When no `}` follows the first `{`, the pattern matches nowhere. */
  lemma NoCloseAfterFirstOpen(url: string, i: nat)
    requires IndexOf(url, '{') == Some(i)
    requires '}' !in url[i + 1..]
    ensures NoToken(url)
  {
    assert forall k :: 0 <= k < i ==> url[..i][k] == url[k];
    assert forall q :: i < q < |url| ==> url[q] == url[i + 1..][q - i - 1];
  }

  /** The scan's view of a url: the text before the first `{`, the token, and the rest. */
  lemma ScanSplit(url: string, i: nat, j: nat)
    requires i < |url| && url[i] == '{'
    requires j < |url[i + 1..]| && url[i + 1..][j] == '}'
    ensures url == url[..i] + "{" + url[i + 1..][..j] + "}" + url[i + 1..][j + 1..]
  {
    var after := url[i + 1..];
    assert after == after[..j] + "}" + after[j + 1..];
    assert url == url[..i] + "{" + after;
  }

  /** Putting one more token and the text before it in front of a decomposition. */
  lemma TokenizationCons(g: string, n: string, gaps: seq<string>, names: seq<string>)
    requires '{' !in g && '}' !in n
    requires Tokenization(gaps, names)
    ensures Tokenization([g] + gaps, [n] + names)
    ensures Render([g] + gaps, [n] + names) == g + "{" + n + "}" + Render(gaps, names)
  {
    var gs := [g] + gaps;
    var ns := [n] + names;
    assert gs[1..] == gaps && ns[1..] == names;
    assert forall k :: 1 <= k < |ns| ==> gs[k] == gaps[k - 1] && ns[k] == names[k - 1];
  }

  /** One step of the scan: the first token and the text before it in front
      of a decomposition of the rest. */
  lemma GapsStep(url: string, i: nat, j: nat, more: seq<string>)
    requires IndexOf(url, '{') == Some(i)
    requires IndexOf(url[i + 1..], '}') == Some(j)
    requires Tokenization(more, ParsePathVars(url[i + 1..][j + 1..]))
    requires Render(more, ParsePathVars(url[i + 1..][j + 1..])) == url[i + 1..][j + 1..]
    ensures Tokenization([url[..i]] + more, ParsePathVars(url))
    ensures Render([url[..i]] + more, ParsePathVars(url)) == url
  {
    var after := url[i + 1..];
    var rest := after[j + 1..];
    assert ParsePathVars(url) == [after[..j]] + ParsePathVars(rest);
    TokenizationCons(url[..i], after[..j], more, ParsePathVars(rest));
    ScanSplit(url, i, j);
  }

  /** The text the scan leaves between and after the tokens. */
  ghost function Gaps(url: string): (gaps: seq<string>)
    ensures Tokenization(gaps, ParsePathVars(url))
    ensures Render(gaps, ParsePathVars(url)) == url
    decreases |url|
  {
    match IndexOf(url, '{')
    case None => [url]
    case Some(i) =>
      var after := url[i + 1..];
      match IndexOf(after, '}')
      case None =>
        NoCloseAfterFirstOpen(url, i);
        [url]
      case Some(j) =>
        var more := Gaps(after[j + 1..]);
        GapsStep(url, i, j, more);
        [url[..i]] + more
  }

  /** One step of the scan, given where the first `{` and the `}` after it are. */
  lemma ScanStep(url: string, i: nat, j: nat)
    requires IndexOf(url, '{') == Some(i)
    requires IndexOf(url[i + 1..], '}') == Some(j)
    ensures ParsePathVars(url) == [url[i + 1..][..j]] + ParsePathVars(url[i + 1..][j + 1..])
  {
  }

  /** The scan of a url that starts with a token: that token's name, then the
      names found after it. */
  lemma ScanFirstToken(g: string, n: string, rest: string)
    requires '{' !in g && '}' !in n
    ensures ParsePathVars(g + "{" + n + "}" + rest) == [n] + ParsePathVars(rest)
  {
    var url := g + "{" + n + "}" + rest;
    var after := n + "}" + rest;
    assert IndexOf(url, '{') == Some(|g|) && url[|g| + 1..] == after by {
      assert url == g + ['{'] + after;
      IndexOfAfterPrefix(g, '{', after);
    }
    assert IndexOf(after, '}') == Some(|n|) && after[..|n|] == n && after[|n| + 1..] == rest by {
      assert after == n + ['}'] + rest;
      IndexOfAfterPrefix(n, '}', rest);
    }
    ScanStep(url, |g|, |n|);
  }

  /** Dropping the first token of a decomposition leaves a decomposition. */
  lemma TokenizationTail(gaps: seq<string>, names: seq<string>)
    requires Tokenization(gaps, names) && |names| > 0
    ensures Tokenization(gaps[1..], names[1..])
  {
    forall k | 0 <= k < |names[1..]|
      ensures '{' !in gaps[1..][k] && '}' !in names[1..][k]
    {
      assert gaps[1..][k] == gaps[k + 1] && names[1..][k] == names[k + 1];
    }
  }

  /** The decomposition determines the result: whatever carves `url` as the
      global match does lists exactly the variables `ParsePathVars` returns. */
  lemma {:induction false} TokenizationDeterminesVars(gaps: seq<string>, names: seq<string>, url: string)
    requires Tokenization(gaps, names)
    requires Render(gaps, names) == url
    ensures ParsePathVars(url) == names
    decreases |names|
  {
    if |names| == 0 {
      NoTokenHasNoVars(url);
    } else {
      var rest := Render(gaps[1..], names[1..]);
      ScanFirstToken(gaps[0], names[0], rest);
      TokenizationTail(gaps, names);
      TokenizationDeterminesVars(gaps[1..], names[1..], rest);
      assert names == [names[0]] + names[1..];
    }
  }

  /** `ParsePathVars` is characterised by the decomposition, in both directions:
      its result is the one list of names that carves the url into
      `{name}` tokens the way the global match does. */
  lemma PathVarsCharacterised(url: string, names: seq<string>)
    ensures ParsePathVars(url) == names <==> exists gaps :: Tokenization(gaps, names) && Render(gaps, names) == url
  {
    if ParsePathVars(url) == names {
      var gaps := Gaps(url);
      assert Tokenization(gaps, names) && Render(gaps, names) == url;
    }
    if exists gaps :: Tokenization(gaps, names) && Render(gaps, names) == url {
      var gaps :| Tokenization(gaps, names) && Render(gaps, names) == url;
      TokenizationDeterminesVars(gaps, names, url);
    }
  }

  /** The result is empty exactly when the pattern matches nowhere in the url. */
  lemma EmptyIffNoToken(url: string)
    ensures ParsePathVars(url) == [] <==> NoToken(url)
  {
    if NoToken(url) {
      NoTokenHasNoVars(url);
    }
    if ParsePathVars(url) == [] {
      var gaps := Gaps(url);
      assert Render(gaps, []) == gaps[0];
    }
  }

  /** The url named in the comment on `parsePathVars`: one variable. */
  lemma PathVarsIdExample()
    ensures ParsePathVars("http://foo.com/bar/{id}") == ["id"]
  {
    assert Render(["http://foo.com/bar/", ""], ["id"]) == "http://foo.com/bar/{id}";
    TokenizationDeterminesVars(["http://foo.com/bar/", ""], ["id"], "http://foo.com/bar/{id}");
  }

  /** A name may itself hold a `{`: the match starts at the first one. */
  lemma PathVarsInnerBraceExample()
    ensures ParsePathVars("{a{b}") == ["a{b"]
  {
    assert Render(["", ""], ["a{b"]) == "{a{b}";
    TokenizationDeterminesVars(["", ""], ["a{b"], "{a{b}");
  }

  /** Without a `{` there is nothing to find. */
  lemma PathVarsNoneExample()
    ensures ParsePathVars("app") == []
  {
    assert '{' !in "app" by {
      assert "app"[0] == 'a' && "app"[1] == 'p' && "app"[2] == 'p';
    }
    PathVarsBound("app");
  }

  /** A `}` before every `{` closes nothing. */
  lemma PathVarsReversedExample()
    ensures ParsePathVars("x}{y") == []
  {
    assert NoToken("x}{y") by {
      assert "x}{y"[0] == 'x' && "x}{y"[1] == '}' && "x}{y"[2] == '{' && "x}{y"[3] == 'y';
    }
    NoTokenHasNoVars("x}{y");
  }

  /** Two variables, in order, for every url shaped like
      `acs/{app_guid}/push_devices/{app_env}`: `g1 {n1} g2 {n2}`. */
  lemma PathVarsPairExample(g1: string, n1: string, g2: string, n2: string)
    requires '{' !in g1 && '{' !in g2
    requires '}' !in n1 && '}' !in n2
    ensures ParsePathVars(g1 + "{" + n1 + "}" + g2 + "{" + n2 + "}") == [n1, n2]
  {
    var second := g2 + "{" + n2 + "}";
    ScanFirstToken(g2, n2, "");
    assert second + "" == second;
    NoTokenHasNoVars("");
    var first := g1 + "{" + n1 + "}";
    ConcatAssoc(first, g2, "{");
    ConcatAssoc(first, g2 + "{", n2);
    ConcatAssoc(first, g2 + "{" + n2, "}");
    ScanFirstToken(g1, n1, second);
  }
}
