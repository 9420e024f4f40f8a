# Naming engine of appc.swagger, in Dafny

This project models `lib/utility/utils.js`, the naming engine of the Swagger-to-client generator. It is a small, pure set of string functions:

- `parseModelName(path)` turns a request path into the name of its resource model. It uses the first path segment, or the second one when the first looks like an API version.
- `parsePathVars(url)` lists the `{name}` path variables of a url template, in order.
- `parseMethodName(options, verb, path)` turns an HTTP verb and a path into a client method name. The name is a verb prefix (`find`, `create`, …) followed by the capitalised or class-cased literal path segments, and `All` or `One` in the special cases.
- `hasChars(str, chars)` and `hasChar(str, char)` are membership tests.

Modules:

- `Wrappers`: the `Option` type.
- `Strings`: JavaScript's `indexOf` and `split` on one character, ASCII `toUpperCase`, underscore.string's `capitalize`, and `hasChar` / `hasChars`. `Split` is paired with its inverse `Join`.
- `ModelNames`: `parseModelName`, with the version-segment test written out as an explicit predicate.
- `PathVars`: `parsePathVars`. The global regular expression `\{[^}]*\}` is modelled as a recursive scanner. The scanner is characterised, in both directions, by the decompositions of the url into text and `{name}` tokens.
- `MethodNames`: `parseMethodName`, in two forms:
  - `MethodName`, a functional definition;
  - `ParseMethodName`, a method that follows the source statement by statement, including its loop.
  A lemma connects the two, and further lemmas state the naming rules.
- `MethodNameExamples`: the examples documented on `parseMethodName` (lib/utility/utils.js:42-49), each proved for every path of the documented shape. Three further cases are not among those examples: a custom verb map `{GET: list}` (`listAll`), an empty custom verb map (`undefinedAll`, or no name for `POST`), and a trailing `/` (`GET app/` is `find`).

underscore.string's `classify` is not modelled. Every operation that uses it takes it as a parameter `classify: string -> string`, and every result is stated in terms of it.

In two places the code does something its comments and names do not suggest. The model follows the code in both.

- **The version test.** The comment at lib/utility/utils.js:21 speaks of an API version number (`v1`, `2`, `v2.1`). The regular expression `v?\d+([\.\d+])*` on line 22 is not anchored. So the test accepts every first segment that contains a decimal digit, including `ipv4` and `oauth2`. `ModelNames.VersionPatternMatches` and `ModelNames.DigitTestAcceptsMoreThanVersionMarkers` state this.
- **A custom verb map without the verb and without `GET`.** Here `name` starts as `undefined`, and the first `+=` turns it into the text `undefined`. So `GET app` yields `undefinedAll`, and only a call that appends nothing yields `undefined`. The model returns `Some("undefined" + tail)` in the first case and `None` in the second.

Leading-slash invariance does not hold for every path. It fails when the rest of the path starts with a second `/`. For example, `GET //x` is named `findX` while `GET /x` is named `findAll`, and the model names of `//x` and `/x` differ as well. The invariance lemmas therefore require that the rest does not start with `/`, and separate lemmas exhibit the difference.

## Model

| member | source | states |
|---|---|---|
| Strings.IndexOf | lib/utility/utils.js:118 | The result is absent exactly when the character does not occur; otherwise it is an occurrence with no earlier one. |
| Strings.IndexOfAfterPrefix | lib/utility/utils.js:118 | In `a + [c] + b` where `a` lacks `c`, the first `c` sits right after `a`. |
| Strings.HasChar | lib/utility/utils.js:117-119 | `hasChar` holds exactly when the character occurs in the string. |
| Strings.HasChars | lib/utility/utils.js:102-109 | `hasChars` holds exactly when some character of `chars` occurs in `str`. |
| Strings.Split | lib/utility/utils.js:20 | `split` returns at least one piece; no piece contains the separator; joining the pieces with the separator gives back the input. |
| Strings.SplitJoin | lib/utility/utils.js:53 | Splitting undoes joining for parts that do not contain the separator. |
| Strings.SplitCount | lib/utility/utils.js:20 | There is exactly one more piece than there are separators. |
| Strings.SplitCons | lib/utility/utils.js:20 | The first piece is the text before the first separator; the rest are the pieces of what follows it. |
| Strings.SplitLeadingSeparator | lib/utility/utils.js:53 | A leading separator contributes one empty piece in front of the pieces of the rest. |
| Strings.SplitSingle | lib/utility/utils.js:20 | A string without the separator is a single piece. |
| Strings.UpperChar | lib/utility/utils.js:62 | The result is never lower case; a lower-case ASCII letter moves to its upper-case letter; any other character is unchanged. |
| Strings.ToUpper | lib/utility/utils.js:62 | `toUpperCase` keeps the length and upper-cases each character in place. |
| Strings.Capitalize | lib/utility/utils.js:84 | `capitalize` keeps the length, upper-cases the first character and leaves the rest unchanged. |
| ModelNames.ModelSegments | lib/utility/utils.js:16-20 | The segments looked at are never empty, because `split` never is. |
| ModelNames.VersionPatternMatches | lib/utility/utils.js:22 | The unanchored version pattern matches somewhere in a segment exactly when the segment contains a digit. |
| ModelNames.DigitTestAcceptsMoreThanVersionMarkers | lib/utility/utils.js:21-22 | Every version marker passes the test, and so does `ipv4`, which is not a version marker. |
| ModelNames.ModelName | lib/utility/utils.js:15-26 | The source's version pattern decides which segment is classified. Because the pattern is unanchored, segment 1 is classified exactly when segment 0 contains a digit, and segment 0 otherwise. There is no name when segment 0 contains a digit and there is no segment 1. |
| ModelNames.ModelNameLeadingSlash | lib/utility/utils.js:17-19 | One leading `/` does not change the model name of a path that does not itself start with `/`. |
| ModelNames.ModelNameDoubleSlash | lib/utility/utils.js:17-20 | Only one `/` is removed: `//x` and `/x` get different model names whenever `classify` tells `""` from `x`. |
| ModelNames.ModelNameSkipsVersion | lib/utility/utils.js:20-23 | `/<version>/<rest>` is `classify(<rest>)` for every `/`-free `<rest>`. When `<rest>` contains no digit, this is also the model name of `<rest>` on its own. |
| ModelNames.ModelNameIgnoresTail | lib/utility/utils.js:20-25 | Segments after the second never change the model name. |
| PathVars.PathVarsBound | lib/utility/utils.js:34 | There are never more variables than `}` characters, and there are none when the url has no `{` or no `}`. |
| PathVars.ParsePathVars | lib/utility/utils.js:33-37 | No variable name contains a `}`, because a match ends at the first `}` after its `{`. |
| PathVars.NoTokenHasNoVars | lib/utility/utils.js:34 | A url in which no `{` is followed later by a `}` has no variables. |
| PathVars.Gaps | lib/utility/utils.js:34-36 | The scan's result carves the url into text and `{name}` tokens: each token starts at the first `{` after the previous one, ends at the first `}` after that, and no token follows the last. |
| PathVars.ScanFirstToken | lib/utility/utils.js:34-36 | A url starting with text free of `{` and then `{name}` scans to that name followed by the names of the rest. |
| PathVars.TokenizationDeterminesVars | lib/utility/utils.js:34-36 | Any such carving of the url lists exactly the names the scan returns. |
| PathVars.PathVarsCharacterised | lib/utility/utils.js:34-36 | A list of names is the result exactly when some carving of the url into text and those tokens exists. |
| PathVars.EmptyIffNoToken | lib/utility/utils.js:34 | The result is empty exactly when no `{` in the url is followed later by a `}`. |
| PathVars.PathVarsIdExample | lib/utility/utils.js:30-36 | `http://foo.com/bar/{id}`, the url the comment on `parsePathVars` names, has the single variable `id`. |
| PathVars.PathVarsInnerBraceExample | lib/utility/utils.js:34 | `{a{b}` has the single variable `a{b`, because the match starts at the first `{`. |
| PathVars.PathVarsNoneExample | lib/utility/utils.js:34 | `app` has no variables, and the result is the empty list. |
| PathVars.PathVarsReversedExample | lib/utility/utils.js:34 | `x}{y` has no variables. |
| PathVars.PathVarsPairExample | lib/utility/utils.js:34-36 | Every url of the form `g1{n1}g2{n2}` has the variables `n1`, `n2`, in that order. |
| MethodNames.NormalizeVerb | lib/utility/utils.js:62 | The normalised verb is never empty and holds no lower-case letter. |
| MethodNames.DropFirst | lib/utility/utils.js:65 | `splice(0, 1)` removes exactly the first element, if there is one. |
| MethodNames.Components | lib/utility/utils.js:53-69 | The remaining segments hold no `/`. There is one per `/` of the path, not counting a leading `/`. |
| MethodNames.ResolvePrefix | lib/utility/utils.js:72 | There is no prefix exactly when the verb has no non-empty entry and there is no `GET` entry. A non-empty entry of the verb wins, and otherwise the `GET` entry is used. |
| MethodNames.LiteralName | lib/utility/utils.js:84 | A literal holding `_`, `-` or `.` is passed to `classify`, and any other literal is capitalised. |
| MethodNames.MethodName | lib/utility/utils.js:51-94 | The name starts with the verb's entry when it is present and non-empty, else with the `GET` entry. With neither entry, the name exists exactly when something is appended, and then it starts with `undefined`. |
| MethodNames.AppendComponents | lib/utility/utils.js:80-87 | The loop reports "all path variables" exactly when every component starts with `{`. In that case the name is untouched; otherwise every literal's name has been appended in order. |
| MethodNames.ParseMethodName | lib/utility/utils.js:51-94 | The statement-by-statement method computes the same name as the functional definition. |
| MethodNames.NameAfterVariable | lib/utility/utils.js:83 | A component that starts with `{` leaves the name unchanged. |
| MethodNames.NameAfterLiteral | lib/utility/utils.js:83-86 | Any other component appends its name, turning a missing name into text starting with `undefined`. |
| MethodNames.PrefixStep | lib/utility/utils.js:81-86 | One more component extends the suffix by its name and keeps "all path variables" only if it is a path variable. |
| MethodNames.SuffixAppend | lib/utility/utils.js:81-87 | The suffix of two runs of components is the two suffixes concatenated. |
| MethodNames.MethodNameLeadingSlash | lib/utility/utils.js:64-66 | One leading `/` does not change the method name of a path that does not itself start with `/`. |
| MethodNames.DoubleSlashComponents | lib/utility/utils.js:53-69 | `//x` leaves the segment `x`, and `/x` leaves no segment. |
| MethodNames.DoubleSlashName | lib/utility/utils.js:64-69 | `GET //x` is named `find` followed by `x` capitalised, because the second `/` is kept. |
| MethodNames.SingleSlashName | lib/utility/utils.js:64-78 | `GET /x` is named `findAll`. |
| MethodNames.MethodNameDoubleSlash | lib/utility/utils.js:64-78 | For a plain segment `x`, `GET //x` and `GET /x` get the same name exactly when `x` capitalises to `All`. |
| MethodNames.DoubleSlashCollision | lib/utility/utils.js:64-78 | When `x` capitalises to `All`, `GET //x` and `GET /x` get the same name. |
| MethodNames.MethodNameVerbCase | lib/utility/utils.js:62 | Verbs with the same upper case give the same name, and an empty verb gives the name of `GET`. |
| MethodNames.CustomVerbMapReplacesDefault | lib/utility/utils.js:54-72 | A supplied map is not merged with the default: a verb it lacks takes the map's own `GET` entry, even when the default map knows the verb. |
| MethodNames.MissingPrefixName | lib/utility/utils.js:72-91 | With neither the verb nor `GET` in the map, the name is `undefined` followed by the tail when something is appended, and absent otherwise. |
| MethodNames.TailWithoutAppends | lib/utility/utils.js:75-91 | When nothing is appended, the tail is empty. |
| MethodNames.NoComponentsIff | lib/utility/utils.js:53-69 | No segment remains exactly when the path, after its one leading `/`, holds no further `/`. |
| MethodNames.NoComponentsName | lib/utility/utils.js:75-78 | With no segment left, the name is the prefix followed by `All`, except for `POST`, whose name is the bare prefix. |
| MethodNames.PlainLiteralName | lib/utility/utils.js:84 | A literal without `_`, `-` or `.` contributes its capitalised form. |
| MethodNames.SeparatedLiteralName | lib/utility/utils.js:84 | A literal holding `_`, `-` or `.` contributes `classify` of itself. |
| MethodNames.SinglePlainTail | lib/utility/utils.js:80-90 | A single plain literal gives its capitalised form and no `One`, whatever the verb. |
| MethodNames.InsertVariableKeepsAllVariables | lib/utility/utils.js:83-88 | Inserting a path variable anywhere keeps "all path variables" as it was. |
| MethodNames.InsertVariableKeepsSuffix | lib/utility/utils.js:83-86 | Inserting a path variable anywhere leaves the suffix as it was. |
| MethodNames.VariableSegmentIgnored | lib/utility/utils.js:80-90 | Among at least one other segment, a path variable contributes nothing to the name, wherever it stands. |
| MethodNames.LiteralSegmentAppended | lib/utility/utils.js:83-86 | A final literal appends its name after the names of the segments before it, and rules out `One`. |
| MethodNames.AllVariablesTail | lib/utility/utils.js:80-90 | When every remaining segment is a path variable, the tail is `One` for `GET` and empty for every other verb. |
| MethodNames.AllVariablesNoSuffix | lib/utility/utils.js:83 | Path variables alone contribute nothing. |
| MethodNames.ComponentsOfJoin | lib/utility/utils.js:53-69 | For a path without a leading `/`, the remaining segments are the pieces after the model segment. |
| MethodNames.DefaultPrefix | lib/utility/utils.js:54-72 | Each verb of the default map normalises to itself and resolves to its own entry. |
| MethodNameExamples.NameFromParts | lib/utility/utils.js:72-93 | A resolved prefix followed by the tail is the name. |
| MethodNameExamples.DefaultName | lib/utility/utils.js:54-93 | With the default map, the name of every path is the verb's entry followed by the tail of the path's remaining segments. |
| MethodNameExamples.BareModelNames | lib/utility/utils.js:43-44 | `GET app` is `findAll` and `POST app` is `create`, for every model segment. |
| MethodNameExamples.CustomGetIsListAll | lib/utility/utils.js:54-78 | With the map `{GET: list}`, `GET app` is `listAll`. |
| MethodNameExamples.EmptyVerbMapNames | lib/utility/utils.js:72-78 | With an empty map, `GET app` is `undefinedAll` and `POST app` has no name. |
| MethodNameExamples.TwoSegmentComponents | lib/utility/utils.js:53-69 | `m/s` leaves the one segment `s`. |
| MethodNameExamples.SingleVariableName | lib/utility/utils.js:80-90 | A model segment followed by one path variable gives the verb's entry, then `One` only for `GET`. |
| MethodNameExamples.GetVariableIsFindOne | lib/utility/utils.js:45 | `GET app/{id}` is `findOne`. |
| MethodNameExamples.PutVariableIsUpdate | lib/utility/utils.js:47 | `PUT app/{id}` is `update`. |
| MethodNameExamples.TrailingSlashName | lib/utility/utils.js:83-90 | `GET app/` is `find`: the empty trailing segment adds nothing but rules out `One`. |
| MethodNameExamples.PlainLiteralNames | lib/utility/utils.js:46 | `POST app/saveFromTiApp` is `create` followed by the capitalised literal. |
| MethodNameExamples.TwoLiteralSuffix | lib/utility/utils.js:81-87 | The suffix of `{x}/a/{y}/b` is the names of `a` and `b`, in order, and not all segments are variables. |
| MethodNameExamples.PlainThenPlainTail | lib/utility/utils.js:81-90 | Two plain literals among variables are capitalised and concatenated, with no `One`. |
| MethodNameExamples.FindModuleVerification | lib/utility/utils.js:48 | `GET app/{app_guid}/module/{module_guid}/verification` is `find` followed by the two capitalised literals. |
| MethodNameExamples.SeparatedThenPlainTail | lib/utility/utils.js:81-90 | A literal with a separator is classified and a plain one capitalised, in order. |
| MethodNameExamples.DeletePushDevicesUnsubscribe | lib/utility/utils.js:49 | `DELETE acs/{app_guid}/push_devices/{app_env}/unsubscribe` is `delete`, then `classify("push_devices")`, then `Unsubscribe`. |

## Left out

- underscore.string's `classify` is not part of this model. It is the parameter `classify` throughout. So the documented `PushDevices` holds only under the stated value of `classify("push_devices")`.
- `toUpperCase` and `capitalize` are modelled on ASCII letters only. Other Unicode case mappings are not modelled.
- The module's `require` and `exports` plumbing (lib/utility/utils.js:1-8) is not modelled; it holds no logic.
- A falsy verb (`undefined`, `null`, `''`) is modelled as the empty string. Verbs, paths and urls that are not strings are not modelled, and neither are verb-map values that are not strings.
- `parseModelName` on a versioned path without a second segment calls `classify(undefined)`. The model returns `None` there, because the behaviour of `classify` on `undefined` is not visible.
- `parsePathVars` is modelled by a scanner specific to its one pattern; no general regular-expression engine is modelled. Likewise the version test of `parseModelName` is an explicit digit predicate.
- Lookups of inherited object keys in the verb map are not modelled. An upper-cased verb cannot name an inherited property of a plain object, because those names all contain lower-case letters, so this does not change any result.
- ModelNames.ModelNameLeadingSlash: stated only for paths that do not start with `/`, because the invariance is false for them (see ModelNames.ModelNameDoubleSlash).
- MethodNames.MethodNameLeadingSlash: stated only for paths that do not start with `/`, because the invariance is false for them (see MethodNames.MethodNameDoubleSlash).
- MethodNameExamples.FindModuleVerification: stated for every path of the documented shape, rather than for the literal path, so the result is `find` followed by the capitalised literals.
- MethodNameExamples.DeletePushDevicesUnsubscribe: stated for every path of the documented shape, with the literal holding `_` left to `classify`.
- PathVars.PathVarsPairExample: stated for every url of the shape `g1{n1}g2{n2}`, rather than for one literal url.
