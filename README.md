# tdom conditional rendering, modelled in Dafny

This project models the value-resolution layer of tdom's conditional
rendering, `tdom/conditional.py`:

- `_resolve_value` treats a zero-argument callable as a deferred value and
  invokes it. It returns any other value unchanged.
- `_to_markup` turns a resolved value into trusted markup. `None` becomes
  empty markup. An object with an `__html__` hook contributes that hook's
  output without escaping. Anything else is stringified and HTML-escaped.
- `Conditions` is a mutable, fluent builder. `when` appends a
  `(condition, value)` branch and `default` sets the fallback. `_resolve`
  picks the first branch whose condition holds, else the default if one was
  set, else `None`. The `__html__` hook renders that result as markup.
- `cond` is the stateless form. It returns the raw resolved payload.

How the model encodes these:

- A value is `Plain(data)` or `Thunk(id, result)`. A resolution returns its
  value together with the log of thunk ids it invoked, so laziness is a
  statement about that log.
- The `_UNSET` sentinel is `Option.None`. A default that was given is
  `Some(v)`, even when `v` is `None` or `False`.
- `Conditions` is a class with a `cases` sequence and a `fallback` option.
  `When` and `Default` change them in place. `Resolve` and `Cond` are
  early-exit loops, each proved equal to the recursive first-match function
  `Select` (through `Resolution`).
- markupsafe's `escape` is modelled as a per-character function `Escape`
  (module `Escaping`). Its inverse `Unescape` shows that escaping loses no
  text.

`Conditions.__html__` itself passes the resolved value through `_to_markup`
(tdom/conditional.py:80-81), and `Conditions.Html` does the same.

Files:

- `escaping.dfy`: the escape function and its lemmas.
- `conditional.dfy`: the data model, `ResolveValue`, `ToMarkup`, the
  first-match specification, the `Conditions` class and `Cond`.
- `conditional_tests.dfy`: the behaviour the repository's tests pin down,
  derived from the contracts of the builder's methods.

## Model

| member | source | states |
|---|---|---|
| `Escaping.EscapeChar` | tdom/conditional.py:25 | a metacharacter becomes a reference starting with `&`; any other character is kept; the output holds no raw `<`, `>` or quote |
| `Escaping.Escape` | tdom/conditional.py:25 | escaped text holds no raw `<`, `>`, `"` or `'` and is never shorter than the input |
| `Escaping.EscapeRoundTrip` | tdom/conditional.py:25 | unescaping escaped text gives back the original text exactly |
| `Escaping.EscapeLengthens` | tdom/conditional.py:25 | escaping keeps the length exactly when the text holds no metacharacter |
| `Escaping.EscapeFixesExactlyPlainText` | tdom/conditional.py:25 | escaping leaves text unchanged if and only if it holds no metacharacter |
| `Escaping.EscapeConcat` | tdom/conditional.py:25 | escaping a concatenation is the concatenation of the escaped parts |
| `Escaping.EscapeBoldTag` | tests/conditional_test.py:93-95 | `<b>bold</b>` escapes to `&lt;b&gt;bold&lt;/b&gt;` |
| `Conditional.ResolveValue` | tdom/conditional.py:14-15 | a thunk yields its result and is invoked once; plain data comes back unchanged and nothing is invoked |
| `Conditional.ToMarkup` | tdom/conditional.py:18-25 | `None` gives empty markup; a hook's output passes through unescaped; any other value gives text with no raw tag or quote character that unescapes to its `str` text |
| `Conditional.Stringify` | tdom/conditional.py:25 | `str` of None, booleans, integers and strings; the `HasHtml` arm returns the hook's text as a stand-in that `ToMarkup` never stringifies; the text of a boolean or an integer is non-empty and holds no HTML metacharacter, which `ScalarsRenderAsText` uses to show it renders unescaped |
| `Conditional.ScalarsRenderAsText` | tdom/conditional.py:24-25 | booleans and integers render as their `str` text, so a resolved `False` renders as `False`, not as nothing |
| `Conditional.Select` | tdom/conditional.py:72-78 | the pick is the default option or the value of some branch whose condition holds, and it is the default option when no condition holds; `SelectIsFirstTruthy` states that it is exactly the first such branch |
| `Conditional.FirstTruthy` | tdom/conditional.py:73-75 | the index returned is that of the first branch whose condition holds, or the number of branches when none holds |
| `Conditional.Resolution` | tdom/conditional.py:72-78 | at most one thunk is invoked, once, and it is the thunk of the selected branch or of the selected default; nothing is invoked when a plain value or no value is selected |
| `Conditional.SelectIsFirstTruthy` | tdom/conditional.py:72-78 | the recursive scan selects the branch at the first truthy index, and the default (given or not) when no condition holds |
| `Conditional.FirstTruthyBranchWins` | tdom/conditional.py:73-75 | resolution gives the resolved value of the first matching branch, however many later branches also match |
| `Conditional.NoMatchUsesDefault` | tdom/conditional.py:76-77 | with no match, a given default is resolved and returned exactly, including `None` and `False` |
| `Conditional.NoMatchNoDefaultIsEmpty` | tdom/conditional.py:78 | with no match and no default, the result is `None`, nothing is invoked and the markup is empty; this includes zero branches |
| `Conditional.BranchThunkInvokedIffSelected` | tdom/conditional.py:73-75 | with distinct thunks, a branch's thunk is invoked if and only if that branch is the first match |
| `Conditional.DefaultThunkInvokedIffNoMatch` | tdom/conditional.py:76-77 | with distinct thunks, the default's thunk is invoked if and only if no branch matches |
| `Conditional.SelectAfterWhen` | tdom/conditional.py:62-65 | appending a branch changes nothing once an earlier branch matches; otherwise the new branch is chosen when it matches and the default is chosen when it does not |
| `Conditional.Conditions.constructor` | tdom/conditional.py:58-60 | a new builder has no branches and no default |
| `Conditional.Conditions.When` | tdom/conditional.py:62-65 | appends exactly one `(condition, value)` branch at the end, leaves the default unchanged and returns the same builder |
| `Conditional.Conditions.Default` | tdom/conditional.py:67-70 | overwrites the default with `Some(value)`, so the default is set even for `None` and the last call wins; leaves the branches unchanged and returns the same builder |
| `Conditional.Conditions.Resolve` | tdom/conditional.py:72-78 | the in-order early-exit scan gives the first-match resolution of the current branches and default, and changes nothing |
| `Conditional.Conditions.Html` | tdom/conditional.py:80-81 | the `__html__` hook gives the markup of the resolved value and invokes exactly the thunks the resolution invokes |
| `Conditional.Cond` | tdom/conditional.py:84-110 | the loop over the pairs gives the first-match resolution of the pairs and the optional default |
| `Conditional.BuildConditions` | tdom/conditional.py:62-70 | one `When` per pair in order, then `Default` when a default is given, leaves a fresh builder holding exactly those pairs and that default |
| `Conditional.CondAgreesWithConditions` | tdom/conditional.py:105-110 | `cond(pairs, default=d)` gives the same value and invokes the same thunks as the equivalent builder's `_resolve` |
| `Conditional.ResolveTwice` | tdom/conditional.py:72-78 | resolving the same builder twice gives the same result |
| `ConditionalTests.FirstTruthyWins` | tests/conditional_test.py:14-16 | two matching branches render the first |
| `ConditionalTests.SkipsFalsy` | tests/conditional_test.py:19-21 | a false branch is skipped in favour of the next matching one |
| `ConditionalTests.EmptyRendersEmpty` | tests/conditional_test.py:34-36 | a builder with no branches and no default renders as empty markup |
| `ConditionalTests.ExplicitNoneDefaultRendersEmpty` | tests/conditional_test.py:292-296 | an explicit `None` default renders as empty markup |
| `ConditionalTests.LazyBranchCalledOnMatch` | tests/conditional_test.py:44-52 | the matching branch's thunk is invoked once; the scenario extends that test with a skipped lazy branch and a lazy default (as in lines 55-63 and 77-85), neither of which is invoked |
| `ConditionalTests.LazyDefaultNotCalledWhenMatched` | tests/conditional_test.py:77-85 | a lazy default is not invoked when a branch matches |
| `ConditionalTests.PlainStringEscaped` | tests/conditional_test.py:93-95 | a plain string branch renders escaped |
| `ConditionalTests.MarkupPassedThrough` | tests/conditional_test.py:98-101 | trusted markup renders unchanged |
| `ConditionalTests.CondFalseDefault` | tests/conditional_test.py:304-306 | `cond` returns an explicit `False` default as `False` |
| `ConditionalTests.CondEmptyReturnsNone` | tests/conditional_test.py:192-194 | `cond()` with no pairs and no default returns `None` |

## Left out

- Python's `callable()` duck typing is replaced by the explicit `Thunk` variant. The model does not cover a data value that happens to be callable.
- A thunk always yields the same `result`. Side effects that could make a re-invocation return something else are not modelled; the thunk log records each invocation instead.
- Exceptions raised by a thunk or an `__html__` hook are not modelled. They only propagate.
- Conditions are `bool`, as annotated. Python's truthiness of non-boolean conditions is not modelled.
- The internals of markupsafe's `escape` and `Markup` are not part of this model. `Escape` replaces `&`, `<`, `>`, `"` and `'`. It uses the reference spellings `&#34;` and `&#39;` for the quotes, which the lemmas do not rely on.
- `HasHTMLDunder` and the node tree of the `html` template engine are not part of this model. An object with an `__html__` hook is the `HasHtml` variant, carrying the string its hook returns. Effects of the hook itself, such as a nested `Conditions` invoking its selected thunk, are not in the log.
- `str()` is modelled for `None`, booleans, integers and strings only. The `HasHtml` arm of `Stringify` returns the hook's text as a stand-in, which `ToMarkup` never stringifies; `str` of a hooked object (for example a `Conditions`, which gives Python's default object text) is not modelled. Other Python objects (floats, containers, arbitrary instances) are not modelled either.
- `Self` return typing and `__slots__` have no counterpart. `When` and `Default` return the same instance instead.
- The variadic `*pairs` of `cond` is a sequence of `Case` values. The `default` keyword argument is an `Option`.
- tests/verification_test.py exercises template parsing and attribute rendering outside this layer. It is not modelled.
