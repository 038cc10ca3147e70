# solrq query building, modelled in Dafny

This project models the core of `solrq`, a small library that builds
Apache Solr query strings from Python objects. The model covers both
layers of the library:

- **Values.** `Value` escapes the characters the query syntax reserves.
  An unsafe `timedelta` becomes Solr date-math text (`NOW+1DAYS+60SECONDS+3MILLISECONDS`),
  and an unsafe `datetime` becomes a quoted ISO text. `Range` looks its
  boundary token up in a ten-entry table and writes
  `<open><from> TO <to><close>`. `Proximity` writes `"<value>"~<distance>`.
- **Query trees.** The operator routines of `QOperator` are `and_`, `or_`,
  `not_` and `boost`. `Q` objects are leaves, implicit-operator nodes built
  from several keywords, or explicit-children nodes. The builders are
  `&`, `|`, `~` and `^`. `compile` puts every internal child in
  parentheses and never the root.

Modules, one per file:

| file | module | models |
|---|---|---|
| errors.dfy | `Errors` | the exceptions the library raises (`ValueError`, `TypeError`, `AttributeError`) as a `Result` type |
| decimal.dfy | `Decimal` | Python's `str(int)` and `format(n, '+d')`, with a reader that undoes both |
| escaping.dfy | `Escaping` | `Value.ESCAPE_RE` and `Value._escape`: a left-to-right scan with a lookbehind on the input |
| durations.dfy | `Durations` | normalised `timedelta`, the date-math text with its reader, and Python's `str(timedelta)` |
| values.dfy | `Values` | `Value.__init__`, `Value.__str__`, `Proximity` |
| ranges.dfy | `Ranges` | `Range.BOUNDARY_BRACKETS`, `Range.__init__` |
| operators.dfy | `Operators` | `QOperator.and_`, `or_`, `not_`, `boost` |
| query.dfy | `Query` | `Q.__init__`, `__and__`, `__or__`, `__invert__`, `__xor__`, `compile` |
| query_props.dfy | `QueryProperties` | which trees compile, and where compilation puts parentheses |
| example_texts.dfy | `ExampleTexts` | helpers for the examples: the decimal texts they mention and each example text as a concatenation of its parts |
| vectors.dfy | `TestVectors` | the concrete examples of the library's documentation and test suite |

Errors are values. Every operation that raises in the library returns an
`Err` with the exception's kind, and its contract states exactly when that
happens. Compiling an empty `Q()` fails when `compile` reads the missing
`field` attribute. The model returns `Err(AttributeError)` there rather
than requiring the caller to avoid it.

A `Range` is built the way the library builds it. Its text is formatted
once, when the range is constructed, and stored as the raw text of a
*safe* `Value`. So a range used as an end of another range keeps its text,
and only an explicit `safe=False` on the outer range gets it escaped.

Two behaviours follow the code exactly, even though they may surprise a
reader:

- **Date-math gets escaped.** `Range(td, td, safe=False)` first turns each
  duration into date-math and marks it safe. The `safe` override then marks
  it unsafe again, so `+` and `-` in the date-math text are escaped
  (`Ranges.UnsafeRangeEscapesDateMath`).
- **The lookbehind reads the input.** It looks at the input character
  before each match, not at the output. So a reserved character right after
  an input backslash is left bare: `\ ` escapes to `\\ `
  (`TestVectors.EscapeAfterBackslash`). A nested unsafe value escapes its
  inner value's text once more, by the same rule (`Values.NestedValue`,
  `TestVectors.NestedValueExample`).

The boost factor is checked when the boosted node is compiled, not when
`q ^ factor` is evaluated. The operator is a `functools.partial` that runs
only inside `compile`. The model follows this: `BoostQ` accepts any factor,
and `Compile` reports `TypeError` (`QueryProperties.BuildersCompile`).

## Model

| member | source | states |
|---|---|---|
| Escaping.Escape | src/solrq/__init__.py:96-102 | No contract of its own: the stateful scan `EscapeFrom` started outside a backslash. Its properties are `EscapeByLookbehind`, `EscapePointwise`, `EscapeLength` and `UnescapeEscape`. |
| Escaping.EscapeFrom | src/solrq/__init__.py:57 | No contract of its own: the scan that carries whether the previous input character was a backslash. Its properties are `EscapeFromAppend` and `EscapeSnoc`. |
| Values.Str | src/solrq/__init__.py:104-106 | No contract of its own: Python `str` of a raw object, recursing into a nested Value. Its properties are in `Values.NewValue` and `Values.NestedValue`. |
| Values.Render | src/solrq/__init__.py:104-106 | No contract of its own: `Value.__str__`, and for a proximity `Proximity.__str__` (lines 245-250). Its properties are in `Values.NewValue`, `Values.MakeProximity` and `Values.ProximityEscaping`. |
| Decimal.IntToString | src/solrq/__init__.py:106 | No contract of its own: Python `str(n)` for an int. Its properties are `Decimal.ReadIntToString` and `Decimal.DecimalTextsAreInjective`. |
| Decimal.SignedToString | src/solrq/__init__.py:58 | No contract of its own: the `{:+d}` field of the date-math format. Its properties are `Decimal.ReadSignedToString` and `Decimal.DecimalTextsAreInjective`. |
| Operators.Join | src/solrq/__init__.py:271 | No contract of its own: `sep.join(parts)`. Its property is `Operators.OccurrencesJoin`. |
| Operators.AndOp | src/solrq/__init__.py:261-271 | No contract of its own: `and_` joins its operands with ` AND `. Its properties are `Operators.JoinKeepsParentheses` and `QueryProperties.BuildersCompile`. |
| Operators.OrOp | src/solrq/__init__.py:273-283 | No contract of its own: `or_` joins its operands with ` OR `. Its properties are `Operators.JoinKeepsParentheses` and `QueryProperties.BuildersCompile`. |
| Operators.Apply | src/solrq/__init__.py:261-338 | No contract of its own: dispatches a node's operator. Its properties are `Operators.ApplyFailsIff` and `Operators.ApplyKeepsParentheses`. |
| Query.AndQ | src/solrq/__init__.py:412-426 | No contract of its own: `a & b` is a node over the two operands with `and_`. Its properties are in `QueryProperties.BuildersCompile` and `QueryProperties.BuildersCompilable`. |
| Query.OrQ | src/solrq/__init__.py:428-443 | No contract of its own: `a \| b` is a node over the two operands with `or_`. Its properties are in `QueryProperties.BuildersCompile` and `QueryProperties.BuildersCompilable`. |
| Query.InvertQ | src/solrq/__init__.py:445-464 | No contract of its own: `~a` is a node over the operand with `not_`. Its properties are in `QueryProperties.BuildersCompile` and `QueryProperties.BuildersCompilable`. |
| Query.BoostQ | src/solrq/__init__.py:466-484 | No contract of its own: `a ^ factor` is a node over the operand with `boost` bound to the factor, which is not checked yet. Its properties are in `QueryProperties.BuildersCompile` and `QueryProperties.BuildersCompilable`. |
| Query.Compile | src/solrq/__init__.py:486-517 | No contract of its own: `Q.compile`. Its properties are `QueryProperties.CompileSucceedsIff`, `CompileParenthesisFlag`, `CompileParentheses` and `RootIsNotParenthesised`. |
| Escaping.EscapeByLookbehind | src/solrq/__init__.py:96-102 | Testing each input position with the lookbehind pattern (a reserved character whose input predecessor is not a backslash) and writing a backslash before each match gives exactly the text of the stateful scan `Escape`; the output is as long as the input plus the number of matching positions. |
| Escaping.EscapeSnoc | src/solrq/__init__.py:57 | Appending one character to the input appends it to the output bare, or behind one backslash exactly when the pattern matches at its position. |
| Escaping.EscapePointwise | src/solrq/__init__.py:57 | Input character i appears in the output at offset `|Escape(s[..i])|`, preceded by an inserted backslash exactly when the pattern matches at i. |
| Escaping.EscapeFromAppend | src/solrq/__init__.py:102 | Escaping a concatenation escapes the second part knowing only whether the first part ended in a backslash. |
| Escaping.EscapeLength | src/solrq/__init__.py:96-102 | The escaped text is as long as the input plus the number of positions where the pattern matches. |
| Escaping.EscapesPositive | src/solrq/__init__.py:57 | The number of escaped positions is positive if and only if some position matches the pattern. |
| Escaping.EscapeUnchangedIff | src/solrq/__init__.py:96-102 | Escaping leaves a text unchanged if and only if no position matches the pattern. |
| Escaping.UnescapeEscape | src/solrq/__init__.py:96-102 | Escaping loses no information: the decoder recovers the input from the escaped text. |
| Escaping.EscapeIsInjective | src/solrq/__init__.py:96-102 | Distinct inputs escape to distinct texts. |
| Escaping.EscapeLastChar | src/solrq/__init__.py:102 | The escaped text ends with the input's last character, since a backslash is only ever inserted before a character. |
| Escaping.EscapeNotIdempotent | src/solrq/__init__.py:104-106 | If escaping changes a text, escaping the result makes it longer again: each inserted backslash is itself a match. |
| Decimal.NatToString | src/solrq/__init__.py:58 | A natural number's decimal text is non-empty, all digits, and starts with '0' only for zero. |
| Decimal.DigitsValueOfNatToString | src/solrq/__init__.py:58 | Reading back the digits written for n gives n. |
| Decimal.ReadIntToString | src/solrq/__init__.py:106 | Python's `str(n)` for an int is undone by the reader, whatever text that does not continue the number follows it. |
| Decimal.ReadSignedToString | src/solrq/__init__.py:58 | The always-signed `{:+d}` text is undone by a reader that requires the sign. |
| Decimal.DecimalTextsAreInjective | src/solrq/__init__.py:58 | Distinct integers have distinct texts under both writers. |
| Decimal.DecimalTextAlphabet | src/solrq/__init__.py:338 | Both writers use only digits and a sign character, so a number never adds a parenthesis to a query. |
| Durations.FromMicros | src/solrq/__init__.py:80-81 | Python's normalisation of a duration gives days of either sign, 0 ≤ seconds < 86400 and 0 ≤ microseconds < 10^6, and keeps the total length. |
| Durations.FromMicrosOfTotal | src/solrq/__init__.py:80-81 | A normalised duration is the normalisation of its own total length, so the normal form is unique. |
| Durations.ReadDateMathOfDateMath | src/solrq/__init__.py:84-88 | The date-math text reads back as the duration's days, its seconds and its microseconds truncated to whole milliseconds, each with its own sign. |
| Durations.DateMath | src/solrq/__init__.py:84-88 | The date-math text is exactly `NOW` if and only if the duration is zero; its read-back is `Durations.ReadDateMathOfDateMath`. |
| Durations.DateMathDenotesDuration | src/solrq/__init__.py:76-87 | The mixed-sign offsets add up to the duration rounded down (floor) to whole milliseconds. For a negative duration with a sub-millisecond part this is one millisecond further from zero: `timedelta(microseconds=-1)` gives `NOW-1DAYS+86399SECONDS+999MILLISECONDS`, which is -1 ms. |
| Values.NewValue | src/solrq/__init__.py:60-93 | A safe value keeps its raw object and renders `str(raw)` verbatim. An unsafe duration is replaced by its date-math text, marked safe. An unsafe datetime is replaced by `"<iso>Z"`, marked safe. Any other unsafe value keeps its raw object, stays unsafe and renders the escaped `str(raw)`. |
| Values.WithSafe | src/solrq/__init__.py:208-210 | Overriding the flag changes the flag only: raw object, kind and distance are kept. |
| Values.MakeProximity | src/solrq/__init__.py:240-250 | A proximity value renders its base value's text in quotes, then `~` and the distance in decimal; its raw object and flag are the base value's, so a duration or datetime is translated as `Value` translates it. |
| Values.NestedValue | src/solrq/__init__.py:104-106 | A value wrapping another value escapes the inner value's text once more if unsafe, and passes it through if safe. |
| Values.NestedUnsafeValueReEscapes | src/solrq/__init__.py:104-106 | Wrapping an unsafe value whose text escaping changed in another unsafe value lengthens the text again. |
| Values.RenderedTextRoundTrips | src/solrq/__init__.py:104-106 | An unsafe text value's rendering decodes back to the text, and a safe value built from any rendering renders it unchanged. |
| Values.ProximityEscaping | src/solrq/__init__.py:245-250 | A proximity value's own flag alone decides escaping: escaped when unsafe, even over a safe inner value; verbatim when safe. |
| Ranges.NamedBracketPairs | src/solrq/__init__.py:176-183 | The six named boundary kinds stand for exactly the four bracket pairs. |
| Ranges.BracketTokens | src/solrq/__init__.py:176-188 | The table accepts exactly ten tokens: the six names and the four bracket pairs. |
| Ranges.BracketLookups | src/solrq/__init__.py:176-188 | `inclusive`, `ii` and `[]` map to `[]`; `exclusive`, `ee` and `{}` to `{}`; `ei` and `{]` to `{]`; `ie` and `[}` to `[}`. |
| Ranges.BoundaryBracketsTable | src/solrq/__init__.py:176-188 | The ten tokens and their pairs as listed; every value is a two-character pair that maps to itself. |
| Ranges.Side | src/solrq/__init__.py:200-210 | With safe unset, a Value end is kept as it is and anything else becomes `Value(x, False)`. With safe given, a Value end keeps its raw object, kind and distance and takes that flag; a scalar becomes `Value(x, True)` under safe=True and `Value(x, False)` forced unsafe under safe=False. |
| Ranges.MakeRange | src/solrq/__init__.py:190-217 | The range fails with ValueError exactly when the token is not in the table. Otherwise it is a safe value whose text is the opening bracket, the from end, ` TO `, the to end and the closing bracket. |
| Ranges.DefaultRangeOfScalars | src/solrq/__init__.py:190-217 | With default arguments, a range of two scalars is their unsafe `Value` texts between square brackets. |
| Ranges.RangeOfScalarsMatchesRangeOfValues | src/solrq/__init__.py:200-205 | Passing scalars or the Values built from them gives the same range, with safe unset and with safe=True alike. |
| Ranges.SafeRangeIsVerbatim | src/solrq/__init__.py:207-217 | With safe=True both ends are written as `str(raw)`, so durations are not translated. |
| Ranges.UnsafeRangeEscapesDateMath | src/solrq/__init__.py:207-210 | With safe=False each duration end is translated to date-math and then escaped. |
| Ranges.SafeDurationForcedUnsafe | src/solrq/__init__.py:200-210 | A duration already wrapped as `Value(d, safe=True)` keeps the duration, so safe=False on the range escapes Python's `str` of the duration, not date-math. |
| Ranges.NestedRangeEnd | src/solrq/__init__.py:200-217 | A range used as an end keeps its text, unless the outer range says safe=False, which escapes it. |
| Operators.NotOp | src/solrq/__init__.py:285-306 | `not_` succeeds exactly on one operand, giving `!` and the operand; otherwise ValueError. |
| Operators.BoostOp | src/solrq/__init__.py:308-338 | `boost` checks arity first (ValueError) and then the factor (TypeError); a single operand with an int factor gives `operand^factor`. |
| Operators.ApplyFailsIff | src/solrq/__init__.py:261-338 | An operator routine succeeds exactly on the arities (and factor) it accepts; a wrong arity is ValueError, a bad factor TypeError. |
| Operators.OccurrencesJoin | src/solrq/__init__.py:271 | A joined text holds the parts' occurrences of a character plus the separator's occurrences once per gap. |
| Operators.JoinKeepsParentheses | src/solrq/__init__.py:261-283 | `and_` and `or_` add no parenthesis to their operands' texts. |
| Operators.UnaryKeepsParentheses | src/solrq/__init__.py:285-338 | `not_` and `boost` add no parenthesis to their operand's text. |
| Operators.ApplyKeepsParentheses | src/solrq/__init__.py:261-338 | No operator routine writes a parenthesis: the output's parentheses are the inputs'. |
| Query.AsQueryValue | src/solrq/__init__.py:394-397 | A keyword's value renders as the Value given, or, for a plain string, as that string escaped and unsafe; a scalar is wrapped as `Value(x)`. |
| Query.MakeQ | src/solrq/__init__.py:377-410 | Keywords together with children fail with ValueError, and only that does. One keyword gives a leaf. Several give a node over one leaf per keyword, in keyword order. Children alone give a node over them, and nothing gives the empty object. |
| Query.Collect | src/solrq/__init__.py:508-512 | The children's texts in order when all compile; otherwise the error of the first child that fails. |
| QueryProperties.CompileSucceedsIff | src/solrq/__init__.py:486-517 | Compilation succeeds if and only if the tree has no empty object, every node has children, and each operator accepts its arity and factor; the flag does not matter. |
| QueryProperties.CompileParenthesisFlag | src/solrq/__init__.py:514-515 | The flag wraps a compiled node in one pair of parentheses and leaves a leaf alone. |
| QueryProperties.CompileParentheses | src/solrq/__init__.py:486-517 | A compiled tree holds one `(` and one `)` per internal node, minus one for an unparenthesised root; all others come from the leaves' texts. |
| QueryProperties.RootIsNotParenthesised | src/solrq/__init__.py:502-517 | A node compiled as the root has one pair of parentheses fewer than compiled as a child. |
| QueryProperties.BuildersCompile | src/solrq/__init__.py:412-484 | `a & b`, `a \| b`, `~a` and `a ^ n` compile to the operator applied to the operands compiled as children; `a ^ x` with a non-number fails with TypeError at compile time. |
| QueryProperties.BuildersCompilable | src/solrq/__init__.py:412-484 | The builders produce compilable trees exactly from compilable operands, except that boosting by a non-number never compiles. |
| QueryProperties.ImplicitNodeCompile | src/solrq/__init__.py:399-406 | Several keywords compile to the operator applied to the `field:value` texts in keyword order, without parentheses. |
| QueryProperties.EmptyBlocksCompile | src/solrq/__init__.py:502-506 | A node with an empty object among its children cannot be compiled. |
| TestVectors.UnreservedTerm | src/solrq/__init__.py:502-506 | A leaf whose text has no reserved character compiles to `field:text`, with or without the parenthesis flag. |
| TestVectors.EscapeSpace | tests/test_squery.py:128 | `foo bar` escapes to `foo\ bar`. |
| TestVectors.EscapeQuotes | tests/test_squery.py:129 | `"foo bar"` escapes to `\"foo\ bar\"`. |
| TestVectors.SafeTextValue | tests/test_squery.py:131 | A safe text value is written verbatim, quotes included. |
| TestVectors.EscapeAfterBackslash | src/solrq/__init__.py:57 | A space right after an input backslash stays bare, while the backslash itself is escaped. |
| TestVectors.NestedValueExample | src/solrq/__init__.py:104-106 | A doubly wrapped unsafe `a b` renders `a\\ b`. |
| TestVectors.DurationValue | tests/test_squery.py:150-152 | One day, one minute and three milliseconds render `NOW+1DAYS+60SECONDS+3MILLISECONDS`. |
| TestVectors.DateMathMinusOneDay | tests/test_squery.py:155-157 | Minus one day renders `NOW-1DAYS+0SECONDS+0MILLISECONDS`. |
| TestVectors.ZeroDuration | src/solrq/__init__.py:88 | The zero duration renders `NOW`. |
| TestVectors.SafeDuration | tests/test_squery.py:161-162 | A safe one-day duration renders Python's `1 day, 0:00:00`. |
| TestVectors.MixedSignNormalisation | src/solrq/__init__.py:80-81 | Minus two days and two hours normalise to minus three days plus 79200 seconds. |
| TestVectors.MixedSignDateMath | src/solrq/__init__.py:80-81 | That duration renders `NOW-3DAYS+79200SECONDS+0MILLISECONDS`. |
| TestVectors.NegativeMicrosecondNormalisation | src/solrq/__init__.py:76-81 | `timedelta(microseconds=-1)` is stored as minus one day, 86399 seconds and 999999 microseconds. |
| TestVectors.NegativeMicrosecondDateMath | src/solrq/__init__.py:84-88 | That duration renders `NOW-1DAYS+86399SECONDS+999MILLISECONDS`. |
| TestVectors.NegativeMicrosecondRoundsDown | src/solrq/__init__.py:84-88 | That text denotes one millisecond before now, so the sub-millisecond duration is rounded down rather than towards zero. |
| TestVectors.RangeInclusive | tests/test_squery.py:198 | `Range(0, 1, boundaries='inclusive')` renders `[0 TO 1]`. |
| TestVectors.RangeExclusive | tests/test_squery.py:199 | `Range(0, 1, boundaries='exclusive')` renders `{0 TO 1}`. |
| TestVectors.RangeExclusiveInclusive | tests/test_squery.py:203 | `ei` renders `{0 TO 1]`. |
| TestVectors.RangeInclusiveExclusive | tests/test_squery.py:204 | `ie` renders `[0 TO 1}`. |
| TestVectors.RangeBracketToken | tests/test_squery.py:209 | The token `[}` renders `[0 TO 1}`. |
| TestVectors.RangeUnknownBoundaries | tests/test_squery.py:190-191 | The token `<>` fails with ValueError. |
| TestVectors.RangeArbitraryBoundaries | tests/test_squery.py:193-194 | The token `anything` fails with ValueError. |
| TestVectors.RangeOfWildcards | tests/test_squery.py:166 | `Range(ANY, ANY)` renders `[* TO *]`. |
| TestVectors.UnsafeRangeOfStars | tests/test_squery.py:168 | `Range('*', '*', safe=False)` renders `[\* TO \*]`. |
| TestVectors.MinusTwoDaysOneMinute | tests/test_squery.py:171 | Minus two days and one minute normalise to minus three days plus 86340 seconds. |
| TestVectors.DurationRange | tests/test_squery.py:174-178 | The range of those durations is their two date-math texts in square brackets. |
| TestVectors.SafeDurationRange | tests/test_squery.py:182-186 | With safe=True the range is the durations' Python texts in square brackets. |
| TestVectors.ProximityUnsafe | tests/test_squery.py:219 | `Proximity("foo bar", 12)` renders `"foo\ bar"~12`. |
| TestVectors.ProximitySafe | tests/test_squery.py:221 | With safe=True it renders `"foo bar"~12`. |
| TestVectors.ProximityOfSafeValue | tests/test_squery.py:224-226 | A safe Proximity over a safe Value renders `"foo bar"~12`. |
| TestVectors.NotOfTwo | tests/test_squery.py:106-108 | `not_` of two operands fails with ValueError. |
| TestVectors.BoostOfTwo | tests/test_squery.py:111-113 | `boost` of two operands fails with ValueError. |
| TestVectors.BoostByNonNumber | tests/test_squery.py:115-116 | `boost` by a non-number fails with TypeError. |
| TestVectors.ChildrenAndKeywords | tests/test_squery.py:101-103 | Children together with a keyword fail with ValueError. |
| TestVectors.KeywordLeaf | tests/test_squery.py:11-13 | `Q(foo="bar")` is the leaf for `foo` with `Value("bar")`. |
| TestVectors.FooBar | tests/test_squery.py:11-13 | It compiles to `foo:bar`. |
| TestVectors.WildcardField | tests/test_squery.py:96-98 | `Q(**{"*_t": "text"})` compiles to `*_t:text`. |
| TestVectors.BackslashLeaf | tests/test_squery.py:229-230 | `Q(foo="\\")` compiles to `foo:\\`. |
| TestVectors.AndOfLeaves | tests/test_squery.py:26-28 | `Q(foo="bar") & Q(bar="foo")` compiles to `foo:bar AND bar:foo`. |
| TestVectors.OrOfLeaves | tests/test_squery.py:31-33 | `Q(foo="bar") \| Q(bar="foo")` compiles to `foo:bar OR bar:foo`. |
| TestVectors.NotOfLeaf | tests/test_squery.py:86-88 | `~Q(foo="bar")` compiles to `!foo:bar`. |
| TestVectors.BoostOfLeaf | tests/test_squery.py:46-48 | `Q(foo="bar") ^ 2` compiles to `foo:bar^2`. |
| TestVectors.NotOfAnd | tests/test_squery.py:91-93 | `~(Q(foo="bar") & Q(bar="foo"))` compiles to `!(foo:bar AND bar:foo)`. |
| TestVectors.OrOfBoosts | tests/test_squery.py:54-55 | `Q(foo="bar") ^ 3 \| Q(bar="baz") ^ 4` compiles to `(foo:bar^3) OR (bar:baz^4)`. |
| TestVectors.BoostOfOr | tests/test_squery.py:58-59 | `(Q(foo="bar") \| Q(bar="baz")) ^ 3` compiles to `(foo:bar OR bar:baz)^3`. |
| TestVectors.ParenthesisExample | tests/test_squery.py:62-63 | `(Q(a="b") & Q(c="d")) ^ 1 \| Q(e="f") ^ 2` compiles to `((a:b AND c:d)^1) OR (e:f^2)`. |
| TestVectors.ImplicitAnd | tests/test_squery.py:16-23 | `Q(foo="bar", bar="foo")` in that keyword order compiles to `foo:bar AND bar:foo`. |
| TestVectors.ImplicitOr | tests/test_squery.py:36-43 | With `op=QOperator.or_` it compiles to `foo:bar OR bar:foo`. |

## Left out

- `datetime` formatting (`isoformat`, `strftime`, time zones) is not modelled. A timestamp is a parameter: the ISO text the library would produce, and its Python `str`.
- Floats are not modelled: float raw values, float boost factors (`^ 2.0`) and their Python text. A boost factor is an int or a non-numeric object.
- `bool` is not modelled: it is an `int` subclass in Python, so `True` passes the factor check and prints as `True`.
- Duck-typed raw objects with their own `__str__`, and other raw types, are not modelled; raw objects are texts, ints, durations, datetimes and Values.
- `constant_score`: the test suite calls it, but this version of the source does not define it.
- `__repr__`, the version constants and packaging are not modelled; they do not affect query text.
- Mutation is not modelled. `Range` with an explicit `safe` sets the flag on the caller's own `Value` objects. The model computes the flag inside the range and leaves the caller's values unchanged.
- Keyword order is not modelled. Several keywords arrive in the order the caller's mapping yields them, a sequence here; the library's tests treat that order as unspecified.
- Query.Compile: compiling an empty `Q()`, or a node whose children list is empty, returns `Err(AttributeError)`. The library raises the same exception when it reads the missing `field` attribute, but not as a designed error path.
- Durations.DurationText: Python's `str(timedelta)` is given a definition but carries no contract of its own. It is used only for safe durations, and its output is stated for the concrete examples in `TestVectors`.
