/** Concrete inputs and outputs taken from the library's documentation and
    test suite (tests/test_squery.py), stated against the model. Each
    example is built from smaller facts so that no proof has to evaluate a
    whole query text at once. */
module TestVectors {
  import opened Errors
  import opened Decimal
  import opened Escaping
  import opened Durations
  import opened Values
  import opened Ranges
  import opened Operators
  import opened Query
  import opened QueryProperties
  import opened ExampleTexts

  /** `Value(s)` for a string s. */
  function V(s: string): Value {
    NewValue(Raw(Text(s)), false)
  }

  /** `Q(field=s)` for a string s. */
  function Term(field: string, s: string): Q {
    Leaf(field, AsQueryValue(Raw(Text(s))))
  }

  /** `ANY`: the safe wildcard value. */
  const Any: Value := NewValue(Raw(Text("*")), true)

  /** A text in which no character is reserved. */
  predicate Unreserved(s: string) {
    forall i :: 0 <= i < |s| ==> !IsReserved(s[i])
  }

  /** A term whose text has no reserved character compiles to `field:text`. */
  lemma UnreservedTerm(field: string, s: string, parens: bool)
    requires Unreserved(s)
    ensures Compile(Term(field, s), parens) == Ok(field + ":" + s)
  {
    EscapeUnchangedIff(s);
  }

  // Escaping (tests/test_squery.py: test_value and the docstrings).

  lemma EscapeSpace()
    ensures Escape("foo bar") == "foo\\ bar"
  {
  }

  lemma EscapeQuotes()
    ensures Escape("\"foo bar\"") == "\\\"foo\\ bar\\\""
  {
    EscapeQuotesSplit();
    EscapeFromAppend("\"foo", " bar\"", false);
    EscapeQuotesLeft();
    EscapeQuotesRight();
    EscapeQuotesText();
  }

  lemma EscapeQuotesLeft()
    ensures Escape("\"foo") == "\\\"foo"
  {
  }

  lemma EscapeQuotesRight()
    ensures EscapeFrom(" bar\"", false) == "\\ bar\\\""
  {
  }

  lemma EscapeBackslash()
    ensures Escape("\\") == "\\\\"
  {
  }

  /** The space follows an input backslash, so it stays bare. */
  lemma EscapeAfterBackslash()
    ensures Escape("\\ ") == "\\\\ "
  {
  }

  lemma UnsafeTextValue()
    ensures Render(V("foo bar")) == "foo\\ bar"
  {
    EscapeSpace();
  }

  lemma SafeTextValue()
    ensures Render(NewValue(Raw(Text("\"foo bar\"")), true)) == "\"foo bar\""
  {
  }

  lemma IntegerValue()
    ensures Render(NewValue(Raw(Integer(1)), false)) == "1"
  {
  }

  /** A nested unsafe value escapes the backslash its inner value inserted,
      and the space behind that backslash stays bare. */
  lemma NestedValueExample()
    ensures Render(NewValue(Val(V("a b")), false)) == "a\\\\ b"
  {
    NestedValue(V("a b"));
    EscapeSpaceAB();
    EscapeEscapedAB();
  }

  lemma EscapeSpaceAB()
    ensures Render(V("a b")) == "a\\ b"
  {
  }

  lemma EscapeEscapedAB()
    ensures Escape("a\\ b") == "a\\\\ b"
  {
  }

  // Durations.

  /** A nonzero duration's date-math from the signed texts of its parts. */
  lemma DateMathOfParts(d: TimeDelta, days: string, seconds: string, millis: string)
    requires !IsZero(d)
    requires SignedToString(d.days) == days && SignedToString(d.seconds) == seconds
    requires SignedToString(d.micros / 1000) == millis
    ensures DateMath(d) == "NOW" + days + "DAYS" + seconds + "SECONDS" + millis + "MILLISECONDS"
  {
  }

  lemma DateMathDaysMinutesMillis()
    ensures DateMath(Duration(1, 60, 3000)) == "NOW+1DAYS+60SECONDS+3MILLISECONDS"
  {
    SignedTexts();
    DateMathOfParts(Duration(1, 60, 3000), "+1", "+60", "+3");
    DateMathDaysMinutesMillisText();
  }

  /** `Value(timedelta(days=1, minutes=1, milliseconds=3))`. */
  lemma DurationValue()
    ensures Render(NewValue(Raw(Delta(Duration(1, 60, 3000))), false)) == "NOW+1DAYS+60SECONDS+3MILLISECONDS"
  {
    DateMathDaysMinutesMillis();
  }

  lemma DateMathMinusOneDay()
    ensures DateMath(Duration(-1, 0, 0)) == "NOW-1DAYS+0SECONDS+0MILLISECONDS"
  {
    SignedTexts();
    DateMathOfParts(Duration(-1, 0, 0), "-1", "+0", "+0");
    DateMathMinusOneDayText();
  }

  lemma ZeroDuration()
    ensures Render(NewValue(Raw(Delta(Duration(0, 0, 0))), false)) == "NOW"
  {
  }

  /** A duration marked safe is neither translated nor escaped. */
  lemma SafeDuration()
    ensures Render(NewValue(Raw(Delta(Duration(1, 0, 0))), true)) == "1 day, 0:00:00"
  {
    OneDayText();
  }

  lemma OneDayText()
    ensures DurationText(Duration(1, 0, 0)) == "1 day, 0:00:00"
  {
    IntTexts();
    DurationTexts();
  }

  /** `-timedelta(days=2, hours=2)` normalises to minus three days plus
      79200 seconds. */
  lemma MixedSignNormalisation()
    ensures FromMicros(-(2 * 86400 + 7200) * 1000000) == Duration(-3, 79200, 0)
  {
  }

  /** The date-math text keeps the mixed signs of the normalised form. */
  lemma MixedSignDateMath()
    ensures DateMath(Duration(-3, 79200, 0)) == "NOW-3DAYS+79200SECONDS+0MILLISECONDS"
  {
    SignedTexts();
    DateMathOfParts(Duration(-3, 79200, 0), "-3", "+79200", "+0");
    MixedSignDateMathText();
  }

  /** `timedelta(microseconds=-1)` normalises to minus one day plus
      86399.999999 seconds. */
  lemma NegativeMicrosecondNormalisation()
    ensures FromMicros(-1) == Duration(-1, 86399, 999999)
  {
  }

  /** Its date-math keeps the sub-second part only to whole milliseconds. */
  lemma NegativeMicrosecondDateMath()
    ensures DateMath(Duration(-1, 86399, 999999)) == "NOW-1DAYS+86399SECONDS+999MILLISECONDS"
  {
    SignedTexts();
    NegativeMicrosecondSigned();
    NegativeMicrosecondText();
    DateMathOfParts(Duration(-1, 86399, 999999), "-1", "+86399", "+999");
  }

  /** That text denotes one millisecond before now: the duration is rounded
      down, not towards zero. */
  lemma NegativeMicrosecondRoundsDown()
    ensures var o := ReadDateMath(DateMath(Duration(-1, 86399, 999999)));
            o.Some? && o.value.0 * 86400000 + o.value.1 * 1000 + o.value.2 == -1
  {
    DateMathDenotesDuration(Duration(-1, 86399, 999999));
  }

  // Ranges.

  /** `Range(0, 1, boundaries=...)` for the bracket token b. */
  function ZeroToOne(b: string): Result<Value> {
    MakeRange(Raw(Integer(0)), Raw(Integer(1)), None, b)
  }

  lemma ZeroOneSides()
    ensures Render(Side(Raw(Integer(0)), None)) == "0"
    ensures Render(Side(Raw(Integer(1)), None)) == "1"
  {
  }

  /** The ends of `Range(0, 1, ...)` between the brackets of b. */
  lemma ZeroToOneText(b: string)
    requires b in BoundaryBrackets
    ensures ZeroToOne(b).Ok?
    ensures Render(ZeroToOne(b).value) == [BoundaryBrackets[b][0]] + "0" + " TO " + "1" + [BoundaryBrackets[b][1]]
  {
    ZeroOneSides();
  }

  /** The text of `Range(0, 1)` between a given pair of brackets. */
  lemma Bracketed(open: char, close: char)
    ensures [open] + "0" + " TO " + "1" + [close] == [open, '0', ' ', 'T', 'O', ' ', '1', close]
  {
  }

  lemma RangeInclusive()
    ensures Render(ZeroToOne("inclusive").value) == "[0 TO 1]"
  {
    BracketLookups();
    ZeroToOneText("inclusive");
    Bracketed('[', ']');
  }

  lemma RangeExclusive()
    ensures Render(ZeroToOne("exclusive").value) == "{0 TO 1}"
  {
    BracketLookups();
    ZeroToOneText("exclusive");
    Bracketed('{', '}');
  }

  lemma RangeExclusiveInclusive()
    ensures Render(ZeroToOne("ei").value) == "{0 TO 1]"
  {
    BracketLookups();
    ZeroToOneText("ei");
    Bracketed('{', ']');
  }

  lemma RangeInclusiveExclusive()
    ensures Render(ZeroToOne("ie").value) == "[0 TO 1}"
  {
    BracketLookups();
    ZeroToOneText("ie");
    Bracketed('[', '}');
  }

  /** A bracket pair names itself. */
  lemma RangeBracketToken()
    ensures ZeroToOne("[}").Ok? && Render(ZeroToOne("[}").value) == "[0 TO 1}"
  {
    BracketLookups();
    ZeroToOneText("[}");
    Bracketed('[', '}');
  }

  lemma RangeUnknownBoundaries()
    ensures ZeroToOne("<>") == Err(ValueError)
  {
    NotABracketToken();
  }

  lemma RangeArbitraryBoundaries()
    ensures ZeroToOne("anything") == Err(ValueError)
  {
    NamedBracketPairs();
    assert "anything" !in NamedBoundaries;
    assert "anything" !in NamedBoundaries.Values;
  }

  lemma NotABracketToken()
    ensures "<>" !in BoundaryBrackets
  {
    NamedBracketPairs();
    assert "<>" !in NamedBoundaries;
    assert "<>" !in NamedBoundaries.Values;
  }

  lemma StarSides()
    ensures Render(Side(Val(Any), None)) == "*"
    ensures Render(Side(Raw(Text("*")), Some(false))) == "\\*"
  {
  }

  /** `Range(ANY, ANY)`. */
  lemma RangeOfWildcards()
    ensures Render(MakeRange(Val(Any), Val(Any), None, "inclusive").value) == "[* TO *]"
  {
    BracketLookups();
    StarSides();
  }

  /** `Range('*', '*', safe=False)`: each end is escaped. */
  lemma UnsafeRangeOfStars()
    ensures Render(MakeRange(Raw(Text("*")), Raw(Text("*")), Some(false), "inclusive").value) == "[\\* TO \\*]"
  {
    BracketLookups();
    StarSides();
  }

  /** `-timedelta(days=2, minutes=1)` normalises to minus three days plus
      86340 seconds. */
  lemma MinusTwoDaysOneMinute()
    ensures FromMicros(-(2 * 86400 + 60) * 1000000) == Duration(-3, 86340, 0)
  {
  }

  lemma DateMathMinusTwoDaysOneMinute()
    ensures DateMath(Duration(-3, 86340, 0)) == "NOW-3DAYS+86340SECONDS+0MILLISECONDS"
  {
    SignedTexts();
    DateMathOfParts(Duration(-3, 86340, 0), "-3", "+86340", "+0");
    DateMathMinusTwoDaysOneMinuteText();
  }

  lemma DateMathTwoDaysOneMinute()
    ensures DateMath(Duration(2, 60, 0)) == "NOW+2DAYS+60SECONDS+0MILLISECONDS"
  {
    SignedTexts();
    DateMathOfParts(Duration(2, 60, 0), "+2", "+60", "+0");
    DateMathTwoDaysOneMinuteText();
  }

  /** `Range(td_from, td_to)` with `td_from = -timedelta(days=2, minutes=1)`
      (normalised to minus three days plus 86340 seconds) and
      `td_to = timedelta(days=2, minutes=1)`. */
  lemma DurationRange()
    ensures Render(MakeRange(Raw(Delta(Duration(-3, 86340, 0))), Raw(Delta(Duration(2, 60, 0))), None, "inclusive").value)
            == "[" + "NOW-3DAYS+86340SECONDS+0MILLISECONDS" + " TO " + "NOW+2DAYS+60SECONDS+0MILLISECONDS" + "]"
  {
    DefaultRangeOfScalars(Delta(Duration(-3, 86340, 0)), Delta(Duration(2, 60, 0)));
    DateMathMinusTwoDaysOneMinute();
    DateMathTwoDaysOneMinute();
  }

  lemma MinusTwoDaysOneMinuteText()
    ensures DurationText(Duration(-3, 86340, 0)) == "-3 days, 23:59:00"
  {
    assert IntToString(-3) == "-3";
    assert IntToString(86340 / 3600) == "23";
    assert ZeroPad(86340 / 60 % 60, 2) == "59";
    IntTexts();
    DurationTexts();
  }

  lemma TwoDaysOneMinuteText()
    ensures DurationText(Duration(2, 60, 0)) == "2 days, 0:01:00"
  {
  }

  lemma SafeInclusiveRange(a: Scalar, b: Scalar)
    ensures MakeRange(Raw(a), Raw(b), Some(true), "inclusive").Ok?
    ensures Render(MakeRange(Raw(a), Raw(b), Some(true), "inclusive").value) == "[" + Str(Raw(a)) + " TO " + Str(Raw(b)) + "]"
  {
    BracketLookups();
    SafeRangeIsVerbatim(a, b, "inclusive");
  }

  /** `Range(td_from, td_to, safe=True)`: both ends are Python's own text
      of the durations. */
  lemma SafeDurationRange()
    ensures Render(MakeRange(Raw(Delta(Duration(-3, 86340, 0))), Raw(Delta(Duration(2, 60, 0))), Some(true), "inclusive").value)
            == "[" + "-3 days, 23:59:00" + " TO " + "2 days, 0:01:00" + "]"
  {
    SafeInclusiveRange(Delta(Duration(-3, 86340, 0)), Delta(Duration(2, 60, 0)));
    MinusTwoDaysOneMinuteText();
    TwoDaysOneMinuteText();
  }

  // Proximity.

  lemma ProximityUnsafe()
    ensures Render(MakeProximity(Raw(Text("foo bar")), 12, false)) == "\"foo\\ bar\"~12"
  {
    ProximityEscaping("foo bar", 12);
    EscapeSpace();
    IntTexts();
    ProximityTexts();
  }

  lemma ProximitySafe()
    ensures Render(MakeProximity(Raw(Text("foo bar")), 12, true)) == "\"foo bar\"~12"
  {
    ProximityEscaping("foo bar", 12);
    IntTexts();
    ProximityTexts();
  }

  /** `Proximity(Value("foo bar", safe=True), 12, safe=True)`. */
  lemma ProximityOfSafeValue()
    ensures Render(MakeProximity(Val(NewValue(Raw(Text("foo bar")), true)), 12, true)) == "\"foo bar\"~12"
  {
    ProximityEscaping("foo bar", 12);
    IntTexts();
    ProximityTexts();
  }

  // Operators and query objects.

  lemma NotOfTwo()
    ensures NotOp(["a", "b"]) == Err(ValueError)
  {
  }

  lemma BoostOfTwo()
    ensures BoostOp(["a", "b"], IntFactor(1)) == Err(ValueError)
  {
  }

  lemma BoostByNonNumber()
    ensures BoostOp(["a"], NonNumeric) == Err(TypeError)
  {
  }

  lemma ChildrenAndKeywords()
    ensures MakeQ([Empty], And, [("text", Raw(Text("*")))]) == Err(ValueError)
  {
  }

  lemma KeywordLeaf()
    ensures MakeQ([], And, [("foo", Raw(Text("bar")))]) == Ok(Term("foo", "bar"))
  {
  }

  lemma FooBar(parens: bool)
    ensures Compile(Term("foo", "bar"), parens) == Ok("foo:bar")
  {
    assert Unreserved("bar");
    UnreservedTerm("foo", "bar", parens);
    assert "foo" + ":" + "bar" == "foo:bar";
  }

  /** `Q(**{"*_t": "text"})`: the field name is written as given. */
  lemma WildcardField()
    ensures Compile(Term("*_t", "text"), false) == Ok("*_t:text")
  {
    assert Unreserved("text");
    UnreservedTerm("*_t", "text", false);
    assert "*_t" + ":" + "text" == "*_t:text";
  }

  lemma BackslashLeaf()
    ensures Compile(Term("foo", "\\"), false) == Ok("foo:\\\\")
  {
    EscapeBackslash();
    assert "foo" + ":" + "\\\\" == "foo:\\\\";
  }

  lemma AndOfLeaves()
    ensures Compile(AndQ(Term("foo", "bar"), Term("bar", "foo")), false) == Ok("foo:bar AND bar:foo")
  {
    AndOfLeavesParts();
    AndOfLeavesText();
  }

  lemma AndOfLeavesParts()
    ensures Compile(AndQ(Term("foo", "bar"), Term("bar", "foo")), false) == Ok("foo:bar" + " AND " + "bar:foo")
  {
    FooBar(true);
    assert Unreserved("foo") && "bar" + ":" + "foo" == "bar:foo";
    UnreservedTerm("bar", "foo", true);
    BuildersCompile(Term("foo", "bar"), Term("bar", "foo"), 0);
  }

  lemma OrOfLeaves()
    ensures Compile(OrQ(Term("foo", "bar"), Term("bar", "foo")), false) == Ok("foo:bar OR bar:foo")
  {
    OrOfLeavesParts();
    OrOfLeavesText();
  }

  lemma OrOfLeavesParts()
    ensures Compile(OrQ(Term("foo", "bar"), Term("bar", "foo")), false) == Ok("foo:bar" + " OR " + "bar:foo")
  {
    FooBar(true);
    assert Unreserved("foo") && "bar" + ":" + "foo" == "bar:foo";
    UnreservedTerm("bar", "foo", true);
    BuildersCompile(Term("foo", "bar"), Term("bar", "foo"), 0);
  }

  lemma NotOfLeaf()
    ensures Compile(InvertQ(Term("foo", "bar")), false) == Ok("!foo:bar")
  {
    FooBar(true);
    BuildersCompile(Term("foo", "bar"), Term("foo", "bar"), 0);
    assert "!" + "foo:bar" == "!foo:bar";
  }

  lemma BoostOfLeaf()
    ensures Compile(BoostQ(Term("foo", "bar"), IntFactor(2)), false) == Ok("foo:bar^2")
  {
    FooBar(true);
    BuildersCompile(Term("foo", "bar"), Term("foo", "bar"), 2);
    IntTexts();
    BoostOfLeafText();
  }

  /** `~(Q(foo='bar') & Q(bar='foo'))`: the operand is parenthesised. */
  lemma NotOfAnd()
    ensures Compile(InvertQ(AndQ(Term("foo", "bar"), Term("bar", "foo"))), false) == Ok("!(foo:bar AND bar:foo)")
  {
    NotOfAndParts();
    NotOfAndText();
  }

  lemma NotOfAndParts()
    ensures Compile(InvertQ(AndQ(Term("foo", "bar"), Term("bar", "foo"))), false) == Ok("!" + ("(" + "foo:bar AND bar:foo" + ")"))
  {
    var a := AndQ(Term("foo", "bar"), Term("bar", "foo"));
    AndOfLeaves();
    CompileParenthesisFlag(a);
    BuildersCompile(a, a, 0);
  }

  lemma FooBarBoosted()
    ensures Compile(BoostQ(Term("foo", "bar"), IntFactor(3)), true) == Ok("(" + ("foo:bar" + "^" + "3") + ")")
  {
    FooBar(true);
    BuildersCompile(Term("foo", "bar"), Term("foo", "bar"), 3);
    CompileParenthesisFlag(BoostQ(Term("foo", "bar"), IntFactor(3)));
    IntTexts();
  }

  lemma BarBazBoosted()
    ensures Compile(BoostQ(Term("bar", "baz"), IntFactor(4)), true) == Ok("(" + ("bar:baz" + "^" + "4") + ")")
  {
    assert Unreserved("baz") && "bar" + ":" + "baz" == "bar:baz";
    UnreservedTerm("bar", "baz", true);
    BuildersCompile(Term("bar", "baz"), Term("bar", "baz"), 4);
    CompileParenthesisFlag(BoostQ(Term("bar", "baz"), IntFactor(4)));
    IntTexts();
  }

  /** `Q(foo="bar") ^ 3 | Q(bar="baz") ^ 4`: each boosted operand is
      parenthesised. */
  lemma OrOfBoosts()
    ensures Compile(OrQ(BoostQ(Term("foo", "bar"), IntFactor(3)), BoostQ(Term("bar", "baz"), IntFactor(4))), false)
            == Ok("(foo:bar^3) OR (bar:baz^4)")
  {
    FooBarBoosted();
    BarBazBoosted();
    OrOfBoostsText();
    BuildersCompile(BoostQ(Term("foo", "bar"), IntFactor(3)), BoostQ(Term("bar", "baz"), IntFactor(4)), 0);
  }

  lemma OrOfFooBarBaz()
    ensures Compile(OrQ(Term("foo", "bar"), Term("bar", "baz")), true) == Ok("(" + ("foo:bar" + " OR " + "bar:baz") + ")")
  {
    FooBar(true);
    assert Unreserved("baz") && "bar" + ":" + "baz" == "bar:baz";
    UnreservedTerm("bar", "baz", true);
    BuildersCompile(Term("foo", "bar"), Term("bar", "baz"), 0);
    CompileParenthesisFlag(OrQ(Term("foo", "bar"), Term("bar", "baz")));
  }

  /** `(Q(foo="bar") | Q(bar="baz")) ^ 3`. */
  lemma BoostOfOr()
    ensures Compile(BoostQ(OrQ(Term("foo", "bar"), Term("bar", "baz")), IntFactor(3)), false) == Ok("(foo:bar OR bar:baz)^3")
  {
    var o := OrQ(Term("foo", "bar"), Term("bar", "baz"));
    OrOfFooBarBaz();
    BoostOfOrText();
    BuildersCompile(o, o, 3);
    IntTexts();
  }

  lemma AbAndCd()
    ensures Compile(AndQ(Term("a", "b"), Term("c", "d")), true) == Ok("(a:b AND c:d)")
  {
    assert Unreserved("b") && "a" + ":" + "b" == "a:b";
    UnreservedTerm("a", "b", true);
    assert Unreserved("d") && "c" + ":" + "d" == "c:d";
    UnreservedTerm("c", "d", true);
    BuildersCompile(Term("a", "b"), Term("c", "d"), 0);
    CompileParenthesisFlag(AndQ(Term("a", "b"), Term("c", "d")));
    AbAndCdText();
  }

  lemma BoostedAnd()
    ensures Compile(BoostQ(AndQ(Term("a", "b"), Term("c", "d")), IntFactor(1)), true) == Ok("((a:b AND c:d)^1)")
  {
    BoostedAndParts();
    BoostedAndText();
  }

  lemma BoostedAndParts()
    ensures Compile(BoostQ(AndQ(Term("a", "b"), Term("c", "d")), IntFactor(1)), true) == Ok("(" + ("(a:b AND c:d)" + "^" + "1") + ")")
  {
    var a := AndQ(Term("a", "b"), Term("c", "d"));
    AbAndCd();
    BuildersCompile(a, a, 1);
    CompileParenthesisFlag(BoostQ(a, IntFactor(1)));
    IntTexts();
  }

  lemma BoostedLeaf()
    ensures Compile(BoostQ(Term("e", "f"), IntFactor(2)), true) == Ok("(e:f^2)")
  {
    assert Unreserved("f") && "e" + ":" + "f" == "e:f";
    UnreservedTerm("e", "f", true);
    BuildersCompile(Term("e", "f"), Term("e", "f"), 2);
    CompileParenthesisFlag(BoostQ(Term("e", "f"), IntFactor(2)));
    IntTexts();
    BoostedLeafText();
  }

  /** The parenthesisation example of the library's documentation:
      `(Q(a='b') & Q(c='d')) ^ 1 | Q(e='f') ^ 2`. */
  lemma ParenthesisExample()
    ensures Compile(OrQ(BoostQ(AndQ(Term("a", "b"), Term("c", "d")), IntFactor(1)), BoostQ(Term("e", "f"), IntFactor(2))), false)
            == Ok("((a:b AND c:d)^1) OR (e:f^2)")
  {
    ParenthesisExampleParts();
    ParenthesisExampleText();
  }

  lemma ParenthesisExampleParts()
    ensures Compile(OrQ(BoostQ(AndQ(Term("a", "b"), Term("c", "d")), IntFactor(1)), BoostQ(Term("e", "f"), IntFactor(2))), false)
            == Ok("((a:b AND c:d)^1)" + " OR " + "(e:f^2)")
  {
    var left := BoostQ(AndQ(Term("a", "b"), Term("c", "d")), IntFactor(1));
    var right := BoostQ(Term("e", "f"), IntFactor(2));
    BoostedAnd();
    BoostedLeaf();
    BuildersCompile(left, right, 0);
  }

  /** `Q(foo="bar", bar="foo", op=QOperator.or_)`. */
  lemma ImplicitOr()
    ensures Compile(MakeQ([], Or, [("foo", Raw(Text("bar"))), ("bar", Raw(Text("foo")))]).value, false)
            == Ok("foo:bar OR bar:foo")
  {
    var kw := [("foo", Raw(Text("bar"))), ("bar", Raw(Text("foo")))];
    var q := MakeQ([], Or, kw).value;
    assert q == OrQ(Term("foo", "bar"), Term("bar", "foo"));
    OrOfLeaves();
  }

  /** Two keywords: the node joins the two leaves in keyword order. */
  lemma ImplicitAnd()
    ensures Compile(MakeQ([], And, [("foo", Raw(Text("bar"))), ("bar", Raw(Text("foo")))]).value, false)
            == Ok("foo:bar AND bar:foo")
  {
    var kw := [("foo", Raw(Text("bar"))), ("bar", Raw(Text("foo")))];
    var q := MakeQ([], And, kw).value;
    assert q == AndQ(Term("foo", "bar"), Term("bar", "foo"));
    AndOfLeaves();
  }
}
