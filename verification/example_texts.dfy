/** The literal pieces the concrete examples are assembled from: the
    decimal texts of the numbers they mention and each example's text as a
    concatenation of its parts. These are helpers for `TestVectors`, not
    examples of their own; each literal equality sits in a small lemma of
    its own because many of them together are expensive to prove at once. */
module ExampleTexts {
  import opened Decimal
  import opened Durations

  /** The signed texts `{:+d}` writes for the offsets of the examples. */
  lemma SignedTexts()
    ensures SignedToString(1) == "+1"
    ensures SignedToString(2) == "+2"
    ensures SignedToString(0) == "+0"
    ensures SignedToString(60) == "+60"
    ensures SignedToString(3000 / 1000) == "+3"
    ensures SignedToString(-1) == "-1"
    ensures SignedToString(-3) == "-3"
    ensures SignedToString(79200) == "+79200"
    ensures SignedToString(86340) == "+86340"
  {
  }

  /** Python's `str` (and `%02d`) of the small integers of the examples. */
  lemma IntTexts()
    ensures IntToString(0) == "0"
    ensures ZeroPad(0, 2) == "00"
    ensures IntToString(1) == "1"
    ensures IntToString(2) == "2"
    ensures IntToString(3) == "3"
    ensures IntToString(4) == "4"
    ensures IntToString(12) == "12"
  {
  }

  // Date-math examples.

  lemma DateMathDaysMinutesMillisText()
    ensures "NOW" + "+1" + "DAYS" + "+60" + "SECONDS" + "+3" + "MILLISECONDS" == "NOW+1DAYS+60SECONDS+3MILLISECONDS"
  {
  }

  lemma DateMathMinusOneDayText()
    ensures "NOW" + "-1" + "DAYS" + "+0" + "SECONDS" + "+0" + "MILLISECONDS" == "NOW-1DAYS+0SECONDS+0MILLISECONDS"
  {
  }

  lemma MixedSignDateMathText()
    ensures "NOW" + "-3" + "DAYS" + "+79200" + "SECONDS" + "+0" + "MILLISECONDS" == "NOW-3DAYS+79200SECONDS+0MILLISECONDS"
  {
  }

  lemma DateMathMinusTwoDaysOneMinuteText()
    ensures "NOW" + "-3" + "DAYS" + "+86340" + "SECONDS" + "+0" + "MILLISECONDS" == "NOW-3DAYS+86340SECONDS+0MILLISECONDS"
  {
  }

  lemma DateMathTwoDaysOneMinuteText()
    ensures "NOW" + "+2" + "DAYS" + "+60" + "SECONDS" + "+0" + "MILLISECONDS" == "NOW+2DAYS+60SECONDS+0MILLISECONDS"
  {
  }

  lemma NegativeMicrosecondSigned()
    ensures SignedToString(86399) == "+86399"
    ensures SignedToString(999999 / 1000) == "+999"
  {
  }

  lemma NegativeMicrosecondText()
    ensures "NOW" + "-1" + "DAYS" + "+86399" + "SECONDS" + "+999" + "MILLISECONDS" == "NOW-1DAYS+86399SECONDS+999MILLISECONDS"
  {
  }

  /** The `str(timedelta)` examples, assembled from their pieces. */
  lemma DurationTexts()
    ensures "1" + " day" + "" + ", " + ("0" + ":" + "00" + ":" + "00") + "" == "1 day, 0:00:00"
    ensures "-3" + " day" + "s" + ", " + ("23" + ":" + "59" + ":" + "00") + "" == "-3 days, 23:59:00"
  {
  }

  /** The proximity examples, assembled from their pieces. */
  lemma ProximityTexts()
    ensures "\"" + "foo\\ bar" + "\"~" + "12" == "\"foo\\ bar\"~12"
    ensures "\"" + "foo bar" + "\"~" + "12" == "\"foo bar\"~12"
  {
  }

  // Compiled query examples.

  lemma AndOfLeavesText()
    ensures "foo:bar" + " AND " + "bar:foo" == "foo:bar AND bar:foo"
  {
  }

  lemma OrOfLeavesText()
    ensures "foo:bar" + " OR " + "bar:foo" == "foo:bar OR bar:foo"
  {
  }

  lemma BoostOfLeafText()
    ensures "foo:bar" + "^" + "2" == "foo:bar^2"
  {
  }

  lemma NotOfAndText()
    ensures "!" + ("(" + "foo:bar AND bar:foo" + ")") == "!(foo:bar AND bar:foo)"
  {
  }

  lemma OrOfBoostsText()
    ensures "(" + ("foo:bar" + "^" + "3") + ")" == "(foo:bar^3)"
    ensures "(" + ("bar:baz" + "^" + "4") + ")" == "(bar:baz^4)"
    ensures "(foo:bar^3)" + " OR " + "(bar:baz^4)" == "(foo:bar^3) OR (bar:baz^4)"
  {
  }

  lemma BoostOfOrText()
    ensures "(" + ("foo:bar" + " OR " + "bar:baz") + ")" == "(foo:bar OR bar:baz)"
    ensures "(foo:bar OR bar:baz)" + "^" + "3" == "(foo:bar OR bar:baz)^3"
  {
  }

  lemma AbAndCdText()
    ensures "(" + ("a:b" + " AND " + "c:d") + ")" == "(a:b AND c:d)"
  {
  }

  lemma BoostedAndText()
    ensures "(" + ("(a:b AND c:d)" + "^" + "1") + ")" == "((a:b AND c:d)^1)"
  {
  }

  lemma BoostedLeafText()
    ensures "(" + ("e:f" + "^" + "2") + ")" == "(e:f^2)"
  {
  }

  lemma ParenthesisExampleText()
    ensures "((a:b AND c:d)^1)" + " OR " + "(e:f^2)" == "((a:b AND c:d)^1) OR (e:f^2)"
  {
  }

  // Escaping example.

  lemma EscapeQuotesSplit()
    ensures "\"foo bar\"" == "\"foo" + " bar\""
  {
  }

  lemma EscapeQuotesText()
    ensures "\\\"foo" + "\\ bar\\\"" == "\\\"foo\\ bar\\\""
  {
  }
}
