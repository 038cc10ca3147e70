/** Range values (`Range`): `<open><from> TO <to><close>`.

    A Range looks its boundaries token up first, coerces both ends to values,
    lets an explicit `safe` argument override both ends' flags, and then
    becomes a safe Value whose raw text is the formatted range, so the text
    is never escaped as a whole. */
module Ranges {
  import opened Errors
  import opened Escaping
  import opened Durations
  import opened Values

  /** The six named boundary kinds, as written out in the source. */
  const NamedBoundaries: map<string, string> :=
    map["exclusive" := "{}", "inclusive" := "[]", "ee" := "{}", "ei" := "{]", "ii" := "[]", "ie" := "[}"]

  /** The table extended so that every bracket pair also names itself. */
  const BoundaryBrackets: map<string, string> :=
    NamedBoundaries + map b | b in NamedBoundaries.Values :: b

  /** The table built above holds exactly ten tokens and maps each to the
      bracket pair the documentation lists; bracket strings map to themselves. */
  lemma BoundaryBracketsTable()
    ensures BoundaryBrackets.Keys ==
            {"inclusive", "ii", "[]", "exclusive", "ee", "{}", "ei", "{]", "ie", "[}"}
    ensures BoundaryBrackets["inclusive"] == BoundaryBrackets["ii"] == BoundaryBrackets["[]"] == "[]"
    ensures BoundaryBrackets["exclusive"] == BoundaryBrackets["ee"] == BoundaryBrackets["{}"] == "{}"
    ensures BoundaryBrackets["ei"] == BoundaryBrackets["{]"] == "{]"
    ensures BoundaryBrackets["ie"] == BoundaryBrackets["[}"] == "[}"
    ensures forall t :: t in BoundaryBrackets ==>
              |BoundaryBrackets[t]| == 2 && BoundaryBrackets[BoundaryBrackets[t]] == BoundaryBrackets[t]
  {
    BracketTokens();
    BracketLookups();
  }

  lemma BracketTokens()
    ensures BoundaryBrackets.Keys ==
            {"inclusive", "ii", "[]", "exclusive", "ee", "{}", "ei", "{]", "ie", "[}"}
  {
    NamedBracketPairs();
  }

  lemma BracketLookups()
    ensures "inclusive" in BoundaryBrackets && "ii" in BoundaryBrackets && "[]" in BoundaryBrackets
    ensures "exclusive" in BoundaryBrackets && "ee" in BoundaryBrackets && "{}" in BoundaryBrackets
    ensures "ei" in BoundaryBrackets && "{]" in BoundaryBrackets && "ie" in BoundaryBrackets && "[}" in BoundaryBrackets
    ensures BoundaryBrackets["inclusive"] == BoundaryBrackets["ii"] == BoundaryBrackets["[]"] == "[]"
    ensures BoundaryBrackets["exclusive"] == BoundaryBrackets["ee"] == BoundaryBrackets["{}"] == "{}"
    ensures BoundaryBrackets["ei"] == BoundaryBrackets["{]"] == "{]"
    ensures BoundaryBrackets["ie"] == BoundaryBrackets["[}"] == "[}"
  {
    NamedBracketPairs();
  }

  /** The bracket pairs the named boundaries stand for. */
  lemma NamedBracketPairs()
    ensures NamedBoundaries.Values == {"{}", "[]", "{]", "[}"}
  {
    assert NamedBoundaries["exclusive"] == "{}" && NamedBoundaries["inclusive"] == "[]";
    assert NamedBoundaries["ei"] == "{]" && NamedBoundaries["ie"] == "[}";
  }

  /** One end of the range: a value is taken as it is, anything else is
      wrapped with `Value(x, safe or False)`; an explicit safe then
      overrides the flag. */
  function Side(o: Obj, safe: Option<bool>): (v: Value)
    ensures safe.Some? ==> v.safe == safe.value
    ensures safe.None? && o.Val? ==> v == o.v
    ensures safe.None? && o.Raw? ==> v == NewValue(o, false)
    ensures safe == Some(true) && o.Raw? ==> v == NewValue(o, true)
    ensures safe.Some? && o.Val? ==> v == WithSafe(o.v, safe.value)
    ensures safe == Some(false) && o.Raw? ==> v == WithSafe(NewValue(o, false), false)
  {
    var coerced := if o.Val? then o.v else NewValue(o, safe == Some(true));
    if safe.Some? then WithSafe(coerced, safe.value) else coerced
  }

  /** `Range(from_, to, safe, boundaries)`. */
  function MakeRange(from: Obj, to: Obj, safe: Option<bool>, boundaries: string): (r: Result<Value>)
    ensures r.Err? <==> boundaries !in BoundaryBrackets
    ensures r.Err? ==> r.error == ValueError
    ensures r.Ok? ==>
              var b := BoundaryBrackets[boundaries];
              && |b| == 2
              && r.value.Plain? && r.value.safe
              && Render(r.value) == [b[0]] + Render(Side(from, safe)) + " TO " + Render(Side(to, safe)) + [b[1]]
  {
    if boundaries !in BoundaryBrackets then Err(ValueError)
    else
      BoundaryBracketsTable();
      var b := BoundaryBrackets[boundaries];
      var text := [b[0]] + Render(Side(from, safe)) + " TO " + Render(Side(to, safe)) + [b[1]];
      Ok(Plain(Raw(Text(text)), true))
  }

  /** With the default arguments a range of two scalars is the two unsafe
      Value renderings between square brackets. */
  lemma DefaultRangeOfScalars(a: Scalar, b: Scalar)
    ensures MakeRange(Raw(a), Raw(b), None, "inclusive").Ok?
    ensures Render(MakeRange(Raw(a), Raw(b), None, "inclusive").value)
            == "[" + Render(NewValue(Raw(a), false)) + " TO " + Render(NewValue(Raw(b), false)) + "]"
  {
    BoundaryBracketsTable();
  }

  /** Passing scalars or the Values built from them gives the same range:
      unset safe matches `Value(x)`, safe=True matches `Value(x, safe=True)`. */
  lemma RangeOfScalarsMatchesRangeOfValues(a: Scalar, b: Scalar, boundaries: string)
    ensures MakeRange(Raw(a), Raw(b), None, boundaries)
            == MakeRange(Val(NewValue(Raw(a), false)), Val(NewValue(Raw(b), false)), None, boundaries)
    ensures MakeRange(Raw(a), Raw(b), Some(true), boundaries)
            == MakeRange(Val(NewValue(Raw(a), true)), Val(NewValue(Raw(b), true)), None, boundaries)
  {
  }

  /** With safe=True both ends are written verbatim, durations included. */
  lemma SafeRangeIsVerbatim(a: Scalar, b: Scalar, boundaries: string)
    requires boundaries in BoundaryBrackets
    ensures var r := MakeRange(Raw(a), Raw(b), Some(true), boundaries);
            var br := BoundaryBrackets[boundaries];
            r.Ok? && |br| == 2 && Render(r.value) == [br[0]] + Str(Raw(a)) + " TO " + Str(Raw(b)) + [br[1]]
  {
    BoundaryBracketsTable();
  }

  /** With safe=False each duration end is first translated to date-math
      (and marked safe), then forced back to unsafe, so the date-math text
      gets escaped. */
  lemma UnsafeRangeEscapesDateMath(d: TimeDelta, e: TimeDelta, boundaries: string)
    requires boundaries in BoundaryBrackets
    ensures var r := MakeRange(Raw(Delta(d)), Raw(Delta(e)), Some(false), boundaries);
            var br := BoundaryBrackets[boundaries];
            r.Ok? && |br| == 2
            && Render(r.value) == [br[0]] + Escape(DateMath(d)) + " TO " + Escape(DateMath(e)) + [br[1]]
  {
    BoundaryBracketsTable();
  }

  /** A duration already wrapped as `Value(d, safe=True)` keeps the duration
      itself, not date-math; forcing that end unsafe with safe=False then
      escapes Python's `str` of the duration. */
  lemma SafeDurationForcedUnsafe(d: TimeDelta)
    ensures Render(Side(Val(NewValue(Raw(Delta(d)), true)), Some(false))) == Escape(DurationText(d))
  {
  }

  /** A range used as an end of another range keeps its text fixed; only an
      explicit safe=False on the outer range makes that text escaped. */
  lemma NestedRangeEnd(inner: Value)
    requires inner.Plain? && inner.safe
    ensures Render(Side(Val(inner), None)) == Render(inner)
    ensures Render(Side(Val(inner), Some(true))) == Render(inner)
    ensures Render(Side(Val(inner), Some(false))) == Escape(Render(inner))
  {
  }
}
