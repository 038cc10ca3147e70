/** Query values: `Value` and `Proximity` (source classes of the same names).

    A value keeps the raw object it was built from and a `safe` flag; its
    text is `str(raw)`, escaped unless the flag is set. Building an unsafe
    value from a timestamp or a duration translates the raw object to Solr
    syntax at once and marks the value safe. */
module Values {
  import opened Decimal
  import opened Escaping
  import opened Durations

  /** Raw objects the library knows that are not values themselves. */
  datatype Scalar =
    | Text(s: string)
    | Integer(n: int)
    | Delta(d: TimeDelta)
      /** A `datetime`: iso is the text the source formats it to (`isoformat()`
          for a naive one, the `%Y-%m-%dT%H:%M:%S.%f` pattern for a zone-aware
          one) and text is its Python `str`. */
    | Timestamp(iso: string, text: string)

  /** Anything passed where the source accepts a raw value: a scalar, or an
      existing Value object (which then nests). */
  datatype Obj = Raw(x: Scalar) | Val(v: Value)

  /** A Value, or a Proximity with its distance. A Range is a Value whose raw
      object is its formatted text (see module Ranges). */
  datatype Value =
    | Plain(raw: Obj, safe: bool)
    | Prox(raw: Obj, safe: bool, distance: int)

  /** Python `str` of a raw object. */
  function Str(o: Obj): string
    decreases o, 0
  {
    match o
    case Raw(Text(s)) => s
    case Raw(Integer(n)) => IntToString(n)
    case Raw(Delta(d)) => DurationText(d)
    case Raw(Timestamp(_, text)) => text
    case Val(v) => Render(v)
  }

  /** `str(v)`: `Value.__str__` escapes the raw text unless safe;
      `Proximity.__str__` quotes that text and appends `~distance`. */
  function Render(v: Value): string
    decreases v, 1
  {
    var base := if v.safe then Str(v.raw) else Escape(Str(v.raw));
    match v
    case Plain(_, _) => base
    case Prox(_, _, distance) => "\"" + base + "\"~" + IntToString(distance)
  }

  /** `Value(raw, safe)`. */
  function NewValue(raw: Obj, safe: bool): (v: Value)
    ensures v.Plain?
    ensures safe ==> v.safe && Render(v) == Str(raw)
    ensures !safe && raw.Raw? && raw.x.Delta? ==> v.safe && Render(v) == DateMath(raw.x.d)
    ensures !safe && raw.Raw? && raw.x.Timestamp? ==> v.safe && Render(v) == "\"" + raw.x.iso + "Z\""
    ensures !safe && !(raw.Raw? && (raw.x.Delta? || raw.x.Timestamp?)) ==>
              !v.safe && Render(v) == Escape(Str(raw))
    ensures safe || !(raw.Raw? && (raw.x.Delta? || raw.x.Timestamp?)) ==> v.raw == raw
    ensures !safe && raw.Raw? && raw.x.Delta? ==> v.raw == Raw(Text(DateMath(raw.x.d)))
    ensures !safe && raw.Raw? && raw.x.Timestamp? ==> v.raw == Raw(Text("\"" + raw.x.iso + "Z\""))
  {
    match raw
    case Raw(Timestamp(iso, _)) =>
      if safe then Plain(raw, safe) else Plain(Raw(Text("\"" + iso + "Z\"")), true)
    case Raw(Delta(d)) =>
      if safe then Plain(raw, safe) else Plain(Raw(Text(DateMath(d))), true)
    case _ => Plain(raw, safe)
  }

  /** The value with its safe flag replaced (the assignment `x.safe = safe`). */
  function WithSafe(v: Value, safe: bool): (w: Value)
    ensures w.safe == safe
    ensures w.raw == v.raw && w.Prox? == v.Prox?
    ensures w.Prox? ==> w.distance == v.distance
  {
    match v
    case Plain(raw, _) => Plain(raw, safe)
    case Prox(raw, _, distance) => Prox(raw, safe, distance)
  }

  /** `Proximity(raw, distance, safe)`: the base value is built as `Value`
      builds it, so a timestamp or duration is translated the same way. */
  function MakeProximity(raw: Obj, distance: int, safe: bool): (p: Value)
    ensures p.Prox? && p.distance == distance
    ensures p.safe == NewValue(raw, safe).safe && p.raw == NewValue(raw, safe).raw
    ensures Render(p) == "\"" + Render(NewValue(raw, safe)) + "\"~" + IntToString(distance)
  {
    var base := NewValue(raw, safe);
    Prox(base.raw, base.safe, distance)
  }

  /** A value wrapping another value: unsafe, it escapes the inner value's
      text once more; safe, it passes that text through. */
  lemma NestedValue(v: Value)
    ensures Render(NewValue(Val(v), false)) == Escape(Render(v))
    ensures Render(NewValue(Val(v), true)) == Render(v)
  {
  }

  /** Wrapping an unsafe value whose escaping changed its text in a second
      unsafe value changes it again: escaping is not applied "once only". */
  lemma NestedUnsafeValueReEscapes(s: string)
    requires Render(NewValue(Raw(Text(s)), false)) != s
    ensures var inner := NewValue(Raw(Text(s)), false);
            |Render(NewValue(Val(inner), false))| > |Render(inner)|
  {
    EscapeNotIdempotent(s);
  }

  /** An unsafe text value renders to a text from which the input can be
      recovered; a safe value built from any rendering gives it back as is. */
  lemma RenderedTextRoundTrips(s: string, v: Value)
    ensures Unescape(Render(NewValue(Raw(Text(s)), false))) == s
    ensures Render(NewValue(Raw(Text(Render(v))), true)) == Render(v)
  {
    UnescapeEscape(s);
  }

  /** Proximity escaping is decided by its own flag alone: an unsafe
      Proximity over a safe Value escapes the inner text, a safe one never
      does. */
  lemma ProximityEscaping(s: string, distance: int)
    ensures Render(MakeProximity(Raw(Text(s)), distance, true)) == "\"" + s + "\"~" + IntToString(distance)
    ensures Render(MakeProximity(Raw(Text(s)), distance, false)) == "\"" + Escape(s) + "\"~" + IntToString(distance)
    ensures Render(MakeProximity(Val(NewValue(Raw(Text(s)), true)), distance, false))
            == "\"" + Escape(s) + "\"~" + IntToString(distance)
    ensures Render(MakeProximity(Val(NewValue(Raw(Text(s)), true)), distance, true))
            == "\"" + s + "\"~" + IntToString(distance)
  {
  }
}
