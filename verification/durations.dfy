/** Durations (Python `timedelta`) and the two texts the library produces
    for them: Solr date-math (`NOW+1DAYS+0SECONDS+0MILLISECONDS`, written when
    an unsafe value is built from a duration) and Python's own `str` of a
    timedelta (`1 day, 0:00:00`, what a safe duration renders as). */
module Durations {
  import opened Errors
  import opened Decimal

  datatype Duration = Duration(days: int, seconds: nat, micros: nat)

  /** A timedelta is kept normalised: any number of days, then
      0 <= seconds < 86400 and 0 <= microseconds < 1000000. */
  type TimeDelta = d: Duration | d.seconds < 86400 && d.micros < 1000000
    witness Duration(0, 0, 0)

  const MicrosPerDay: int := 86400 * 1000000

  /** The duration as a signed number of microseconds. */
  function TotalMicros(d: Duration): int {
    (d.days * 86400 + d.seconds) * 1000000 + d.micros
  }

  /** Python's normalisation of a duration given in microseconds (what the
      timedelta constructor and unary minus produce). */
  function FromMicros(t: int): (d: TimeDelta)
    ensures TotalMicros(d) == t
  {
    var rem := t % MicrosPerDay;
    Duration(t / MicrosPerDay, rem / 1000000, rem % 1000000)
  }

  lemma FromMicrosOfTotal(d: TimeDelta)
    ensures FromMicros(TotalMicros(d)) == d
  {
    var t := TotalMicros(d);
    var within := d.seconds * 1000000 + d.micros;
    assert 0 <= within < MicrosPerDay;
    assert t == d.days * MicrosPerDay + within;
    assert t / MicrosPerDay == d.days && t % MicrosPerDay == within;
  }

  /** `raw == timedelta()`. */
  predicate IsZero(d: Duration) {
    d.days == 0 && d.seconds == 0 && d.micros == 0
  }

  /** Solr date-math for a duration: each unit carries its own sign, the
      microseconds are truncated to milliseconds, the zero duration is NOW. */
  function DateMath(d: TimeDelta): (r: string)
    ensures r == "NOW" <==> IsZero(d)
  {
    if IsZero(d) then "NOW"
    else
      var t := "NOW" + SignedToString(d.days) + "DAYS" + SignedToString(d.seconds) + "SECONDS"
               + SignedToString(d.micros / 1000) + "MILLISECONDS";
      assert |t| > 3;
      t
  }

  function StripPrefix(p: string, s: string): Option<string> {
    if |p| <= |s| && s[..|p|] == p then Some(s[|p|..]) else None
  }

  /** Reads a date-math text of the form written by `DateMath` back into its
      offsets from NOW: (days, seconds, milliseconds). */
  function ReadDateMath(t: string): Option<(int, int, int)> {
    if t == "NOW" then Some((0, 0, 0))
    else
      var r0 :- StripPrefix("NOW", t);
      var days :- ReadInt(r0, true);
      var r1 :- StripPrefix("DAYS", days.1);
      var secs :- ReadInt(r1, true);
      var r2 :- StripPrefix("SECONDS", secs.1);
      var millis :- ReadInt(r2, true);
      if millis.1 == "MILLISECONDS" then Some((days.0, secs.0, millis.0)) else None
  }

  lemma StripPrefixOf(p: string, s: string)
    ensures StripPrefix(p, p + s) == Some(s)
  {
    assert (p + s)[..|p|] == p;
    assert (p + s)[|p|..] == s;
  }

  /** Reading one signed unit in front of its unit word. */
  lemma ReadUnit(n: int, word: string, rest: string)
    requires word != [] && !IsDigit(word[0])
    ensures ReadInt(SignedToString(n) + (word + rest), true) == Some((n, word + rest))
  {
    ReadSignedToString(n, word + rest);
  }

  /** The date-math writer is undone by the reader: the offsets are the
      days and seconds of the duration and its whole milliseconds. */
  lemma ReadDateMathOfDateMath(d: TimeDelta)
    ensures ReadDateMath(DateMath(d)) == Some((d.days, d.seconds as int, d.micros / 1000))
  {
    if !IsZero(d) {
      var sd, ss, sm := SignedToString(d.days), SignedToString(d.seconds), SignedToString(d.micros / 1000);
      var tail2 := "SECONDS" + (sm + "MILLISECONDS");
      var tail1 := "DAYS" + (ss + tail2);
      DateMathShape(d);
      StripPrefixOf("NOW", sd + tail1);
      ReadUnit(d.days, "DAYS", ss + tail2);
      StripPrefixOf("DAYS", ss + tail2);
      ReadUnit(d.seconds, "SECONDS", sm + "MILLISECONDS");
      StripPrefixOf("SECONDS", sm + "MILLISECONDS");
      ReadUnit(d.micros / 1000, "MILLISECONDS", []);
      assert "MILLISECONDS" + [] == "MILLISECONDS";
      ReadDateMathSteps(DateMath(d), sd + tail1, d.days, tail1, ss + tail2, d.seconds, tail2, sm + "MILLISECONDS", d.micros / 1000);
    }
  }

  /** A nonzero duration's date-math, grouped from the right the way the
      reader consumes it. */
  lemma DateMathShape(d: TimeDelta)
    requires !IsZero(d)
    ensures DateMath(d) != "NOW"
    ensures DateMath(d) == "NOW" + (SignedToString(d.days) + ("DAYS" + (SignedToString(d.seconds)
            + ("SECONDS" + (SignedToString(d.micros / 1000) + "MILLISECONDS")))))
  {
    assert |DateMath(d)| > 3;
  }

  /** The reader's steps, one fact per step. */
  lemma ReadDateMathSteps(t: string, r0: string, days: int, t0: string, r1: string, secs: int, t1: string, r2: string, millis: int)
    requires t != "NOW" && StripPrefix("NOW", t) == Some(r0)
    requires ReadInt(r0, true) == Some((days, t0)) && StripPrefix("DAYS", t0) == Some(r1)
    requires ReadInt(r1, true) == Some((secs, t1)) && StripPrefix("SECONDS", t1) == Some(r2)
    requires ReadInt(r2, true) == Some((millis, "MILLISECONDS"))
    ensures ReadDateMath(t) == Some((days, secs, millis))
  {
  }

  /** Mixed signs are sound: the offsets the text denotes add up to the
      duration rounded down (floor) to whole milliseconds, so a negative
      duration with a sub-millisecond part lands one millisecond further
      from zero. */
  lemma DateMathDenotesDuration(d: TimeDelta)
    ensures var o := ReadDateMath(DateMath(d));
            o.Some? && o.value.0 * 86400000 + o.value.1 * 1000 + o.value.2 == TotalMicros(d) / 1000
  {
    ReadDateMathOfDateMath(d);
    var ms := d.days * 86400000 + d.seconds * 1000 + d.micros / 1000;
    assert TotalMicros(d) == ms * 1000 + d.micros % 1000;
  }

  /** n written in decimal, with zeros in front up to width characters
      (Python's `%02d` / `%06d` on a non-negative int). */
  function ZeroPad(n: nat, width: nat): (r: string)
    ensures |r| >= width
  {
    var digits := NatToString(n);
    if |digits| >= width then digits else seq(width - |digits|, _ => '0') + digits
  }

  /** Python's `str(timedelta)`: `[D day[s], ]H:MM:SS[.UUUUUU]`. */
  function DurationText(d: TimeDelta): string {
    var clock := IntToString(d.seconds / 3600) + ":" + ZeroPad(d.seconds / 60 % 60, 2) + ":" + ZeroPad(d.seconds % 60, 2);
    var dayPart :=
      if d.days == 0 then ""
      else IntToString(d.days) + " day" + (if d.days == 1 || d.days == -1 then "" else "s") + ", ";
    var fraction := if d.micros == 0 then "" else "." + ZeroPad(d.micros, 6);
    dayPart + clock + fraction
  }
}
