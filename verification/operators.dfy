/** Operator routines (`QOperator`): how a node joins the compiled texts of
    its children. `and_` and `or_` join any number of texts; `not_` and
    `boost` take exactly one and fail otherwise. */
module Operators {
  import opened Errors
  import opened Decimal

  /** `sep.join(parts)`. */
  function Join(parts: seq<string>, sep: string): string
    decreases |parts|
  {
    if parts == [] then ""
    else if |parts| == 1 then parts[0]
    else parts[0] + sep + Join(parts[1..], sep)
  }

  /** A boost factor: an int, or an object that is neither int nor float. */
  datatype Factor = IntFactor(n: int) | NonNumeric

  /** The operator a node applies; Boost carries its bound factor (the
      `partial(QOperator.boost, factor=...)` of the source). */
  datatype Op = And | Or | Not | Boost(factor: Factor)

  function AndOp(parts: seq<string>): string {
    Join(parts, " AND ")
  }

  function OrOp(parts: seq<string>): string {
    Join(parts, " OR ")
  }

  /** `QOperator.not_`. */
  function NotOp(parts: seq<string>): (r: Result<string>)
    ensures r.Ok? <==> |parts| == 1
    ensures r.Err? ==> r.error == ValueError
    ensures r.Ok? ==> r.value == "!" + parts[0]
  {
    if |parts| != 1 then Err(ValueError) else Ok("!" + parts[0])
  }

  /** `QOperator.boost`: the arity is checked before the factor. */
  function BoostOp(parts: seq<string>, factor: Factor): (r: Result<string>)
    ensures |parts| != 1 ==> r == Err(ValueError)
    ensures |parts| == 1 && factor.NonNumeric? ==> r == Err(TypeError)
    ensures r.Ok? <==> |parts| == 1 && factor.IntFactor?
    ensures r.Ok? ==> r.value == parts[0] + "^" + IntToString(factor.n)
  {
    if |parts| != 1 then Err(ValueError)
    else if factor.NonNumeric? then Err(TypeError)
    else Ok(parts[0] + "^" + IntToString(factor.n))
  }

  /** The operator routine of a node applied to its children's texts. */
  function Apply(op: Op, parts: seq<string>): Result<string> {
    match op
    case And => Ok(AndOp(parts))
    case Or => Ok(OrOp(parts))
    case Not => NotOp(parts)
    case Boost(f) => BoostOp(parts, f)
  }

  /** Which operator/arity combinations succeed. */
  predicate Accepts(op: Op, arity: nat) {
    match op
    case And => true
    case Or => true
    case Not => arity == 1
    case Boost(f) => arity == 1 && f.IntFactor?
  }

  /** An operator fails exactly on the combinations it rejects, with the
      error kind the source raises. */
  lemma ApplyFailsIff(op: Op, parts: seq<string>)
    ensures Apply(op, parts).Ok? <==> Accepts(op, |parts|)
    ensures Apply(op, parts).Err? && |parts| != 1 ==> Apply(op, parts).error == ValueError
    ensures Apply(op, parts).Err? && |parts| == 1 ==> Apply(op, parts).error == TypeError
  {
  }

  /** Number of occurrences of c in s. */
  function Occurrences(c: char, s: string): nat
    decreases |s|
  {
    if s == [] then 0 else (if s[0] == c then 1 else 0) + Occurrences(c, s[1..])
  }

  function Total(xs: seq<nat>): nat
    decreases |xs|
  {
    if xs == [] then 0 else xs[0] + Total(xs[1..])
  }

  /** Occurrences of c in each part. */
  function OccurrencesEach(c: char, parts: seq<string>): (xs: seq<nat>)
    ensures |xs| == |parts|
    ensures forall i :: 0 <= i < |parts| ==> xs[i] == Occurrences(c, parts[i])
  {
    seq(|parts|, i requires 0 <= i < |parts| => Occurrences(c, parts[i]))
  }

  lemma {:induction false} OccurrencesAppend(c: char, a: string, b: string)
    ensures Occurrences(c, a + b) == Occurrences(c, a) + Occurrences(c, b)
    decreases |a|
  {
    if a == [] {
      assert a + b == b;
    } else {
      assert (a + b)[1..] == a[1..] + b;
      OccurrencesAppend(c, a[1..], b);
    }
  }

  /** A joined text holds the parts' occurrences plus one separator's worth
      between each neighbouring pair. */
  lemma {:induction false} OccurrencesJoin(c: char, parts: seq<string>, sep: string)
    requires parts != []
    ensures Occurrences(c, Join(parts, sep))
            == Total(OccurrencesEach(c, parts)) + (|parts| - 1) * Occurrences(c, sep)
    decreases |parts|
  {
    if |parts| == 1 {
      assert Total(OccurrencesEach(c, parts)) == Occurrences(c, parts[0]) + Total([]);
    } else {
      var k, n := Occurrences(c, sep), |parts|;
      OccurrencesJoin(c, parts[1..], sep);
      OccurrencesAppend(c, parts[0] + sep, Join(parts[1..], sep));
      OccurrencesAppend(c, parts[0], sep);
      assert OccurrencesEach(c, parts)[1..] == OccurrencesEach(c, parts[1..]);
      assert (n - 2) * k + k == (n - 1) * k;
    }
  }

  lemma TotalOfOne(c: char, p: string)
    ensures Total(OccurrencesEach(c, [p])) == Occurrences(c, p)
  {
    assert Total(OccurrencesEach(c, [p])) == Occurrences(c, p) + Total([]);
  }

  lemma SuffixWithoutParentheses(c: char, p: string, suffix: string)
    requires c == '(' || c == ')'
    requires forall i :: 0 <= i < |suffix| ==> suffix[i] != '(' && suffix[i] != ')'
    ensures Occurrences(c, p + suffix) == Occurrences(c, p)
  {
    OccurrencesAbsent(c, suffix);
    OccurrencesAppend(c, p, suffix);
  }

  /** Joining adds no parenthesis when the separator has none. */
  lemma JoinKeepsParentheses(c: char, parts: seq<string>, sep: string)
    requires c == '(' || c == ')'
    requires parts != []
    requires forall i :: 0 <= i < |sep| ==> sep[i] != '(' && sep[i] != ')'
    ensures Occurrences(c, Join(parts, sep)) == Total(OccurrencesEach(c, parts))
  {
    OccurrencesAbsent(c, sep);
    OccurrencesJoin(c, parts, sep);
    assert (|parts| - 1) * Occurrences(c, sep) == 0;
  }

  /** The single-operand operators add no parenthesis. */
  lemma UnaryKeepsParentheses(c: char, op: Op, p: string)
    requires c == '(' || c == ')'
    requires op.Not? || op.Boost?
    requires Apply(op, [p]).Ok?
    ensures Occurrences(c, Apply(op, [p]).value) == Occurrences(c, p)
  {
    if op.Not? {
      OccurrencesAppend(c, "!", p);
    } else {
      var n := op.factor.n;
      DecimalTextAlphabet(n);
      assert p + "^" + IntToString(n) == p + ("^" + IntToString(n));
      SuffixWithoutParentheses(c, p, "^" + IntToString(n));
    }
  }

  /** No operator writes a parenthesis of its own: the parentheses in its
      output are those of its inputs. */
  lemma ApplyKeepsParentheses(op: Op, parts: seq<string>, c: char)
    requires c == '(' || c == ')'
    requires parts != [] && Apply(op, parts).Ok?
    ensures Occurrences(c, Apply(op, parts).value) == Total(OccurrencesEach(c, parts))
  {
    match op
    case And =>
      JoinKeepsParentheses(c, parts, " AND ");
    case Or =>
      JoinKeepsParentheses(c, parts, " OR ");
    case _ =>
      assert parts == [parts[0]];
      TotalOfOne(c, parts[0]);
      UnaryKeepsParentheses(c, op, parts[0]);
  }

  lemma {:induction false} OccurrencesAbsent(c: char, s: string)
    requires forall i :: 0 <= i < |s| ==> s[i] != c
    ensures Occurrences(c, s) == 0
    decreases |s|
  {
    if s != [] {
      OccurrencesAbsent(c, s[1..]);
    }
  }
}
