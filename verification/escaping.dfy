/** Character escaping of unsafe values (`Value._escape`).

    The source substitutes, left to right, every match of a one-character
    pattern: a reserved character that is not preceded by a backslash in the
    INPUT string, replacing it with a backslash and the character itself.
    `EscapeFrom` is that scan. Its partners are the lookbehind predicate
    `EscapedAt`, which says per input position whether the pattern matches
    there (`EscapeSnoc`, `EscapePointwise`, `EscapeByLookbehind`), and the
    decoder `Unescape`, which undoes it (`UnescapeEscape`). */
module Escaping {

  /** The character class of the escaping pattern: space & | + \ - ! ( ) { } [ ] * ^ " ~ ? : */
  predicate IsReserved(c: char) {
    c in {' ', '&', '|', '+', '\\', '-', '!', '(', ')', '{', '}', '[', ']', '*', '^', '"', '~', '?', ':'}
  }

  /** The pattern matches at position i of the input: a reserved character
      whose input predecessor, if any, is not a backslash. */
  predicate EscapedAt(s: string, i: nat)
    requires i < |s|
  {
    IsReserved(s[i]) && (i == 0 || s[i - 1] != '\\')
  }

  /** The left-to-right substitution; afterBackslash tells whether the input
      character just before s was a backslash. */
  function EscapeFrom(s: string, afterBackslash: bool): string
    decreases |s|
  {
    if s == [] then [] else EscapeChar(s[0], afterBackslash) + EscapeFrom(s[1..], s[0] == '\\')
  }

  /** One input character: a reserved one not behind a backslash gets a
      backslash in front. */
  function EscapeChar(c: char, afterBackslash: bool): string {
    if IsReserved(c) && !afterBackslash then ['\\', c] else [c]
  }

  /** `Value._escape`. */
  function Escape(s: string): string {
    EscapeFrom(s, false)
  }

  /** Number of positions of s where the pattern matches. */
  function Escapes(s: string): nat
    decreases |s|
  {
    if s == [] then 0 else Escapes(s[..|s| - 1]) + (if EscapedAt(s, |s| - 1) then 1 else 0)
  }

  /** Decoder for the escaped text: outside an escaped pair, a backslash is
      always one the scan inserted. */
  function UnescapeFrom(r: string, afterBackslash: bool): string
    decreases |r|
  {
    if r == [] then []
    else if !afterBackslash && r[0] == '\\' && |r| >= 2 then [r[1]] + UnescapeFrom(r[2..], r[1] == '\\')
    else [r[0]] + UnescapeFrom(r[1..], r[0] == '\\')
  }

  function Unescape(r: string): string {
    UnescapeFrom(r, false)
  }

  lemma {:induction false} UnescapeEscapeFrom(s: string, b: bool)
    ensures UnescapeFrom(EscapeFrom(s, b), b) == s
    decreases |s|
  {
    if s != [] {
      var rest := EscapeFrom(s[1..], s[0] == '\\');
      UnescapeEscapeFrom(s[1..], s[0] == '\\');
      if IsReserved(s[0]) && !b {
        var r := ['\\', s[0]] + rest;
        assert r[2..] == rest;
      } else {
        var r := [s[0]] + rest;
        assert r[1..] == rest;
      }
    }
  }

  /** Escaping loses nothing: the escaped text determines the input. */
  lemma UnescapeEscape(s: string)
    ensures Unescape(Escape(s)) == s
  {
    UnescapeEscapeFrom(s, false);
  }

  lemma EscapeIsInjective(s: string, t: string)
    ensures Escape(s) == Escape(t) ==> s == t
  {
    UnescapeEscape(s);
    UnescapeEscape(t);
  }

  /** Escaping a concatenation: the second part is scanned knowing whether
      the first ended in a backslash. */
  lemma {:induction false} EscapeFromAppend(a: string, b: string, f: bool)
    ensures EscapeFrom(a + b, f) == EscapeFrom(a, f) + EscapeFrom(b, if a == [] then f else a[|a| - 1] == '\\')
    decreases |a|
  {
    if a == [] {
      assert a + b == b;
    } else {
      assert (a + b)[1..] == a[1..] + b;
      EscapeFromAppend(a[1..], b, a[0] == '\\');
    }
  }

  /** Appending one character: it is escaped exactly when the pattern matches
      at its position in the input. */
  lemma EscapeSnoc(s: string, c: char)
    ensures Escape(s + [c]) == Escape(s) + (if EscapedAt(s + [c], |s|) then ['\\', c] else [c])
  {
    EscapeFromAppend(s, [c], false);
  }

  lemma EscapedAtPrefix(s: string, n: nat, i: nat)
    requires i < n <= |s|
    ensures EscapedAt(s[..n], i) == EscapedAt(s, i)
  {
  }

  lemma {:induction false} EscapeLength(s: string)
    ensures |Escape(s)| == |s| + Escapes(s)
    decreases |s|
  {
    if s != [] {
      var n := |s| - 1;
      assert s == s[..n] + [s[n]];
      EscapeSnoc(s[..n], s[n]);
      EscapeLength(s[..n]);
    }
  }

  /** The count is positive exactly when the pattern matches somewhere. */
  lemma {:induction false} EscapesPositive(s: string)
    ensures Escapes(s) > 0 <==> exists i :: 0 <= i < |s| && EscapedAt(s, i)
    decreases |s|
  {
    if s != [] {
      var n := |s| - 1;
      EscapesPositive(s[..n]);
      forall i | 0 <= i < n
        ensures EscapedAt(s[..n], i) == EscapedAt(s, i)
      {
        EscapedAtPrefix(s, n, i);
      }
    }
  }

  /** Extending the scanned prefix by one input position. */
  lemma EscapePrefixStep(s: string, i: nat)
    requires i < |s|
    ensures Escape(s[..i + 1]) == Escape(s[..i]) + (if EscapedAt(s, i) then ['\\', s[i]] else [s[i]])
  {
    assert s[..i + 1] == s[..i] + [s[i]];
    assert s[..i + 1][..i] == s[..i];
    EscapeSnoc(s[..i], s[i]);
  }

  /** A scan that tests each position with the lookbehind, as the regular
      expression does, computes the same text as the stateful scan. */
  method EscapeByLookbehind(s: string) returns (r: string)
    ensures r == Escape(s)
    ensures |r| == |s| + Escapes(s)
  {
    r := [];
    var i := 0;
    while i < |s|
      invariant 0 <= i <= |s|
      invariant r == Escape(s[..i])
    {
      EscapePrefixStep(s, i);
      if IsReserved(s[i]) && (i == 0 || s[i - 1] != '\\') {
        r := r + ['\\', s[i]];
      } else {
        r := r + [s[i]];
      }
      i := i + 1;
    }
    assert s[..i] == s;
    EscapeLength(s);
  }

  lemma {:induction false} EscapeLastChar(s: string)
    requires s != []
    ensures Escape(s) != [] && Escape(s)[|Escape(s)| - 1] == s[|s| - 1]
  {
    var n := |s| - 1;
    assert s == s[..n] + [s[n]];
    EscapeSnoc(s[..n], s[n]);
  }

  /** Where input character i lands: at offset |Escape(s[..i])| of the output,
      behind an inserted backslash exactly when the pattern matches there. */
  lemma EscapePointwise(s: string, i: nat)
    requires i < |s|
    ensures var j := |Escape(s[..i])|;
            if EscapedAt(s, i) then
              j + 1 < |Escape(s)| && Escape(s)[j] == '\\' && Escape(s)[j + 1] == s[i]
            else
              j < |Escape(s)| && Escape(s)[j] == s[i]
  {
    var p := s[..i + 1];
    assert p == s[..i] + [s[i]];
    EscapeSnoc(s[..i], s[i]);
    assert s == p + s[i + 1..];
    EscapeFromAppend(p, s[i + 1..], false);
    assert EscapedAt(p, i) == EscapedAt(s, i);
  }

  /** Text without a match is left as it is, and only such text. */
  lemma {:induction false} EscapeUnchangedIff(s: string)
    ensures Escape(s) == s <==> forall i :: 0 <= i < |s| ==> !EscapedAt(s, i)
    decreases |s|
  {
    EscapeLength(s);
    EscapesPositive(s);
    if s != [] && (forall i :: 0 <= i < |s| ==> !EscapedAt(s, i)) {
      var n := |s| - 1;
      assert s == s[..n] + [s[n]];
      forall i | 0 <= i < n
        ensures !EscapedAt(s[..n], i)
      {
        EscapedAtPrefix(s, n, i);
      }
      EscapeUnchangedIff(s[..n]);
      EscapeSnoc(s[..n], s[n]);
    }
  }

  /** Escaping is not idempotent: whenever it changes a text, escaping the
      result changes it again, because every backslash it inserts is itself
      a match (its input predecessor is not a backslash). */
  lemma EscapeNotIdempotent(s: string)
    requires Escape(s) != s
    ensures |Escape(Escape(s))| > |Escape(s)|
  {
    EscapeUnchangedIff(s);
    var i :| 0 <= i < |s| && EscapedAt(s, i);
    var t := Escape(s);
    var j := |Escape(s[..i])|;
    EscapePointwise(s, i);
    assert t[j] == '\\';
    if i > 0 {
      EscapeLastChar(s[..i]);
      var p := s[..i + 1];
      assert p == s[..i] + [s[i]];
      assert s == p + s[i + 1..];
      EscapeFromAppend(p, s[i + 1..], false);
      EscapeSnoc(s[..i], s[i]);
      assert t[j - 1] == Escape(s[..i])[j - 1] == s[i - 1];
    }
    assert EscapedAt(t, j);
    EscapesPositive(t);
    EscapeLength(t);
  }
}
