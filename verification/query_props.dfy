/** Properties of query trees: exactly which trees compile, how the
    parenthesis flag acts, how many parentheses compilation writes, and what
    the tree builders compile to. */
module QueryProperties {
  import opened Errors
  import opened Decimal
  import opened Values
  import opened Operators
  import opened Query

  /** Trees that compile: no empty object anywhere, every node has children
      and an operator that accepts that many (and a numeric boost factor). */
  predicate Compilable(q: Q)
    decreases q
  {
    match q
    case Leaf(_, _) => true
    case Empty => false
    case Node(cs, op) => cs != [] && Accepts(op, |cs|) && forall i :: 0 <= i < |cs| ==> Compilable(cs[i])
  }

  /** Number of internal nodes. */
  function Nodes(q: Q): nat
    decreases q
  {
    match q
    case Node(cs, _) => 1 + Total(seq(|cs|, i requires 0 <= i < |cs| => Nodes(cs[i])))
    case _ => 0
  }

  /** Occurrences of c in the `field:value` texts of the leaves. */
  function LeafOccurrences(c: char, q: Q): nat
    decreases q
  {
    match q
    case Leaf(field, v) => Occurrences(c, field + ":" + Render(v))
    case Node(cs, _) => Total(seq(|cs|, i requires 0 <= i < |cs| => LeafOccurrences(c, cs[i])))
    case Empty => 0
  }

  /** Compilation succeeds exactly on compilable trees, whichever way the
      parenthesis flag is set. */
  lemma {:induction false} CompileSucceedsIff(q: Q, parens: bool)
    ensures Compile(q, parens).Ok? <==> Compilable(q)
    decreases q
  {
    match q
    case Leaf(_, _) =>
    case Empty =>
    case Node(cs, op) =>
      if cs != [] {
        forall i | 0 <= i < |cs|
          ensures Compile(cs[i], true).Ok? <==> Compilable(cs[i])
        {
          CompileSucceedsIff(cs[i], true);
        }
        var rs := CompileChildren(cs);
        if Collect(rs).Ok? {
          var parts := Collect(rs).value;
          ApplyFailsIff(op, parts);
          assert Compile(q, parens).Ok? <==> Apply(op, parts).Ok?;
        }
      }
  }

  /** The parenthesis flag wraps a compiled node in one pair of parentheses
      and leaves a leaf alone; it never changes whether compilation fails. */
  lemma CompileParenthesisFlag(q: Q)
    ensures Compile(q, true).Ok? == Compile(q, false).Ok?
    ensures Compile(q, false).Ok? ==>
              Compile(q, true).value ==
                (if q.Node? then "(" + Compile(q, false).value + ")" else Compile(q, false).value)
  {
  }

  lemma {:induction false} TotalSum(xs: seq<nat>, ys: seq<nat>, zs: seq<nat>)
    requires |xs| == |ys| == |zs|
    requires forall i :: 0 <= i < |xs| ==> xs[i] == ys[i] + zs[i]
    ensures Total(xs) == Total(ys) + Total(zs)
    decreases |xs|
  {
    if xs != [] {
      TotalSum(xs[1..], ys[1..], zs[1..]);
    }
  }

  lemma OccurrencesWrapped(c: char, s: string)
    requires c == '(' || c == ')'
    ensures Occurrences(c, "(" + s + ")") == Occurrences(c, s) + 1
  {
    OccurrencesAppend(c, "(" + s, ")");
    OccurrencesAppend(c, "(", s);
  }

  /** Compilation writes exactly one '(' and one ')' for every internal node
      except an unparenthesised root; every other parenthesis in the output
      comes from a leaf's `field:value` text. */
  lemma {:induction false} CompileParentheses(q: Q, parens: bool, c: char)
    requires c == '(' || c == ')'
    requires Compile(q, parens).Ok?
    ensures Occurrences(c, Compile(q, parens).value)
            == LeafOccurrences(c, q) + Nodes(q) - (if q.Node? && !parens then 1 else 0)
    decreases q
  {
    match q
    case Leaf(_, _) =>
    case Node(cs, op) =>
      var parts := Collect(CompileChildren(cs)).value;
      var s := Apply(op, parts).value;
      var leafCounts := seq(|cs|, i requires 0 <= i < |cs| => LeafOccurrences(c, cs[i]));
      var nodeCounts := seq(|cs|, i requires 0 <= i < |cs| => Nodes(cs[i]));
      forall i | 0 <= i < |cs|
        ensures OccurrencesEach(c, parts)[i] == leafCounts[i] + nodeCounts[i]
      {
        CompileParentheses(cs[i], true, c);
      }
      TotalSum(OccurrencesEach(c, parts), leafCounts, nodeCounts);
      ApplyKeepsParentheses(op, parts, c);
      if parens {
        OccurrencesWrapped(c, s);
      }
  }

  /** The root of a compiled tree is not wrapped: compiled without the flag,
      a tree has one parenthesis pair fewer than as a child. */
  lemma RootIsNotParenthesised(q: Q, c: char)
    requires c == '(' || c == ')'
    requires q.Node? && Compile(q, false).Ok?
    ensures Occurrences(c, Compile(q, true).value) == Occurrences(c, Compile(q, false).value) + 1
  {
    CompileParenthesisFlag(q);
    CompileParentheses(q, true, c);
    CompileParentheses(q, false, c);
  }

  /** The builders `&`, `|`, `~` and `^` compile to the operator applied to
      the operands compiled as children, and keep (or, for a non-numeric
      factor, break) compilability. */
  lemma BuildersCompile(a: Q, b: Q, n: int)
    requires Compile(a, true).Ok? && Compile(b, true).Ok?
    ensures Compile(AndQ(a, b), false) == Ok(Compile(a, true).value + " AND " + Compile(b, true).value)
    ensures Compile(OrQ(a, b), false) == Ok(Compile(a, true).value + " OR " + Compile(b, true).value)
    ensures Compile(InvertQ(a), false) == Ok("!" + Compile(a, true).value)
    ensures Compile(BoostQ(a, IntFactor(n)), false) == Ok(Compile(a, true).value + "^" + IntToString(n))
    ensures Compile(BoostQ(a, NonNumeric), false) == Err(TypeError)
  {
    assert CompileChildren([a, b]) == [Compile(a, true), Compile(b, true)];
    assert CompileChildren([a]) == [Compile(a, true)];
    var pair := Collect(CompileChildren([a, b]));
    assert pair.value == [Compile(a, true).value, Compile(b, true).value];
    assert Join(pair.value, " AND ") == Compile(a, true).value + " AND " + Join([Compile(b, true).value], " AND ");
    assert Join(pair.value, " OR ") == Compile(a, true).value + " OR " + Join([Compile(b, true).value], " OR ");
  }

  /** Builders preserve compilability, except a boost by a non-number. */
  lemma BuildersCompilable(a: Q, b: Q, f: Factor)
    ensures Compilable(AndQ(a, b)) <==> Compilable(a) && Compilable(b)
    ensures Compilable(OrQ(a, b)) <==> Compilable(a) && Compilable(b)
    ensures Compilable(InvertQ(a)) <==> Compilable(a)
    ensures Compilable(BoostQ(a, f)) <==> Compilable(a) && f.IntFactor?
  {
    assert AndQ(a, b).children[0] == a && AndQ(a, b).children[1] == b;
    assert OrQ(a, b).children[0] == a && OrQ(a, b).children[1] == b;
    assert InvertQ(a).children[0] == a;
    assert BoostQ(a, f).children[0] == a;
  }

  /** Several keywords build a node over one leaf per keyword; leaves are
      never parenthesised, so the node compiles to the operator applied to
      the `field:value` texts in keyword order. */
  lemma ImplicitNodeCompile(op: Op, kwargs: seq<(string, Obj)>)
    requires |kwargs| >= 2
    ensures MakeQ([], op, kwargs).Ok?
    ensures Compile(MakeQ([], op, kwargs).value, false)
            == Apply(op, seq(|kwargs|, i requires 0 <= i < |kwargs| => kwargs[i].0 + ":" + Render(AsQueryValue(kwargs[i].1))))
  {
    var q := MakeQ([], op, kwargs).value;
    var parts := seq(|kwargs|, i requires 0 <= i < |kwargs| => kwargs[i].0 + ":" + Render(AsQueryValue(kwargs[i].1)));
    var rs := CompileChildren(q.children);
    assert forall i :: 0 <= i < |rs| ==> rs[i] == Ok(parts[i]);
    assert Collect(rs).Ok?;
    assert Collect(rs).value == parts;
  }

  /** A node with an empty object among its children cannot be compiled. */
  lemma EmptyBlocksCompile(q: Q)
    requires q.Node? && exists i :: 0 <= i < |q.children| && q.children[i] == Empty
    ensures forall parens: bool :: Compile(q, parens).Err?
  {
    forall parens: bool
      ensures Compile(q, parens).Err?
    {
      CompileSucceedsIff(q, parens);
    }
  }
}
