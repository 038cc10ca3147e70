/** Query trees (`Q`) and their compilation to a query string.

    A Q object is a leaf (`field:value`), an internal node (children joined
    by an operator routine) or, when built from nothing, an object with
    neither, which cannot be compiled. Compiling a node compiles every child
    with parentheses requested, applies the node's operator, and parenthesises
    the result only when the node itself was asked to, so the root is never
    parenthesised and every internal child is. */
module Query {
  import opened Errors
  import opened Escaping
  import opened Values
  import opened Operators

  datatype Q =
    | Leaf(field: string, query: Value)
    | Node(children: seq<Q>, op: Op)
    | Empty  // `Q()`: no field and no children

  /** The value of a keyword argument: a Value is kept, anything else is
      wrapped in `Value(x)`. */
  function AsQueryValue(o: Obj): (v: Value)
    ensures o.Val? ==> v == o.v
    ensures o.Raw? ==> v == NewValue(o, false)
    ensures o.Val? ==> Render(v) == Render(o.v)
    ensures o.Raw? && o.x.Text? ==> !v.safe && Render(v) == Escape(o.x.s)
  {
    if o.Val? then o.v else NewValue(o, false)
  }

  /** `Q(children=..., op=..., **kwargs)`; kwargs in the order the caller's
      mapping yields them. */
  function MakeQ(children: seq<Q>, op: Op, kwargs: seq<(string, Obj)>): (r: Result<Q>)
    ensures r.Err? <==> kwargs != [] && children != []
    ensures r.Err? ==> r.error == ValueError
    ensures |kwargs| == 1 && children == [] ==> r == Ok(Leaf(kwargs[0].0, AsQueryValue(kwargs[0].1)))
    ensures |kwargs| > 1 && children == [] ==>
              && r.Ok? && r.value.Node? && r.value.op == op
              && |r.value.children| == |kwargs|
              && forall i :: 0 <= i < |kwargs| ==>
                   r.value.children[i] == Leaf(kwargs[i].0, AsQueryValue(kwargs[i].1))
    ensures kwargs == [] && children != [] ==> r == Ok(Node(children, op))
    ensures kwargs == [] && children == [] ==> r == Ok(Empty)
  {
    if kwargs != [] && children != [] then Err(ValueError)
    else if |kwargs| == 1 then Ok(Leaf(kwargs[0].0, AsQueryValue(kwargs[0].1)))
    else if kwargs != [] then
      Ok(Node(seq(|kwargs|, i requires 0 <= i < |kwargs| => Leaf(kwargs[i].0, AsQueryValue(kwargs[i].1))), op))
    else if children != [] then Ok(Node(children, op))
    else Ok(Empty)
  }

  /** `a & b`. */
  function AndQ(a: Q, b: Q): Q {
    Node([a, b], And)
  }

  /** `a | b`. */
  function OrQ(a: Q, b: Q): Q {
    Node([a, b], Or)
  }

  /** `~a`. */
  function InvertQ(a: Q): Q {
    Node([a], Not)
  }

  /** `a ^ factor`; the factor is only checked when the node is compiled. */
  function BoostQ(a: Q, factor: Factor): Q {
    Node([a], Boost(factor))
  }

  /** The children's texts in order, or the first child's error (the list
      comprehension of the source evaluates left to right). */
  function Collect(rs: seq<Result<string>>): (r: Result<seq<string>>)
    ensures r.Ok? <==> forall i :: 0 <= i < |rs| ==> rs[i].Ok?
    ensures r.Ok? ==> |r.value| == |rs| && forall i :: 0 <= i < |rs| ==> r.value[i] == rs[i].value
    ensures r.Err? ==> exists i :: 0 <= i < |rs| && rs[i] == Err(r.error) && forall j :: 0 <= j < i ==> rs[j].Ok?
    decreases |rs|
  {
    if rs == [] then Ok([])
    else
      var head :- rs[0];
      var tail :- Collect(rs[1..]);
      Ok([head] + tail)
  }

  /** The children compiled with parentheses requested. */
  function CompileChildren(cs: seq<Q>): (rs: seq<Result<string>>)
    ensures |rs| == |cs|
    ensures forall i :: 0 <= i < |cs| ==> rs[i] == Compile(cs[i], true)
    decreases cs, 0
  {
    seq(|cs|, i requires 0 <= i < |cs| => Compile(cs[i], true))
  }

  /** `Q.compile(extra_parenthesis)`. */
  function Compile(q: Q, parens: bool): Result<string>
    decreases q, 1
  {
    match q
    case Leaf(field, v) => Ok(field + ":" + Render(v))
    case Empty => Err(AttributeError)
    case Node(cs, op) =>
      if cs == [] then Err(AttributeError)  // no children: compiled as a leaf, which has no field
      else
        var parts :- Collect(CompileChildren(cs));
        var s :- Apply(op, parts);
        Ok(if parens then "(" + s + ")" else s)
  }
}
