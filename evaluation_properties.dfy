/** Properties of expression evaluation that relate several evaluations. */
module EvaluationProperties {
  import opened MustacheValues
  import opened Expressions
  import opened Evaluation

  /** Evaluation consults the context only for the identifiers the expression
      names at its top level and, when it uses `.`, for the top value: two
      contexts that agree there give the same result. In particular, the
      identifier after a dot is never looked up in the context. */
  lemma {:induction false} EvalReadsOnlyItsIdentifiers(e: Expression, c1: Context, c2: Context, h: Host)
    requires forall id :: id in ContextIdentifiers(e) ==> h.contextValue(c1, id) == h.contextValue(c2, id)
    requires UsesImplicitIterator(e) ==> h.topValue(c1) == h.topValue(c2)
    ensures Eval(e, c1, h) == Eval(e, c2, h)
  {
    match e
    case Identifier(_) =>
    case ImplicitIterator =>
    case Scoped(base, _) =>
      EvalReadsOnlyItsIdentifiers(base, c1, c2, h);
    case Filtered(f, a, _) =>
      EvalReadsOnlyItsIdentifiers(f, c1, c2, h);
      EvalReadsOnlyItsIdentifiers(a, c1, c2, h);
  }

  /** Looking up each identifier of `path` in turn, each in the value the previous lookup gave. */
  function LookupPath(v: Value, path: seq<Identifier>, h: Host): Value
    decreases |path|
  {
    if path == [] then v
    else h.valueForIdentifier(LookupPath(v, path[..|path| - 1], h), path[|path| - 1])
  }

  /** `base.p0.p1...` fails exactly when `base` does, with the same error;
      otherwise its value is found by looking the path up in the base value
      alone, one identifier after the other. */
  lemma {:induction false} DottedAccess(base: Expression, path: seq<Identifier>, ctx: Context, h: Host)
    ensures Eval(Dotted(base, path), ctx, h) ==
      match Eval(base, ctx, h)
      case Failure(k) => Failure(k)
      case Success(v) => Success(LookupPath(v, path, h))
    decreases |path|
  {
    if path != [] {
      DottedAccess(base, path[..|path| - 1], ctx, h);
    }
  }

  /** Binding `args` to `filter` one after the other; none once a binding is refused. */
  function CurryAll(filter: Filter, args: seq<Value>, h: Host): Option<Filter>
    decreases |args|
  {
    if args == [] then Some(filter)
    else match CurryAll(filter, args[..|args| - 1], h)
      case None => None
      case Some(g) => h.curry(g, args[|args| - 1])
  }

  /** Binding the arguments `a0, ..., an` of a call to a filter whose
      arguments all evaluate, where the filter position is a filter value or
      a custom object exposing a filter: the result is the filter with every
      argument bound, or "Too many arguments" as soon as one binding is refused. */
  lemma {:induction false} CurriedCallBindsInOrder(
    filterExpr: Expression, filter: Filter, args: seq<Expression>, values: seq<Value>, ctx: Context, h: Host)
    requires Eval(filterExpr, ctx, h).Success? && ClassifyFilter(Eval(filterExpr, ctx, h).value, h) == Success(filter)
    requires args != [] && |values| == |args|
    requires forall i :: 0 <= i < |args| ==> Eval(args[i], ctx, h) == Success(values[i])
    ensures Eval(CurriedCall(filterExpr, args), ctx, h) ==
      match CurryAll(filter, values, h)
      case Some(g) => Success(FilterValue(g))
      case None => Failure(TooManyArguments)
    decreases |args|
  {
    var n := |args| - 1;
    assert Eval(args[n], ctx, h) == Success(values[n]);
    assert values[..n] == values[..|values| - 1];
    if n == 0 {
      assert CurriedCall(filterExpr, args[..0]) == filterExpr;
      assert values[..0] == [];
    } else {
      CurriedCallBindsInOrder(filterExpr, filter, args[..n], values[..n], ctx, h);
    }
  }

  /** The last argument of a call is applied, not curried: `f(a0, ..., an, last)`
      transforms `last` with the filter that has every earlier argument bound,
      whether the filter position is a filter value or a custom object
      exposing a filter, provided the arguments and `last` all evaluate. */
  lemma FullCallTransforms(
    filterExpr: Expression, filter: Filter, args: seq<Expression>, values: seq<Value>,
    last: Expression, lastValue: Value, ctx: Context, h: Host)
    requires Eval(filterExpr, ctx, h).Success? && ClassifyFilter(Eval(filterExpr, ctx, h).value, h) == Success(filter)
    requires |values| == |args|
    requires forall i :: 0 <= i < |args| ==> Eval(args[i], ctx, h) == Success(values[i])
    requires Eval(last, ctx, h) == Success(lastValue)
    ensures Eval(Filtered(CurriedCall(filterExpr, args), last, false), ctx, h) ==
      match CurryAll(filter, values, h)
      case Some(g) => Success(h.transform(g, lastValue))
      case None => Failure(TooManyArguments)
  {
    if args != [] {
      CurriedCallBindsInOrder(filterExpr, filter, args, values, ctx, h);
    }
  }
}
