/** The meaning of an expression: the value it evaluates to in a context, or
    the first error met on the way. This is the specification the visiting
    methods of `ExpressionInvocation` are proved against. */
module Evaluation {
  import opened MustacheValues
  import opened Expressions

  /** The filter that a value in filter position stands for, or why it stands for none. */
  function ClassifyFilter(filterValue: Value, h: Host): (r: Result<Filter>)
    ensures r.Success? <==>
      filterValue.FilterValue? || (filterValue.CustomValue? && h.mustacheFilter(filterValue.obj).Some?)
    ensures filterValue.FilterValue? ==> r == Success(filterValue.filter)
    ensures filterValue.CustomValue? && r.Success? ==> Some(r.value) == h.mustacheFilter(filterValue.obj)
    ensures r.Failure? ==> (r.error == MissingFilter <==> filterValue.Absent?)
    ensures r.Failure? ==> r.error != TooManyArguments
  {
    match filterValue
    case FilterValue(filter) => Success(filter)
    case CustomValue(obj) =>
      (match h.mustacheFilter(obj)
       case Some(filter) => Success(filter)
       case None => Failure(NotAFilter))
    case Absent => Failure(MissingFilter)
    case Other(_) => Failure(NotAFilter)
  }

  /** Applies `filter` to `argument`: a curried application binds the argument
      and yields the new filter as a value, a final one transforms the argument. */
  function Apply(filter: Filter, argument: Value, curried: bool, h: Host): (r: Result<Value>)
    ensures r.Failure? <==> curried && h.curry(filter, argument).None?
    ensures r.Failure? ==> r.error == TooManyArguments
    ensures curried && r.Success? ==> r.value.FilterValue? && Some(r.value.filter) == h.curry(filter, argument)
    ensures !curried ==> r.Success? && r.value == h.transform(filter, argument)
  {
    if curried then
      match h.curry(filter, argument)
      case Some(curriedFilter) => Success(FilterValue(curriedFilter))
      case None => Failure(TooManyArguments)
    else
      Success(h.transform(filter, argument))
  }

  /** Evaluates `e` in `ctx`. Identifiers are looked up in the context, `.` is
      the context's top value, `base.id` looks `id` up in the base value, and a
      filter application evaluates the filter, then the argument, and stops
      at the first failure. */
  function Eval(e: Expression, ctx: Context, h: Host): (r: Result<Value>)
    ensures r.Failure? ==> HasFilter(e)
    ensures e.Filtered? && e.curried && r.Success? ==> r.value.FilterValue?
  {
    match e
    case Identifier(id) => Success(h.contextValue(ctx, id))
    case ImplicitIterator => Success(h.topValue(ctx))
    case Scoped(base, id) =>
      (match Eval(base, ctx, h)
       case Failure(k) => Failure(k)
       case Success(v) => Success(h.valueForIdentifier(v, id)))
    case Filtered(filterExpression, argumentExpression, curried) =>
      match Eval(filterExpression, ctx, h)
      case Failure(k) => Failure(k)
      case Success(filterValue) =>
        match Eval(argumentExpression, ctx, h)
        case Failure(k) => Failure(k)
        case Success(argumentValue) =>
          match ClassifyFilter(filterValue, h)
          case Failure(k) => Failure(k)
          case Success(filter) => Apply(filter, argumentValue, curried, h)
  }

  /** What the shared value register holds after a failed evaluation of `e`:
      the last value a successful sub-evaluation stored there, which is the
      argument value of the filter application that failed. It does not
      depend on what the register held before. */
  function Leftover(e: Expression, ctx: Context, h: Host): (r: Value)
    requires Eval(e, ctx, h).Failure?
    ensures r == Eval(FailingNode(e, ctx, h).argumentExpression, ctx, h).value
  {
    match e
    case Scoped(base, _) => Leftover(base, ctx, h)
    case Filtered(f, a, _) =>
      if Eval(f, ctx, h).Failure? then Leftover(f, ctx, h)
      else if Eval(a, ctx, h).Failure? then Leftover(a, ctx, h)
      else Eval(a, ctx, h).value
  }

  /** The filter application inside `e` whose failure `e` reports: both of
      its operands evaluate, and its own evaluation fails with exactly the
      error of `e`. Failures come only from filter applications and travel
      up unchanged. */
  function FailingNode(e: Expression, ctx: Context, h: Host): (n: Expression)
    requires Eval(e, ctx, h).Failure?
    ensures n.Filtered? && IsSubExpression(n, e)
    ensures Eval(n.filterExpression, ctx, h).Success? && Eval(n.argumentExpression, ctx, h).Success?
    ensures Eval(n, ctx, h) == Eval(e, ctx, h)
  {
    match e
    case Scoped(base, _) => FailingNode(base, ctx, h)
    case Filtered(f, a, _) =>
      if Eval(f, ctx, h).Failure? then FailingNode(f, ctx, h)
      else if Eval(a, ctx, h).Failure? then FailingNode(a, ctx, h)
      else e
  }
}
