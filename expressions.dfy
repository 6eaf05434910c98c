/** Compiled template expressions: the closed set of expression kinds that
    the evaluator visits. */
module Expressions {
  import opened MustacheValues

  datatype Expression =
    | Filtered(filterExpression: Expression, argumentExpression: Expression, curried: bool)
    | Identifier(identifier: Identifier)
    | ImplicitIterator
    | Scoped(baseExpression: Expression, identifier: Identifier)

  /** Does `e` contain a filter application? */
  predicate HasFilter(e: Expression) {
    match e
    case Filtered(_, _, _) => true
    case Identifier(_) => false
    case ImplicitIterator => false
    case Scoped(base, _) => HasFilter(base)
  }

  /** Is `n` the expression `e` itself or one of its sub-expressions? */
  predicate IsSubExpression(n: Expression, e: Expression) {
    n == e ||
    match e
    case Filtered(f, a, _) => IsSubExpression(n, f) || IsSubExpression(n, a)
    case Identifier(_) => false
    case ImplicitIterator => false
    case Scoped(base, _) => IsSubExpression(n, base)
  }

  /** The identifiers that `e` looks up in the context. The identifier after
      a dot is looked up in the base value, so it does not belong here. */
  function ContextIdentifiers(e: Expression): set<Identifier> {
    match e
    case Filtered(f, a, _) => ContextIdentifiers(f) + ContextIdentifiers(a)
    case Identifier(id) => {id}
    case ImplicitIterator => {}
    case Scoped(base, _) => ContextIdentifiers(base)
  }

  /** Does `e` read the context's top value through `.`? */
  predicate UsesImplicitIterator(e: Expression) {
    match e
    case Filtered(f, a, _) => UsesImplicitIterator(f) || UsesImplicitIterator(a)
    case Identifier(_) => false
    case ImplicitIterator => true
    case Scoped(base, _) => UsesImplicitIterator(base)
  }

  /** The dotted expression `base.p0.p1...` as nested scoped expressions. */
  function Dotted(base: Expression, path: seq<Identifier>): Expression
    decreases |path|
  {
    if path == [] then base
    else Scoped(Dotted(base, path[..|path| - 1]), path[|path| - 1])
  }

  /** The filter `filter` with `args` bound one after the other, each by a
      curried filter application: the part of a call `f(a0, ..., an, last)`
      that precedes the final application to `last`. */
  function CurriedCall(filter: Expression, args: seq<Expression>): Expression
    decreases |args|
  {
    if args == [] then filter
    else Filtered(CurriedCall(filter, args[..|args| - 1]), args[|args| - 1], true)
  }
}
