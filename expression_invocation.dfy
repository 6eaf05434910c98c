/** The evaluator as the renderer runs it: an object that visits an
    expression tree and passes every intermediate result through one shared
    value register, reporting failure by a boolean and an optional error slot. */
module Rendering {
  import opened MustacheValues
  import opened Expressions
  import opened Evaluation

  /** The place a caller may provide for the error of a failed evaluation. */
  class ErrorSlot {
    var error: Option<ErrorKind>

    constructor ()
      ensures error == None
    {
      error := None;
    }
  }

  class ExpressionInvocation {
    const expression: Expression
    /** The collaborators the visits call out to. */
    const host: Host
    var value: Value
    var context: Option<Context>

    constructor (expression: Expression, host: Host)
      ensures this.expression == expression && this.host == host
      ensures value == Absent && context == None
    {
      this.expression := expression;
      this.host := host;
      value := Absent;
      context := None;
    }

    /** Evaluates the expression in `ctx`. The register `value` ends up with
        the expression's value on success; on failure the error is stored in
        `outError` when there is one. Nothing left over from an earlier
        invocation influences the outcome or the register. */
    method InvokeWithContext(ctx: Context, outError: ErrorSlot?) returns (ok: bool)
      modifies this, outError
      ensures context == Some(ctx)
      ensures ok == Eval(expression, ctx, host).Success?
      ensures ok ==> value == Eval(expression, ctx, host).value
      ensures !ok ==> value == Leftover(expression, ctx, host)
      ensures outError != null ==>
        outError.error == if ok then old(outError.error) else Some(Eval(expression, ctx, host).error)
    {
      context := Some(ctx);
      ok := Visit(expression, outError);
    }

    /** Dispatches on the kind of `e`. */
    method Visit(e: Expression, outError: ErrorSlot?) returns (ok: bool)
      requires context.Some?
      modifies this`value, outError
      ensures ok == Eval(e, context.value, host).Success?
      ensures ok ==> value == Eval(e, context.value, host).value
      ensures !ok ==> value == Leftover(e, context.value, host)
      ensures outError != null ==>
        outError.error == if ok then old(outError.error) else Some(Eval(e, context.value, host).error)
      decreases e, 1
    {
      match e
      case Filtered(_, _, _) => ok := VisitFiltered(e, outError);
      case Identifier(_) => ok := VisitIdentifier(e, outError);
      case ImplicitIterator => ok := VisitImplicitIterator(e, outError);
      case Scoped(_, _) => ok := VisitScoped(e, outError);
    }

    /** Evaluates the filter, keeps its value before evaluating the argument
        overwrites the register, then applies the filter to the argument. */
    method VisitFiltered(e: Expression, outError: ErrorSlot?) returns (ok: bool)
      requires e.Filtered? && context.Some?
      modifies this`value, outError
      ensures ok == Eval(e, context.value, host).Success?
      ensures ok ==> value == Eval(e, context.value, host).value
      ensures !ok ==> value == Leftover(e, context.value, host)
      ensures outError != null ==>
        outError.error == if ok then old(outError.error) else Some(Eval(e, context.value, host).error)
      decreases e, 0
    {
      ok := Visit(e.filterExpression, outError);
      if !ok {
        return;
      }
      var filterValue := value;

      ok := Visit(e.argumentExpression, outError);
      if !ok {
        return;
      }
      var argumentValue := value;

      match filterValue
      case FilterValue(filter) =>
        ok := VisitFilter(filter, argumentValue, e.curried, outError);
      case CustomValue(obj) =>
        match host.mustacheFilter(obj) {
          case Some(filter) =>
            ok := VisitFilter(filter, argumentValue, e.curried, outError);
          case None =>
            if outError != null {
              outError.error := Some(NotAFilter);
            }
            ok := false;
        }
      case Absent =>
        if outError != null {
          outError.error := Some(MissingFilter);
        }
        ok := false;
      case Other(_) =>
        if outError != null {
          outError.error := Some(NotAFilter);
        }
        ok := false;
    }

    /** Stores the context's value for the identifier. */
    method VisitIdentifier(e: Expression, outError: ErrorSlot?) returns (ok: bool)
      requires e.Identifier? && context.Some?
      modifies this`value
      ensures ok && value == host.contextValue(context.value, e.identifier)
      ensures ok == Eval(e, context.value, host).Success? && value == Eval(e, context.value, host).value
    {
      value := host.contextValue(context.value, e.identifier);
      ok := true;
    }

    /** Stores the context's top value. */
    method VisitImplicitIterator(e: Expression, outError: ErrorSlot?) returns (ok: bool)
      requires e.ImplicitIterator? && context.Some?
      modifies this`value
      ensures ok && value == host.topValue(context.value)
      ensures ok == Eval(e, context.value, host).Success? && value == Eval(e, context.value, host).value
    {
      value := host.topValue(context.value);
      ok := true;
    }

    /** Evaluates the base, then replaces the register with the base value's
        own value for the identifier. */
    method VisitScoped(e: Expression, outError: ErrorSlot?) returns (ok: bool)
      requires e.Scoped? && context.Some?
      modifies this`value, outError
      ensures ok == Eval(e.baseExpression, context.value, host).Success?
      ensures ok ==> value == host.valueForIdentifier(Eval(e.baseExpression, context.value, host).value, e.identifier)
      ensures ok == Eval(e, context.value, host).Success?
      ensures ok ==> value == Eval(e, context.value, host).value
      ensures !ok ==> value == Leftover(e, context.value, host)
      ensures outError != null ==>
        outError.error == if ok then old(outError.error) else Some(Eval(e, context.value, host).error)
      decreases e, 0
    {
      ok := Visit(e.baseExpression, outError);
      if !ok {
        return;
      }
      value := host.valueForIdentifier(value, e.identifier);
      ok := true;
    }

    /** Applies `filter` to `argumentValue`: when curried, stores the filter
        with the argument bound, or fails with "Too many arguments" when the
        filter takes no more; otherwise stores the transformed argument. */
    method VisitFilter(filter: Filter, argumentValue: Value, curried: bool, outError: ErrorSlot?) returns (ok: bool)
      modifies this`value, outError
      ensures ok == Apply(filter, argumentValue, curried, host).Success?
      ensures ok ==> value == Apply(filter, argumentValue, curried, host).value
      ensures !ok ==> value == old(value)
      ensures outError != null ==>
        outError.error == if ok then old(outError.error) else Some(TooManyArguments)
    {
      if curried {
        match host.curry(filter, argumentValue)
        case Some(curriedFilter) =>
          value := FilterValue(curriedFilter);
        case None =>
          if outError != null {
            outError.error := Some(TooManyArguments);
          }
          return false;
      } else {
        value := host.transform(filter, argumentValue);
      }
      return true;
    }
  }
}
