# GRMustache expression evaluation, modelled in Dafny

This project models how GRMustache evaluates a compiled template
expression against a rendering context. The source is `ExpressionInvocation`
in `GRMustache/Rendering/ExpressionInvocation.swift`. An invocation object
visits the expression tree. Every visit stores its result in one shared
register, `value`. Failure is reported by returning `false` and, when the
caller supplied an error pointer, by storing an error there.

There are four kinds of expression:

- An identifier is looked up in the context.
- The implicit iterator `.` is the context's top value.
- `base.id` looks `id` up in the base value itself, not in the context.
- A filter application `f(x)` evaluates the filter, then the argument, and
  then classifies the filter value. A filter value or a custom object that
  exposes a filter is applied. An empty value fails with "Missing filter",
  and anything else fails with "Not a filter". A curried application binds
  the argument and fails with "Too many arguments" when the filter refuses.
  A final application transforms the argument.

Files:

- `mustache_values.dfy`: the values and the three error kinds. It also
  holds `Host`, which records the behaviour of the collaborators whose code
  is outside this model: context lookup, the top value, value lookup, the
  filter a custom object exposes, currying and transformation. Contexts,
  host objects, filters and the contents of other values are abstract types.
- `expressions.dfy`: the closed expression datatype. It also has the
  syntactic helpers the lemmas use: the dotted path `a.b.c` as nested scoped
  expressions, and the arguments `a0, ..., an` of a call
  `f(a0, ..., an, last)` bound by nested curried filter applications.
- `evaluation.dfy`: the pure specification `Eval`. Its parts are
  `ClassifyFilter` and `Apply`. `Leftover` gives the register's content after
  a failure, and `FailingNode` shows where a failure comes from.
- `evaluation_properties.dfy`: lemmas that relate several evaluations.
- `expression_invocation.dfy`: the class `ExpressionInvocation` with its
  `value` and `context` fields, and the class `ErrorSlot`, which stands for
  the `NSErrorPointer` out-parameter: a caller passes one or none. The
  expression visits are proved against `Eval`, and the filter application
  `VisitFilter` against `Apply`.

## Model

| member | source | states |
|---|---|---|
| Evaluation.ClassifyFilter | GRMustache/Rendering/ExpressionInvocation.swift:40-62 | a filter is found exactly for a filter value, or for a custom value whose object exposes one, and it is that filter; otherwise the error is "Missing filter" exactly for the empty value, and it is never "Too many arguments" |
| Evaluation.Apply | GRMustache/Rendering/ExpressionInvocation.swift:86-100 | fails exactly when curried and currying gives no filter, and then with "Too many arguments"; a curried success is a filter value holding the curried filter; a non-curried application always succeeds with the transformed argument |
| Evaluation.Eval | GRMustache/Rendering/ExpressionInvocation.swift:29-81 | only an expression containing a filter application can fail; a successful curried application yields a filter value |
| Evaluation.Leftover | GRMustache/Rendering/ExpressionInvocation.swift:29-38 | after a failure the register holds the argument value of the filter application that failed, whatever it held before |
| Evaluation.FailingNode | GRMustache/Rendering/ExpressionInvocation.swift:29-38 | every failure originates at one filter application inside the expression: both its operands evaluate, and it fails with exactly the error the whole expression reports (failures short-circuit and propagate unchanged) |
| EvaluationProperties.EvalReadsOnlyItsIdentifiers | GRMustache/Rendering/ExpressionInvocation.swift:65-81 | two contexts that agree on the identifiers the expression looks up in the context, and on the top value when `.` is used, give the same result; the identifier after a dot is never looked up in the context |
| EvaluationProperties.DottedAccess | GRMustache/Rendering/ExpressionInvocation.swift:75-81 | `base.p0...pn` fails exactly when `base` fails, with the same error; otherwise its value is the base value's successive lookups of the path |
| EvaluationProperties.CurriedCallBindsInOrder | GRMustache/Rendering/ExpressionInvocation.swift:86-95 | when the filter position is a filter value or a custom object exposing a filter and the arguments all evaluate, the curried applications for `a0, ..., an` bind the arguments left to right, and fail with "Too many arguments" as soon as one binding is refused |
| EvaluationProperties.FullCallTransforms | GRMustache/Rendering/ExpressionInvocation.swift:86-99 | a call `f(a0, ..., an, last)` whose filter position is a filter value or a custom object exposing a filter, and whose arguments and `last` all evaluate, transforms `last` with the filter that has all earlier arguments bound, or fails with "Too many arguments" |
| Rendering.ExpressionInvocation.constructor | GRMustache/Rendering/ExpressionInvocation.swift:16-19 | keeps the expression; the register starts empty and there is no context yet |
| Rendering.ExpressionInvocation.InvokeWithContext | GRMustache/Rendering/ExpressionInvocation.swift:21-24 | stores the context before visiting, so the visits' forced unwraps of the context are always safe; returns success exactly when `Eval` succeeds; the register then holds `Eval`'s value, and otherwise `Leftover`; the error slot, when present, receives `Eval`'s error on failure and is untouched on success |
| Rendering.ExpressionInvocation.Visit | GRMustache/Rendering/ExpressionInvocation.swift:23 | dispatches on the expression kind with the same outcome, register and error-slot guarantees as `InvokeWithContext`, for any sub-expression |
| Rendering.ExpressionInvocation.VisitFiltered | GRMustache/Rendering/ExpressionInvocation.swift:29-63 | evaluates filter then argument, keeping the filter value before the argument overwrites the register; agrees with `Eval` on outcome, register and error slot |
| Rendering.ExpressionInvocation.VisitIdentifier | GRMustache/Rendering/ExpressionInvocation.swift:65-68 | always succeeds and stores the context's value for the identifier |
| Rendering.ExpressionInvocation.VisitImplicitIterator | GRMustache/Rendering/ExpressionInvocation.swift:70-73 | always succeeds and stores the context's top value |
| Rendering.ExpressionInvocation.VisitScoped | GRMustache/Rendering/ExpressionInvocation.swift:75-81 | succeeds exactly when the base does, and then stores the base value's own value for the identifier; on failure it reports the base's error |
| Rendering.ExpressionInvocation.VisitFilter | GRMustache/Rendering/ExpressionInvocation.swift:86-100 | agrees with `Apply`; on failure it leaves the register unchanged and writes "Too many arguments" only to a present error slot |

## Left out

- Error objects: the error domain, the error code and the message texts
  are not modelled. Only the three error kinds are.
- The double-dispatch visitor (`acceptExpressionVisitor`) is replaced by a
  `match` in `Visit`. The abstract base class in
  `GRMustache/Compiling/Expression/Expression.swift` is replaced by a
  closed datatype. Its `isEqual` and `==` are not part of this model,
  because the concrete implementations are not available.
- Contexts, `MustacheValue` lookup, the filter a custom object exposes, and
  filter currying and transformation are left abstract. They are the
  functions of `Host`, and the only thing assumed about currying is that it
  may give no filter. So the model says nothing about how a context
  searches its stack, or about filter arity.
- The empty `MustacheValue()` that the initializer stores is taken to be
  the empty value, the `.None` type. Its definition is not part of this
  model.
- The value that wraps a curried filter, `MustacheValue(curriedFilter)`, is
  taken to be a filter value holding that filter. Its definition is not
  part of this model.
- The concrete kinds of "other" values are collapsed into one `Other`
  variant, because the evaluator treats them all alike.
- Concurrency is not modelled. An invocation is single-threaded and owns
  its register.
- The code keeps the context in an optional field and force-unwraps it.
  The model follows the code: the visits require a context, and
  `InvokeWithContext` supplies one.
- The collaborators in `Host` are assumed to have no side effects and to
  always return the same result for the same arguments. User filters are
  arbitrary code in the host program. `EvalReadsOnlyItsIdentifiers`, and
  the fact that a re-invocation gives the same outcome, both rest on that
  assumption.
