/** The values that flow through expression evaluation, the three kinds of
    evaluation error, and the collaborators whose code lies outside the
    evaluator (the rendering context, value lookup and filters). */
module MustacheValues {

  /** A rendering context: a stack of values. Its lookup rules are not part of this model. */
  type Context
  /** A host object wrapped by a custom value. */
  type Object
  /** A filter: a function over values that may accept further arguments by currying. */
  type Filter
  /** The contents of any other kind of value (booleans, numbers, strings, collections...). */
  type Payload

  type Identifier = string

  datatype Option<T> = None | Some(value: T)

  /** The type of a MustacheValue, as far as the evaluator distinguishes it.
      `Absent` is the empty value, the type `.None`. */
  datatype Value =
    | FilterValue(filter: Filter)
    | CustomValue(obj: Object)
    | Absent
    | Other(payload: Payload)

  /** The three rendering errors the evaluator reports. */
  datatype ErrorKind = NotAFilter | MissingFilter | TooManyArguments

  datatype Result<T> = Success(value: T) | Failure(error: ErrorKind)

  /** The behaviour of the collaborators, fixed for one evaluation:
      - contextValue: Context.valueForMustacheIdentifier
      - topValue: Context.topMustacheValue
      - valueForIdentifier: MustacheValue.valueForMustacheIdentifier
      - mustacheFilter: the filter a custom object may expose
      - curry: Filter.filterByCurryingArgument, which may give no filter
      - transform: Filter.transformedValue */
  datatype Host = Host(
    contextValue: (Context, Identifier) -> Value,
    topValue: Context -> Value,
    valueForIdentifier: (Value, Identifier) -> Value,
    mustacheFilter: Object -> Option<Filter>,
    curry: (Filter, Value) -> Option<Filter>,
    transform: (Filter, Value) -> Value)
}
