/**
  The package's types: generator results and contexts, the closed set of
  generators, field bindings, factories, binding declarations, and the two
  disjoint error classes (configuration panics and generation errors).
 */
module Core {
  import opened Values
  import opened Counters

  /** A generation error, as returned by a generator. */
  datatype Error = Error(message: string)

  /** A configuration mistake: the source panics on each of these while a
      factory or a generator is being declared. */
  datatype ConfigError =
    | FieldNotFound(field: string)
    | FieldNotSettable(field: string)
    | ArityMismatch(expected: nat, given: nat)
    | ResultCount(count: nat)
    | SecondResultNotError

  /** The result of a construction step that panics on a configuration mistake. */
  datatype Checked<+T> = Valid(value: T) | Invalid(cause: ConfigError)

  /** Why a call panicked: a configuration mistake, or a generation error that
      a Must* variant turned into a panic. */
  datatype Panic = ConfigPanic(cfg: ConfigError) | ErrorPanic(err: Error)

  /** The result of a population call: a value, a recoverable error, or a panic. */
  datatype Outcome<+T> = Ok(value: T) | Failed(err: Error) | Panicked(cause: Panic)

  /** What a generator returns: `(interface{}, error)`. */
  datatype GenOut = GenOut(value: Value, err: Option<Error>)

  /** What a user generator reads of its context: the field being generated,
      the partially built instance, and `ctx.Factory.CallDepth()`. */
  datatype CtxView = CtxView(field: string, instance: map<string, Value>, callDepth: nat)

  /** What an arbitrary function returns: its first result and, when it has a
      second one, whether that is non-nil. */
  datatype FuncReturn = FuncReturn(first: Value, second: Option<Error>)

  /** An arbitrary Go function, as far as `adaptFunc` inspects and calls it. */
  datatype UserFunc = UserFunc(
    variadic: bool,
    numIn: nat,
    numOut: nat,
    secondIsError: bool,
    call: seq<Value> -> FuncReturn)

  /** Where `Select` takes its index from. */
  datatype Index = RoundRobin(counter: SeqCounter) | Random

  /** The closed set of generators:
      - Const: the constant generator of `adaptValue`;
      - Pick: `Select` over options with a round-robin or random index;
      - FromCtx: a canonical `GeneratorFunc` written by the user;
      - Adapted: an arbitrary function with pre-bound arguments (`adaptFunc`);
      - Nested: a generator that calls another factory's `Create()`;
      - Recurse: a self-referential generator that populates a child instance
        through `ctx.Factory.SetFields` until `ctx.Factory.CallDepth()` reaches
        `limit`, and then returns nil. */
  datatype Generator =
    | Const(value: Value)
    | Pick(index: Index, options: seq<Value>)
    | FromCtx(fn: CtxView -> GenOut)
    | Adapted(func: UserFunc, args: seq<Value>)
    | Nested(factory: Factory)
    | Recurse(limit: nat)

  /** A field together with its generator (`fieldWithGen`). */
  datatype Binding = Binding(field: FieldDesc, gen: Generator)

  /** A factory: the target type, the ordered bindings, the call depth. */
  datatype Factory = Factory(typ: StructType, bindings: seq<Binding>, callDepth: nat)

  /** The execution context handed to a generator. */
  datatype Ctx = Ctx(field: string, instance: map<string, Value>, factory: Factory)

  /** What a generator sees of its context. */
  function View(ctx: Ctx): CtxView {
    CtxView(ctx.field, ctx.instance, ctx.factory.callDepth)
  }

  /** A binding declaration (`FieldGenFunc`): `WithGen(g, fields...)` captures
      a generator and field names; applying it to a type sample checks the
      names and yields the bindings. */
  datatype FieldGenFunc = WithGen(gen: Generator, fields: seq<string>)

  /** A prototype object: its type and the value of each of its fields. */
  datatype Proto = Proto(typ: StructType, fields: map<string, Value>)

  /** A Go struct value has a value for every declared field. */
  predicate Complete(p: Proto) {
    Names(p.typ) <= p.fields.Keys
  }
}
