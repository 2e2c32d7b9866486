/**
  Generator adapters: the constant generator, the function adapter with its
  signature checks, option selection, and the first-match dispatch that turns
  whatever `Use` is given into a generator.
 */
module Gen {
  import opened Values
  import opened Counters
  import opened Core

  /** Generators whose output depends only on the context they are given:
      constants, and user functions, which the model takes to be pure
      functions of their inputs (deterministic user code). */
  predicate Stateless(g: Generator) {
    g.Const? || g.FromCtx? || g.Adapted?
  }

  /** The output of one call of a stateless generator. */
  function Run(g: Generator, c: CtxView): GenOut
    requires Stateless(g)
  {
    match g
    case Const(v) => GenOut(v, None)
    case FromCtx(fn) => fn(c)
    case Adapted(u, args) => CallAdapted(u, args)
  }

  /** `adaptValue`: a generator that returns `(v, nil)` on every call, nil
      included. */
  function AdaptValue(v: Value): (g: Generator)
    ensures Stateless(g) && forall c :: Run(g, c) == GenOut(v, None)
  {
    Const(v)
  }

  /** The signature checks of `adaptFunc`, in the order the source makes them:
      the parameter count must equal the number of arguments unless the
      function is variadic; there must be one or two results; a second result
      must implement `error`. */
  function AdaptFunc(u: UserFunc, args: seq<Value>): (r: Checked<Generator>)
    ensures r.Valid? <==>
      (u.variadic || u.numIn == |args|) && 1 <= u.numOut <= 2 && (u.numOut == 2 ==> u.secondIsError)
    ensures !u.variadic && u.numIn != |args| ==> r == Invalid(ArityMismatch(u.numIn, |args|))
    ensures (u.variadic || u.numIn == |args|) && (u.numOut == 0 || u.numOut > 2) ==>
      r == Invalid(ResultCount(u.numOut))
    ensures (u.variadic || u.numIn == |args|) && u.numOut == 2 && !u.secondIsError ==>
      r == Invalid(SecondResultNotError)
    ensures r.Valid? ==> Stateless(r.value) && forall c :: Run(r.value, c) == CallAdapted(u, args)
  {
    if !u.variadic && u.numIn != |args| then Invalid(ArityMismatch(u.numIn, |args|))
    else if u.numOut == 0 || u.numOut > 2 then Invalid(ResultCount(u.numOut))
    else if u.numOut == 2 && !u.secondIsError then Invalid(SecondResultNotError)
    else Valid(Adapted(u, args))
  }

  /** One call of an adapted function: the first result is the value; the
      second result is the error only when the function has two results and
      the second one is non-nil. */
  function CallAdapted(u: UserFunc, args: seq<Value>): (out: GenOut)
    ensures out.value == u.call(args).first
    ensures out.err.Some? <==> u.numOut != 1 && u.call(args).second.Some?
    ensures out.err.Some? ==> out.err == u.call(args).second
  {
    var r := u.call(args);
    if u.numOut == 1 || r.second.None? then GenOut(r.first, None)
    else GenOut(r.first, r.second)
  }

  /** The index strategies `Select` is given: `Seq` or `Rnd`. */
  datatype Strategy = SeqStrategy | RndStrategy

  /** `Select(f, options...)`: builds the index source `f(len(options))` once;
      each call of the generator then returns the indexed option. */
  method Select(f: Strategy, options: seq<Value>) returns (g: Generator)
    ensures g.Pick? && g.options == options
    ensures f.SeqStrategy? <==> g.index.RoundRobin?
    ensures g.index.RoundRobin? ==>
      fresh(g.index.counter) && g.index.counter.max == |options| && g.index.counter.n == 0
  {
    if f.SeqStrategy? {
      var c := new SeqCounter(|options|);
      g := Pick(RoundRobin(c), options);
    } else {
      g := RndSelect(options);
    }
  }

  /** One call of a generator `Select` built: the option at the index its
      index source gives, and never an error. */
  method Choose(index: Index, options: seq<Value>) returns (out: GenOut)
    requires |options| > 0 && (index.RoundRobin? ==> index.counter.max == |options|)
    modifies if index.RoundRobin? then {index.counter} else {}
    ensures out.err.None? && out.value in options
    ensures index.RoundRobin? ==>
      index.counter.n == old(index.counter.n) + 1 && out.value == options[old(index.counter.n) % |options|]
  {
    var j;
    match index {
      case RoundRobin(c) =>
        j := c.Next();
      case Random =>
        j := Rnd(|options|);
    }
    out := GenOut(options[j], None);
  }

  /** The first `k` calls of a fresh `SeqSelect(options...)` generator: the
      `j`-th returns `options[j % len(options)]` with a nil error. */
  method SeqSelectCalls(options: seq<Value>, k: nat) returns (outs: seq<GenOut>)
    requires |options| > 0
    ensures |outs| == k && forall j :: 0 <= j < k ==> outs[j] == GenOut(options[j % |options|], None)
  {
    var g := SeqSelect(options);
    outs := [];
    for j := 0 to k
      invariant g.index.counter.n == j
      invariant |outs| == j && forall i :: 0 <= i < j ==> outs[i] == GenOut(options[i % |options|], None)
    {
      var out := Choose(g.index, g.options);
      outs := outs + [out];
    }
  }

  /** `SeqSelect(options...)` is `Select(Seq, options...)`. */
  method SeqSelect(options: seq<Value>) returns (g: Generator)
    ensures g.Pick? && g.options == options && g.index.RoundRobin?
    ensures fresh(g.index.counter) && g.index.counter.max == |options| && g.index.counter.n == 0
  {
    g := Select(SeqStrategy, options);
  }

  /** `RndSelect(options...)` is `Select(Rnd, options...)`; `Rnd` allocates nothing. */
  function RndSelect(options: seq<Value>): (g: Generator)
    ensures g.Pick? && g.index.Random? && g.options == options
  {
    Pick(Random, options)
  }

  /** What can be handed to `Use`/`NewGenerator`. */
  datatype Input =
    | Canonical(g: Generator)           // a value of type GeneratorFunc
    | CtxFunc(fn: CtxView -> GenOut)    // a func(Ctx) (interface{}, error)
    | FactoryRef(f: Factory)            // a *Factory
    | Func(u: UserFunc)                 // any other function: neither a GeneratorFunc nor a func(Ctx) (interface{}, error)
    | Plain(v: Value)                   // anything that is not a function

  /** `NewGenerator(i, args...)`, first match wins. The arguments are used only
      by the function adapter and by option selection. */
  function NewGenerator(i: Input, args: seq<Value>): (r: Checked<Generator>)
    ensures r.Invalid? ==> i.Func?
    ensures i.Func? ==> r == AdaptFunc(i.u, args)
    ensures i.Canonical? ==> r == Valid(i.g)
    ensures i.CtxFunc? ==> r.Valid? && Stateless(r.value) && forall c :: Run(r.value, c) == i.fn(c)
    ensures i.FactoryRef? ==> r == Valid(Nested(i.f))
    ensures i.Plain? && args == [] ==> r.Valid? && Stateless(r.value) && forall c :: Run(r.value, c) == GenOut(i.v, None)
    ensures i.Plain? && args != [] ==> r == Valid(RndSelect([i.v] + args))
  {
    match i
    case Canonical(g) => Valid(g)
    case CtxFunc(fn) => Valid(FromCtx(fn))
    case FactoryRef(f) => Valid(Nested(f))
    case Func(u) => AdaptFunc(u, args)
    case Plain(v) => if |args| == 0 then Valid(AdaptValue(v)) else Valid(RndSelect([v] + args))
  }

  /** Generators, factories and function-typed generators ignore the extra
      arguments. */
  lemma NewGeneratorIgnoresArgs(i: Input, args1: seq<Value>, args2: seq<Value>)
    requires i.Canonical? || i.CtxFunc? || i.FactoryRef?
    ensures NewGenerator(i, args1) == NewGenerator(i, args2)
  {
  }

  /** A plain value with extra values selects among all of them, the value
      first; such a generator never fails to be built. */
  lemma PlainWithArgsSelects(v: Value, args: seq<Value>)
    requires args != []
    ensures NewGenerator(Plain(v), args).Valid?
    ensures var g := NewGenerator(Plain(v), args).value;
      g.Pick? && g.index.Random? && |g.options| == |args| + 1 &&
      g.options[0] == v && g.options[1..] == args
  {
  }
}
