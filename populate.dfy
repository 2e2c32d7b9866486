/**
  The factory engine, population side: assigning generated values to the
  fields of an instance, in binding order, with the generator of each field
  called in a context that sees the partially built instance and the factory
  one call level deeper.
 */
module Populate {
  import opened Values
  import opened Counters
  import opened Core
  import opened Gen
  import opened Engine

  // ---------------------------------------------------------------------------
  // Assignment
  // ---------------------------------------------------------------------------

  /** What is stored for a generated value `v` in a field of kind `k`: nil
      becomes the field's zero value, and a pointer is dereferenced when the
      field is not a pointer; everything else is stored as it is. */
  function Coerce(v: Value, k: Kind): (w: Value)
    ensures HasKind(v, k) ==> w == v
    ensures v.Nil? ==> w == Zero(k)
    ensures v.Ptr? && !k.PtrKind? ==> w == v.elem
  {
    match v
    case Nil => Zero(k)
    case Ptr(e) => if k.PtrKind? then v else e
    case _ => v
  }

  /** A generated value the field accepts once coerced: otherwise
      `reflect.Value.Set` panics. */
  predicate Assignable(v: Value, k: Kind) {
    HasKind(Coerce(v, k), k)
  }

  /** Nil is assignable to every field. */
  lemma NilAssignable(k: Kind)
    ensures Assignable(Nil, k)
  {
  }

  /** A struct instance whose fields are set one by one. */
  class Instance {
    var fields: map<string, Value>

    constructor (fields: map<string, Value>)
      ensures this.fields == fields
    {
      this.fields := fields;
    }

    /** `field.Set(value)`: requires a value of the field's kind. */
    method Set(d: FieldDesc, w: Value)
      requires HasKind(w, d.kind)
      modifies this
      ensures fields == old(fields)[d.name := w]
    {
      fields := fields[d.name := w];
    }
  }

  /** The fields after the first `n` bindings have stored the values `vals`. */
  function Assigned(before: map<string, Value>, bs: seq<Binding>, vals: seq<Value>, n: nat): map<string, Value>
    requires n <= |bs| && n <= |vals|
    decreases n
  {
    if n == 0 then before
    else Assigned(before, bs, vals, n - 1)[bs[n - 1].field.name := Coerce(vals[n - 1], bs[n - 1].field.kind)]
  }

  /** Only the first `n` values matter. */
  lemma {:induction false} AssignedAgree(before: map<string, Value>, bs: seq<Binding>, v1: seq<Value>, v2: seq<Value>, n: nat)
    requires n <= |bs| && n <= |v1| && n <= |v2|
    requires forall j :: 0 <= j < n ==> v1[j] == v2[j]
    ensures Assigned(before, bs, v1, n) == Assigned(before, bs, v2, n)
    decreases n
  {
    if n > 0 {
      AssignedAgree(before, bs, v1, v2, n - 1);
    }
  }

  /** The tie-break rule: when several bindings name the same field, the last
      one's value is the one the field keeps; a field no binding names keeps
      its value. */
  lemma {:induction false} LastWriteWins(before: map<string, Value>, bs: seq<Binding>, vals: seq<Value>, n: nat, x: string)
    requires n <= |bs| && n <= |vals|
    ensures x in Assigned(before, bs, vals, n) <==> x in before || LastAt(bs, n, x).Some?
    ensures LastAt(bs, n, x).Some? ==>
      var j := LastAt(bs, n, x).value;
      Assigned(before, bs, vals, n)[x] == Coerce(vals[j], bs[j].field.kind)
    ensures LastAt(bs, n, x).None? && x in before ==> Assigned(before, bs, vals, n)[x] == before[x]
    decreases n
  {
    if n > 0 {
      LastWriteWins(before, bs, vals, n - 1, x);
    }
  }

  // ---------------------------------------------------------------------------
  // Well-behaved factories
  // ---------------------------------------------------------------------------

  /** A generator whose successful outputs the field accepts, and whose own
      preconditions hold: options to choose from, a round-robin counter built
      for exactly those options, a nested factory that is itself well-behaved,
      and a pointer or struct field for what `Create` returns. */
  ghost predicate GenOk(g: Generator, k: Kind)
    decreases g
  {
    match g
    case Const(v) => Assignable(v, k)
    case Pick(index, opts) =>
      |opts| > 0 && (index.RoundRobin? ==> index.counter.max == |opts|) &&
      forall j :: 0 <= j < |opts| ==> Assignable(opts[j], k)
    case FromCtx(fn) => forall c :: fn(c).err.None? ==> Assignable(fn(c).value, k)
    case Adapted(u, args) => CallAdapted(u, args).err.None? ==> Assignable(CallAdapted(u, args).value, k)
    case Nested(f) => (k.PtrKind? || k.StructKind?) && Runnable(f)
    case Recurse(_) => k.PtrKind? || k.StructKind?
  }

  /** A factory none of whose calls panics at run time: its bindings resolved
      against its type, each with a well-behaved generator. */
  ghost predicate Runnable(f: Factory)
    decreases f
  {
    WellFormed(f) && BindingsOk(f.bindings)
  }

  ghost predicate BindingsOk(bs: seq<Binding>)
    decreases bs
  {
    forall i :: 0 <= i < |bs| ==> BindingOk(bs[i])
  }

  ghost predicate BindingOk(b: Binding)
    decreases b
  {
    GenOk(b.gen, b.field.kind)
  }

  /** The round-robin counters a generator owns, nested factories included. */
  ghost function GenCounters(g: Generator): set<SeqCounter>
    decreases g
  {
    match g
    case Pick(RoundRobin(c), _) => {c}
    case Nested(f) => CountersOf(f)
    case _ => {}
  }

  /** What a population pass of `f` may update: its counters. */
  ghost function CountersOf(f: Factory): set<SeqCounter>
    decreases f
  {
    BindCounters(f.bindings)
  }

  ghost function BindCounters(bs: seq<Binding>): set<SeqCounter>
    decreases bs
  {
    set i, c | 0 <= i < |bs| && c in BindingCounters(bs[i]) :: c
  }

  ghost function BindingCounters(b: Binding): set<SeqCounter>
    decreases b
  {
    GenCounters(b.gen)
  }

  ghost function DeclCounters(fgs: seq<FieldGenFunc>): set<SeqCounter> {
    set i, c | 0 <= i < |fgs| && c in GenCounters(fgs[i].gen) :: c
  }

  // ---------------------------------------------------------------------------
  // Termination measure
  // ---------------------------------------------------------------------------

  ghost function Size(f: Factory): nat
    decreases f
  {
    1 + BindSize(f.bindings)
  }

  ghost function BindSize(bs: seq<Binding>): nat
    decreases bs
  {
    if bs == [] then 0 else BindSize(bs[..|bs| - 1]) + BindingSize(bs[|bs| - 1])
  }

  ghost function BindingSize(b: Binding): nat
    decreases b
  {
    GenSize(b.gen)
  }

  ghost function GenSize(g: Generator): nat
    decreases g
  {
    if g.Nested? then 1 + Size(g.factory) else 1
  }

  lemma {:induction false} NestedSmaller(bs: seq<Binding>, i: nat)
    requires i < |bs| && bs[i].gen.Nested?
    ensures Size(bs[i].gen.factory) < BindSize(bs)
    decreases |bs|
  {
    if i < |bs| - 1 {
      assert bs[..|bs| - 1][i] == bs[i];
      NestedSmaller(bs[..|bs| - 1], i);
    } else {
      assert BindingSize(bs[i]) == GenSize(bs[i].gen) == 1 + Size(bs[i].gen.factory);
    }
  }

  /** The largest recursion limit among the bindings. */
  ghost function MaxLimit(bs: seq<Binding>): nat
    decreases |bs|
  {
    if bs == [] then 0
    else
      var m := MaxLimit(bs[..|bs| - 1]);
      var g := bs[|bs| - 1].gen;
      if g.Recurse? && g.limit > m then g.limit else m
  }

  lemma {:induction false} LimitBound(bs: seq<Binding>, i: nat)
    requires i < |bs| && bs[i].gen.Recurse?
    ensures bs[i].gen.limit <= MaxLimit(bs)
    decreases |bs|
  {
    if i < |bs| - 1 {
      assert bs[..|bs| - 1][i] == bs[i];
      LimitBound(bs[..|bs| - 1], i);
    }
  }

  /** How many more levels a self-referential generator may go down. */
  ghost function Fuel(f: Factory): nat {
    if f.callDepth < MaxLimit(f.bindings) then MaxLimit(f.bindings) - f.callDepth else 0
  }

  // ---------------------------------------------------------------------------
  // The trace of a population pass
  // ---------------------------------------------------------------------------

  /** One generator call: its context, its result, and, for a generator that
      populates a child instance, that nested pass. */
  datatype Call = Call(ctx: Ctx, out: GenOut, child: Option<Child>)

  /** A nested pass: the child's final fields and its calls. */
  datatype Child = Child(after: map<string, Value>, calls: seq<Call>)

  function Outputs(calls: seq<Call>): (vals: seq<Value>)
    ensures |vals| == |calls| && forall k :: 0 <= k < |calls| ==> vals[k] == calls[k].out.value
  {
    seq(|calls|, k requires 0 <= k < |calls| => calls[k].out.value)
  }

  /** The fields after call `c`, for binding `k`, has stored its result. */
  function Stored(f: Factory, k: nat, c: Call): map<string, Value>
    requires k < |f.bindings|
  {
    c.ctx.instance[f.bindings[k].field.name := Coerce(c.out.value, f.bindings[k].field.kind)]
  }

  /** The fields once every call of `calls` has stored its result. */
  function Final(f: Factory, before: map<string, Value>, calls: seq<Call>): map<string, Value>
    requires |calls| <= |f.bindings|
  {
    if calls == [] then before else Stored(f, |calls| - 1, calls[|calls| - 1])
  }

  /** The first calls of a pass of `f` over an instance holding `before`: the
      generators are called in binding order, each in the context of its
      field and of the factory one level deeper; the first call sees the
      instance as it was, each later one the instance with the previous
      result stored; and each returns what `Produces` allows. */
  ghost predicate Prefix(f: Factory, before: map<string, Value>, calls: seq<Call>)
    decreases calls, 0
  {
    && |calls| <= |f.bindings|
    && (forall k :: 0 <= k < |calls| ==>
          calls[k].ctx.field == f.bindings[k].field.name && calls[k].ctx.factory == Dive(f))
    && (|calls| > 0 ==> calls[0].ctx.instance == before)
    && (forall k :: 0 < k < |calls| ==> calls[k].ctx.instance == Stored(f, k - 1, calls[k - 1]))
    && (forall k :: 0 <= k < |calls| ==> Produces(f.bindings[k].gen, calls[k]))
  }

  /** A whole pass: every call but the last succeeded; the pass ends after the
      last binding or at the first error, which it returns, the fields set
      until then staying set. */
  ghost predicate Ran(f: Factory, before: map<string, Value>, after: map<string, Value>, calls: seq<Call>, err: Option<Error>)
    decreases calls, 1
  {
    && Prefix(f, before, calls)
    && (forall k :: 0 <= k < |calls| - 1 ==> calls[k].out.err.None?)
    && (err.None? ==>
          |calls| == |f.bindings| && (forall k :: 0 <= k < |calls| ==> calls[k].out.err.None?) &&
          after == Final(f, before, calls))
    && (err.Some? ==>
          |calls| > 0 && calls[|calls| - 1].out.err == err && after == calls[|calls| - 1].ctx.instance)
  }

  /** What one call of generator `g` returns:
      - constants, user functions and adapted functions: their output for the
        context;
      - option selection: one of the options;
      - a nested factory: `Create()` on it, a pointer to the populated child
        or nil with the child's error;
      - a self-referential generator: nil once the context's depth reaches
        the limit, and otherwise a child populated by the context's factory. */
  ghost predicate Produces(g: Generator, c: Call)
    decreases c
  {
    match g
    case Pick(_, opts) => c.out.err.None? && c.out.value in opts && c.child.None?
    case Nested(f) =>
      c.child.Some? && Ran(f, ZeroFields(f.typ), c.child.value.after, c.child.value.calls, c.out.err) &&
      c.out.value == (if c.out.err.Some? then Nil else Ptr(Struct(c.child.value.after)))
    case Recurse(limit) =>
      if c.ctx.factory.callDepth >= limit then c.out == GenOut(Nil, None) && c.child.None?
      else
        c.child.Some? &&
        Ran(c.ctx.factory, ZeroFields(c.ctx.factory.typ), c.child.value.after, c.child.value.calls, c.out.err) &&
        c.out.value == (if c.out.err.Some? then Nil else Ptr(Struct(c.child.value.after)))
    case _ => c.out == Run(g, View(c.ctx)) && c.child.None?
  }

  /** One more call, made on the fields as they stand, extends a prefix. */
  lemma PrefixExtend(f: Factory, before: map<string, Value>, calls: seq<Call>, c: Call)
    requires Prefix(f, before, calls) && |calls| < |f.bindings|
    requires c.ctx.field == f.bindings[|calls|].field.name && c.ctx.factory == Dive(f)
    requires c.ctx.instance == Final(f, before, calls)
    requires Produces(f.bindings[|calls|].gen, c)
    ensures Prefix(f, before, calls + [c])
  {
    var next := calls + [c];
    forall k | 0 <= k < |next|
      ensures next[k].ctx.field == f.bindings[k].field.name && next[k].ctx.factory == Dive(f)
      ensures Produces(f.bindings[k].gen, next[k])
      ensures 0 < k ==> next[k].ctx.instance == Stored(f, k - 1, next[k - 1])
    {
      if k < |calls| {
        assert next[k] == calls[k];
      }
      if 0 < k {
        assert next[k - 1] == calls[k - 1];
      }
    }
  }

  /** A prefix covering every binding without an error is a complete pass. */
  lemma RanDone(f: Factory, before: map<string, Value>, calls: seq<Call>)
    requires Prefix(f, before, calls) && |calls| == |f.bindings|
    requires forall k :: 0 <= k < |calls| ==> calls[k].out.err.None?
    ensures Ran(f, before, Final(f, before, calls), calls, None)
  {
  }

  /** A prefix whose last call failed is a pass stopped by that error. */
  lemma RanStopped(f: Factory, before: map<string, Value>, calls: seq<Call>)
    requires Prefix(f, before, calls) && |calls| > 0 && calls[|calls| - 1].out.err.Some?
    requires forall k :: 0 <= k < |calls| - 1 ==> calls[k].out.err.None?
    ensures Ran(f, before, calls[|calls| - 1].ctx.instance, calls, calls[|calls| - 1].out.err)
  {
  }

  /** Along a prefix, the instance each call sees, and the instance after it,
      are the fields with the earlier results stored in binding order. */
  lemma {:induction false} PrefixAssigned(f: Factory, before: map<string, Value>, calls: seq<Call>, n: nat)
    requires Prefix(f, before, calls) && n <= |calls|
    ensures Final(f, before, calls[..n]) == Assigned(before, f.bindings, Outputs(calls), n)
    ensures n < |calls| ==> calls[n].ctx.instance == Assigned(before, f.bindings, Outputs(calls), n)
    decreases n
  {
    if n > 0 {
      PrefixAssigned(f, before, calls, n - 1);
      assert calls[..n][n - 1] == calls[n - 1];
      assert Final(f, before, calls[..n]) == Stored(f, n - 1, calls[n - 1]);
      if n - 1 > 0 {
        assert calls[..n - 1][n - 2] == calls[n - 2];
      }
    }
  }

  /** What a pass leaves in the instance: after a complete pass, every
      binding's result stored in binding order; after a pass stopped by an
      error, the results before the failing call stored and nothing from it
      or later. Each call saw the results of the calls before it. */
  lemma RanFields(f: Factory, before: map<string, Value>, after: map<string, Value>, calls: seq<Call>, err: Option<Error>)
    requires Ran(f, before, after, calls, err)
    ensures |calls| <= |f.bindings| && (err.Some? ==> |calls| > 0)
    ensures forall k :: 0 <= k < |calls| ==> calls[k].ctx.instance == Assigned(before, f.bindings, Outputs(calls), k)
    ensures err.None? ==> after == Assigned(before, f.bindings, Outputs(calls), |f.bindings|)
    ensures err.Some? ==> after == Assigned(before, f.bindings, Outputs(calls), |calls| - 1)
  {
    forall k | 0 <= k < |calls|
      ensures calls[k].ctx.instance == Assigned(before, f.bindings, Outputs(calls), k)
    {
      PrefixAssigned(f, before, calls, k);
    }
    if err.None? {
      PrefixAssigned(f, before, calls, |calls|);
      assert calls[..|calls|] == calls;
    }
  }

  /** After a complete pass, a field keeps the result of the last binding for
      it (with duplicate bindings the last one wins), and a field no binding
      names keeps its value. */
  lemma RanLastWins(f: Factory, before: map<string, Value>, after: map<string, Value>, calls: seq<Call>, x: string)
    requires Ran(f, before, after, calls, None)
    ensures |calls| == |f.bindings|
    ensures var j := LastAt(f.bindings, |f.bindings|, x);
      (x in after <==> x in before || j.Some?) &&
      (j.Some? ==> after[x] == Coerce(calls[j.value].out.value, f.bindings[j.value].field.kind)) &&
      (j.None? && x in before ==> after[x] == before[x])
  {
    RanFields(f, before, after, calls, None);
    StoredLastWins(before, f.bindings, calls, |f.bindings|, after, x);
  }

  /** After a pass stopped by an error at call `n`, a field keeps the result
      of the last binding for it before `n`, and the failing field and every
      field only later bindings name keep their value. */
  lemma RanStoppedKeeps(f: Factory, before: map<string, Value>, after: map<string, Value>,
                        calls: seq<Call>, e: Error, x: string)
    requires Ran(f, before, after, calls, Some(e))
    ensures 0 < |calls| <= |f.bindings|
    ensures var j := LastAt(f.bindings, |calls| - 1, x);
      (x in after <==> x in before || j.Some?) &&
      (j.Some? ==> after[x] == Coerce(calls[j.value].out.value, f.bindings[j.value].field.kind)) &&
      (j.None? && x in before ==> after[x] == before[x])
  {
    RanFields(f, before, after, calls, Some(e));
    StoredLastWins(before, f.bindings, calls, |calls| - 1, after, x);
  }

  /** LastWriteWins for the results of a sequence of calls. */
  lemma StoredLastWins(before: map<string, Value>, bs: seq<Binding>, calls: seq<Call>, n: nat,
                       after: map<string, Value>, x: string)
    requires n <= |bs| && n <= |calls| && after == Assigned(before, bs, Outputs(calls), n)
    ensures var j := LastAt(bs, n, x);
      (x in after <==> x in before || j.Some?) &&
      (j.Some? ==> after[x] == Coerce(calls[j.value].out.value, bs[j.value].field.kind)) &&
      (j.None? && x in before ==> after[x] == before[x])
  {
    var vals := Outputs(calls);
    LastWriteWins(before, bs, vals, n, x);
    var j := LastAt(bs, n, x);
    if j.Some? {
      assert vals[j.value] == calls[j.value].out.value;
    }
  }

  /** A factory all of whose generators depend only on their context. */
  ghost predicate AllStateless(f: Factory) {
    forall k :: 0 <= k < |f.bindings| ==> Stateless(f.bindings[k].gen)
  }

  /** Two prefixes of passes of such a factory over the same instance agree
      call by call. */
  lemma {:induction false} PrefixSame(f: Factory, before: map<string, Value>, c1: seq<Call>, c2: seq<Call>, n: nat)
    requires AllStateless(f) && Prefix(f, before, c1) && Prefix(f, before, c2)
    requires n <= |c1| && n <= |c2|
    ensures c1[..n] == c2[..n]
    decreases n
  {
    if n > 0 {
      PrefixSame(f, before, c1, c2, n - 1);
      var k := n - 1;
      if k > 0 {
        assert c1[k - 1] == c1[..n - 1][k - 1] == c2[..n - 1][k - 1] == c2[k - 1];
      }
      assert c1[k].ctx == c2[k].ctx;
      assert Stateless(f.bindings[k].gen);
      assert c1[k] == c2[k];
      assert c1[..n] == c1[..n - 1] + [c1[k]];
      assert c2[..n] == c2[..n - 1] + [c2[k]];
    }
  }

  /** Population is repeatable: two passes of a factory whose generators are
      all stateless, over the same instance, make the same calls and leave the
      same fields and the same error. */
  lemma Deterministic(f: Factory, before: map<string, Value>,
                      a1: map<string, Value>, c1: seq<Call>, e1: Option<Error>,
                      a2: map<string, Value>, c2: seq<Call>, e2: Option<Error>)
    requires AllStateless(f)
    requires Ran(f, before, a1, c1, e1) && Ran(f, before, a2, c2, e2)
    ensures c1 == c2 && a1 == a2 && e1 == e2
  {
    var m := if |c1| <= |c2| then |c1| else |c2|;
    PrefixSame(f, before, c1, c2, m);
    assert forall k :: 0 <= k < m ==> c1[k] == c1[..m][k] == c2[..m][k] == c2[k];
    assert |c1| == |c2|;
    assert c1 == c1[..m] && c2 == c2[..m];
  }

  /** A pass of a factory whose bindings are all constants never fails: each
      call returns its constant. */
  lemma ConstPass(f: Factory, before: map<string, Value>, after: map<string, Value>, calls: seq<Call>, err: Option<Error>)
    requires forall k :: 0 <= k < |f.bindings| ==> f.bindings[k].gen.Const?
    requires Ran(f, before, after, calls, err)
    ensures err.None? && |calls| == |f.bindings|
    ensures forall k :: 0 <= k < |calls| ==> calls[k].out == GenOut(f.bindings[k].gen.value, None)
  {
    forall k | 0 <= k < |calls| ensures calls[k].out == GenOut(f.bindings[k].gen.value, None) {
      assert Produces(f.bindings[k].gen, calls[k]);
    }
  }

  /** Prototype seeding, end to end: a pass of the factory `NewFactory(proto)`
      builds with no explicit declarations never fails, and leaves every
      field the prototype seeds holding the prototype's value and every other
      field at its zero value. */
  lemma PrototypeSeeding(proto: Proto, f: Factory, after: map<string, Value>, calls: seq<Call>, err: Option<Error>)
    requires Complete(proto) && UniqueNames(proto.typ)
    requires NewFactorySpec(proto, []) == Valid(f)
    requires Ran(f, ZeroFields(proto.typ), after, calls, err)
    ensures err.None?
    ensures forall d :: d in proto.typ ==>
      d.name in after &&
      after[d.name] == if Seeded(d, proto.fields) then Coerce(proto.fields[d.name], d.kind) else Zero(d.kind)
  {
    NewFactoryNoDecls(proto);
    SeedBindingsSpec(proto.typ, proto.fields);
    ConstPass(f, ZeroFields(proto.typ), after, calls, err);
    RanFields(f, ZeroFields(proto.typ), after, calls, err);
    assert SeedPass(proto, calls, after);
    SeededFields(proto, calls, after);
  }

  /** The fields a pass of the seed bindings leaves, given the constant
      results of its calls. */
  ghost predicate SeedPass(proto: Proto, calls: seq<Call>, after: map<string, Value>)
    requires Complete(proto)
  {
    var bs := SeedBindings(proto.typ, proto.fields);
    |calls| == |bs| && after == Assigned(ZeroFields(proto.typ), bs, Outputs(calls), |bs|) &&
    forall k :: 0 <= k < |calls| ==> bs[k].gen.Const? && calls[k].out == GenOut(bs[k].gen.value, None)
  }

  /** `SeededField` for every field. */
  lemma SeededFields(proto: Proto, calls: seq<Call>, after: map<string, Value>)
    requires Complete(proto) && UniqueNames(proto.typ)
    ensures SeedPass(proto, calls, after) ==>
      forall d :: d in proto.typ ==>
        d.name in after &&
        after[d.name] == if Seeded(d, proto.fields) then Coerce(proto.fields[d.name], d.kind) else Zero(d.kind)
  {
    if SeedPass(proto, calls, after) {
      forall d | d in proto.typ
        ensures d.name in after
        ensures after[d.name] == if Seeded(d, proto.fields) then Coerce(proto.fields[d.name], d.kind) else Zero(d.kind)
      {
        SeededField(proto, calls, after, d);
      }
    }
  }

  /** The value the seed bindings leave in field `d`, given their constant
      results. */
  lemma SeededField(proto: Proto, calls: seq<Call>, after: map<string, Value>, d: FieldDesc)
    requires Complete(proto) && UniqueNames(proto.typ) && d in proto.typ
    ensures SeedPass(proto, calls, after) ==>
      d.name in after &&
      after[d.name] == if Seeded(d, proto.fields) then Coerce(proto.fields[d.name], d.kind) else Zero(d.kind)
  {
    if SeedPass(proto, calls, after) {
      var bs := SeedBindings(proto.typ, proto.fields);
      var i :| 0 <= i < |proto.typ| && proto.typ[i] == d;
      assert ZeroFields(proto.typ)[d.name] == Zero(d.kind);
      StoredLastWins(ZeroFields(proto.typ), bs, calls, |bs|, after, d.name);
      SeedLast(proto.typ, proto.fields, d);
    }
  }

  /** Every generator of a pass of `f` runs with the factory one level deeper:
      same type and bindings, and `CallDepth()` one more than `f`'s. */
  lemma PrefixDepth(f: Factory, before: map<string, Value>, calls: seq<Call>)
    requires Prefix(f, before, calls)
    ensures forall k :: 0 <= k < |calls| ==>
      var g := calls[k].ctx.factory;
      CallDepth(g) == CallDepth(f) + 1 && g.typ == f.typ && g.bindings == f.bindings
  {
  }

  /** A self-referential generator below its limit populates the child with
      the context's factory, so the child's generators see `CallDepth()` two
      more than `f`'s: nested passes observe depths 1, 2, 3, ... */
  lemma {:induction false} RecurseDepth(f: Factory, before: map<string, Value>, calls: seq<Call>, k: nat)
    requires Prefix(f, before, calls) && k < |calls|
    requires f.bindings[k].gen.Recurse? && calls[k].child.Some?
    ensures var child := calls[k].child.value;
      f.callDepth + 1 < f.bindings[k].gen.limit &&
      forall m :: 0 <= m < |child.calls| ==>
        child.calls[m].ctx.factory == DiveN(f, 2) && CallDepth(child.calls[m].ctx.factory) == CallDepth(f) + 2
  {
    var c := calls[k];
    assert Produces(f.bindings[k].gen, c);
    assert c.ctx.factory == Dive(f);
    var child := c.child.value;
    assert f.callDepth + 1 < f.bindings[k].gen.limit;
    assert Ran(Dive(f), ZeroFields(f.typ), child.after, child.calls, c.out.err);
    assert Prefix(Dive(f), ZeroFields(f.typ), child.calls);
    assert DiveN(f, 2) == Dive(Dive(f)) by {
      assert DiveN(f, 1) == Dive(f);
    }
    DiveNDepth(f, 2);
  }

  // ---------------------------------------------------------------------------
  // SetFields, the population pass
  // ---------------------------------------------------------------------------

  /** The loop of `SetFields` without overrides. */
  method Walk(f: Factory, inst: Instance) returns (err: Option<Error>, ghost calls: seq<Call>)
    requires Runnable(f)
    modifies inst, CountersOf(f)
    ensures Ran(f, old(inst.fields), inst.fields, calls, err)
    decreases 0, Size(f), Fuel(f), 2
  {
    ghost var before := inst.fields;
    var ctx := Ctx("", inst.fields, Dive(f));
    calls := [];
    for i := 0 to |f.bindings|
      invariant |calls| == i && Prefix(f, before, calls)
      invariant forall k :: 0 <= k < i ==> calls[k].out.err.None?
      invariant inst.fields == Final(f, before, calls)
      invariant ctx.factory == Dive(f)
    {
      var fg := f.bindings[i];
      ctx := Ctx(fg.field.name, inst.fields, ctx.factory);
      var out, child := Invoke(f, i, ctx);
      PrefixExtend(f, before, calls, Call(ctx, out, child));
      calls := calls + [Call(ctx, out, child)];
      if out.err.Some? {
        RanStopped(f, before, calls);
        return out.err, calls;
      }
      var valueof := Coerce(out.value, fg.field.kind);
      inst.Set(fg.field, valueof);
    }
    RanDone(f, before, calls);
    err := None;
  }

  /** One generator call of the loop, for binding `i`. */
  method Invoke(f: Factory, i: nat, ctx: Ctx) returns (out: GenOut, ghost child: Option<Child>)
    requires Runnable(f) && i < |f.bindings| && ctx.factory == Dive(f)
    modifies CountersOf(f)
    ensures Produces(f.bindings[i].gen, Call(ctx, out, child))
    ensures out.err.None? ==> Assignable(out.value, f.bindings[i].field.kind)
    ensures var g := f.bindings[i].gen;
      g.Pick? && g.index.RoundRobin? ==>
        g.index.counter.n == old(g.index.counter.n) + 1 &&
        out.value == g.options[old(g.index.counter.n) % |g.options|]
    decreases 0, Size(f), Fuel(f), 1
  {
    var g := f.bindings[i].gen;
    assert BindingOk(f.bindings[i]);
    assert GenOk(g, f.bindings[i].field.kind);
    child := None;
    match g {
      case Const(_) =>
        out := Run(g, View(ctx));
      case FromCtx(_) =>
        out := Run(g, View(ctx));
      case Adapted(_, _) =>
        out := Run(g, View(ctx));
      case Pick(index, options) =>
        assert index.RoundRobin? ==> index.counter in CountersOf(f) by {
          if index.RoundRobin? {
            assert index.counter in BindingCounters(f.bindings[i]);
          }
        }
        out := Choose(index, options);
      case Nested(_) =>
        out, child := CallNested(f, i, ctx);
      case Recurse(_) =>
        out, child := CallRecurse(f, i, ctx);
    }
    if out.err.None? {
      ProducedAssignable(g, f.bindings[i].field.kind, Call(ctx, out, child));
    }
  }

  /** A value a well-behaved generator produces without error is assignable to
      the field it is bound to. */
  lemma ProducedAssignable(g: Generator, k: Kind, c: Call)
    requires GenOk(g, k) && Produces(g, c) && c.out.err.None?
    ensures Assignable(c.out.value, k)
  {
    match g
    case Pick(_, opts) =>
      var j :| 0 <= j < |opts| && opts[j] == c.out.value;
    case Recurse(limit) =>
      if c.ctx.factory.callDepth >= limit {
        NilAssignable(k);
      }
    case _ =>
  }

  /** The generator `Use(fact)`: `fact.Create()`. */
  method CallNested(f: Factory, i: nat, ctx: Ctx) returns (out: GenOut, ghost child: Option<Child>)
    requires Runnable(f) && i < |f.bindings| && f.bindings[i].gen.Nested?
    modifies CountersOf(f)
    ensures Produces(f.bindings[i].gen, Call(ctx, out, child))
    ensures out.err.None? ==> out.value.Ptr? && out.value.elem.Struct?
    decreases 0, Size(f), Fuel(f), 0
  {
    var fact := f.bindings[i].gen.factory;
    assert BindingOk(f.bindings[i]);
    assert GenOk(f.bindings[i].gen, f.bindings[i].field.kind);
    assert Runnable(fact);
    NestedSmaller(f.bindings, i);
    assert CountersOf(fact) <= CountersOf(f) by {
      forall c | c in CountersOf(fact) ensures c in CountersOf(f) {
        assert c in BindingCounters(f.bindings[i]);
      }
    }
    NoOverrides(fact.typ);
    var res, inst, _, calls := Create(fact, []);
    child := Some(Child(inst.fields, calls));
    out := if res.Ok? then GenOut(Ptr(Struct(res.value.fields)), None) else GenOut(Nil, ErrorOf(res));
  }

  /** A self-referential generator: nil once the depth reaches the limit,
      otherwise a fresh child populated by `ctx.Factory.SetFields(&child)`. */
  method CallRecurse(f: Factory, i: nat, ctx: Ctx) returns (out: GenOut, ghost child: Option<Child>)
    requires Runnable(f) && i < |f.bindings| && f.bindings[i].gen.Recurse? && ctx.factory == Dive(f)
    modifies CountersOf(f)
    ensures Produces(f.bindings[i].gen, Call(ctx, out, child))
    ensures out.err.None? ==> out.value.Nil? || (out.value.Ptr? && out.value.elem.Struct?)
    decreases 0, Size(f), Fuel(f), 0
  {
    var limit := f.bindings[i].gen.limit;
    if ctx.factory.callDepth >= limit {
      out := GenOut(Nil, None);
      child := None;
    } else {
      LimitBound(f.bindings, i);
      NoOverrides(f.typ);
      var instance := new Instance(ZeroFields(ctx.factory.typ));
      var res, _, calls := SetFields(ctx.factory, instance, []);
      child := Some(Child(instance.fields, calls));
      out := if res.Ok? then GenOut(Ptr(Struct(instance.fields)), None) else GenOut(Nil, ErrorOf(res));
    }
  }

  /** The error of a population outcome. */
  function ErrorOf<T>(r: Outcome<T>): (e: Option<Error>)
    ensures e.Some? <==> r.Failed?
    ensures r.Failed? ==> e == Some(r.err)
  {
    if r.Failed? then Some(r.err) else None
  }

  /** The overrides a population call is given are well-behaved. */
  ghost predicate OverridesOk(t: StructType, fgs: seq<FieldGenFunc>) {
    ResolveAll(t, fgs).Valid? ==> BindingsOk(ResolveAll(t, fgs).value)
  }

  lemma NoOverrides(t: StructType)
    ensures OverridesOk(t, []) && DeclCounters([]) == {}
  {
    assert ResolveAll(t, []) == Valid([]);
  }

  /** `f.SetFields(i, fieldGenFuncs...)`: with overrides, the population pass
      of the derived factory (whose construction may panic); without, the
      pass of `f` itself. `ran` is the factory whose pass it is. */
  method SetFields(f: Factory, inst: Instance, fieldGenFuncs: seq<FieldGenFunc>)
    returns (r: Outcome<()>, ghost ran: Factory, ghost calls: seq<Call>)
    requires Runnable(f) && OverridesOk(f.typ, fieldGenFuncs)
    modifies inst, CountersOf(f), DeclCounters(fieldGenFuncs)
    ensures fieldGenFuncs == [] ==> ran == f
    ensures fieldGenFuncs != [] && DeriveSpec(f, fieldGenFuncs).Valid? ==> ran == DeriveSpec(f, fieldGenFuncs).value
    ensures r.Panicked? <==> fieldGenFuncs != [] && DeriveSpec(f, fieldGenFuncs).Invalid?
    ensures r.Panicked? ==>
      r.cause == ConfigPanic(DeriveSpec(f, fieldGenFuncs).cause) && inst.fields == old(inst.fields)
    ensures !r.Panicked? ==> Ran(ran, old(inst.fields), inst.fields, calls, ErrorOf(r))
    decreases if fieldGenFuncs == [] then 0 else 1, Size(f), Fuel(f), 3
  {
    if |fieldGenFuncs| > 0 {
      var derived := Derive(f, fieldGenFuncs);
      if derived.Invalid? {
        return Panicked(ConfigPanic(derived.cause)), f, [];
      }
      DerivedRunnable(f, fieldGenFuncs);
      NoOverrides(f.typ);
      r, ran, calls := SetFields(derived.value, inst, []);
      return;
    }
    var err;
    err, calls := Walk(f, inst);
    ran := f;
    r := if err.Some? then Failed(err.value) else Ok(());
  }

  /** `f.MustSetFields(i, fieldGenFuncs...)`: a generation error becomes a panic. */
  method MustSetFields(f: Factory, inst: Instance, fieldGenFuncs: seq<FieldGenFunc>)
    returns (r: Outcome<()>, ghost ran: Factory, ghost calls: seq<Call>)
    requires Runnable(f) && OverridesOk(f.typ, fieldGenFuncs)
    modifies inst, CountersOf(f), DeclCounters(fieldGenFuncs)
    ensures !r.Failed?
    ensures fieldGenFuncs == [] ==> ran == f
    ensures fieldGenFuncs != [] && DeriveSpec(f, fieldGenFuncs).Valid? ==> ran == DeriveSpec(f, fieldGenFuncs).value
    ensures r.Ok? ==> Ran(ran, old(inst.fields), inst.fields, calls, None)
    ensures r.Panicked? && r.cause.ErrorPanic? ==> Ran(ran, old(inst.fields), inst.fields, calls, Some(r.cause.err))
    ensures r.Panicked? && r.cause.ConfigPanic? ==>
      fieldGenFuncs != [] && DeriveSpec(f, fieldGenFuncs) == Invalid(r.cause.cfg)
    ensures fieldGenFuncs != [] && DeriveSpec(f, fieldGenFuncs).Invalid? ==>
      r == Panicked(ConfigPanic(DeriveSpec(f, fieldGenFuncs).cause))
  {
    var s;
    s, ran, calls := SetFields(f, inst, fieldGenFuncs);
    r := if s.Failed? then Panicked(ErrorPanic(s.err)) else s;
  }

  /** `f.Create(fieldGenFuncs...)`: a pass over a fresh zero instance of the
      factory's type; on an error the instance is dropped. `inst` is the
      instance it allocates. */
  method Create(f: Factory, fieldGenFuncs: seq<FieldGenFunc>)
    returns (r: Outcome<Instance>, ghost inst: Instance, ghost ran: Factory, ghost calls: seq<Call>)
    requires Runnable(f) && OverridesOk(f.typ, fieldGenFuncs)
    modifies CountersOf(f), DeclCounters(fieldGenFuncs)
    ensures fresh(inst) && (r.Ok? ==> r.value == inst)
    ensures fieldGenFuncs == [] ==> ran == f
    ensures fieldGenFuncs != [] && DeriveSpec(f, fieldGenFuncs).Valid? ==> ran == DeriveSpec(f, fieldGenFuncs).value
    ensures r.Panicked? <==> fieldGenFuncs != [] && DeriveSpec(f, fieldGenFuncs).Invalid?
    ensures r.Panicked? ==> r.cause == ConfigPanic(DeriveSpec(f, fieldGenFuncs).cause)
    ensures !r.Panicked? ==> Ran(ran, ZeroFields(f.typ), inst.fields, calls, ErrorOf(r))
    decreases if fieldGenFuncs == [] then 0 else 1, Size(f), Fuel(f), 4
  {
    var instance := new Instance(ZeroFields(f.typ));
    inst := instance;
    var s;
    s, ran, calls := SetFields(f, instance, fieldGenFuncs);
    r := match s
      case Ok(_) => Ok(instance)
      case Failed(e) => Failed(e)
      case Panicked(p) => Panicked(p);
  }

  /** `f.MustCreate(fieldGenFuncs...)`: a generation error becomes a panic. */
  method MustCreate(f: Factory, fieldGenFuncs: seq<FieldGenFunc>)
    returns (r: Outcome<Instance>, ghost inst: Instance, ghost ran: Factory, ghost calls: seq<Call>)
    requires Runnable(f) && OverridesOk(f.typ, fieldGenFuncs)
    modifies CountersOf(f), DeclCounters(fieldGenFuncs)
    ensures fresh(inst) && (r.Ok? ==> r.value == inst) && !r.Failed?
    ensures fieldGenFuncs == [] ==> ran == f
    ensures fieldGenFuncs != [] && DeriveSpec(f, fieldGenFuncs).Valid? ==> ran == DeriveSpec(f, fieldGenFuncs).value
    ensures r.Ok? ==> Ran(ran, ZeroFields(f.typ), inst.fields, calls, None)
    ensures r.Panicked? && r.cause.ErrorPanic? ==> Ran(ran, ZeroFields(f.typ), inst.fields, calls, Some(r.cause.err))
    ensures r.Panicked? && r.cause.ConfigPanic? ==>
      fieldGenFuncs != [] && DeriveSpec(f, fieldGenFuncs) == Invalid(r.cause.cfg)
    ensures fieldGenFuncs != [] && DeriveSpec(f, fieldGenFuncs).Invalid? ==>
      r == Panicked(ConfigPanic(DeriveSpec(f, fieldGenFuncs).cause))
  {
    var c;
    c, inst, ran, calls := Create(f, fieldGenFuncs);
    r := if c.Failed? then Panicked(ErrorPanic(c.err)) else c;
  }

  /** Each binding of a derived factory is the original binding at its
      position or one of the override bindings. */
  lemma DerivedElement(t: StructType, bs: seq<Binding>, os: seq<Binding>, k: nat)
    requires Resolved(t, bs) && Resolved(t, os) && k < |DeriveBindings(bs, os)|
    ensures (k < |bs| && DeriveBindings(bs, os)[k] == bs[k]) ||
            exists j :: 0 <= j < |os| && DeriveBindings(bs, os)[k] == os[j]
  {
    var m := LastGens(os);
    var d := DeriveBindings(bs, os);
    var a := Appended(os, BoundNames(bs));
    if k < |bs| {
      assert d[k] == ReplaceAt(bs, m, k);
      var name := bs[k].field.name;
      if name in m && name !in BoundNames(bs[..k]) {
        LastGensSpec(os);
        var j :| LastFor(os, name, j) && m[name] == os[j].gen;
        assert d[k] == os[j];
      }
    } else {
      AppendedFrom(os, BoundNames(bs));
      assert d[k] == a[k - |bs|];
    }
  }

  /** The factory Derive builds for well-behaved overrides is well-behaved,
      and touches no counters but its parts'. */
  lemma DerivedRunnable(f: Factory, fgs: seq<FieldGenFunc>)
    requires Runnable(f) && OverridesOk(f.typ, fgs) && DeriveSpec(f, fgs).Valid?
    ensures Runnable(DeriveSpec(f, fgs).value)
    ensures CountersOf(DeriveSpec(f, fgs).value) <= CountersOf(f) + DeclCounters(fgs)
  {
    var os := ResolveAll(f.typ, fgs).value;
    ResolveAllSound(f.typ, fgs);
    var bs := f.bindings;
    var d := DeriveBindings(bs, os);
    forall k | 0 <= k < |d|
      ensures Lookup(f.typ, d[k].field.name) == Some(d[k].field) && d[k].field.exported
      ensures BindingOk(d[k])
      ensures BindingCounters(d[k]) <= CountersOf(f) + DeclCounters(fgs)
    {
      DerivedElement(f.typ, bs, os, k);
      if k < |bs| && d[k] == bs[k] {
        assert BindingOk(bs[k]);
        assert forall c :: c in BindingCounters(bs[k]) ==> c in CountersOf(f);
      } else {
        var j :| 0 <= j < |os| && d[k] == os[j];
        assert BindingOk(os[j]);
        var i :| 0 <= i < |fgs| && os[j].gen == fgs[i].gen;
        assert forall c :: c in GenCounters(fgs[i].gen) ==> c in DeclCounters(fgs);
      }
    }
  }
}
