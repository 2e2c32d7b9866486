/**
  The declaration chain `Use(i, args...).For(fields...)`: `Use` builds one
  generator, and `For` wraps it in a binding declaration for the named fields.
 */
module Dsl {
  import opened Values
  import opened Core
  import opened Gen
  import opened Engine

  /** The intermediate value of the chain: the generator `Use` built. */
  datatype FieldGeneratorBuilder = FieldGeneratorBuilder(generator: Generator) {
    /** `For(fields...)`: the declaration binding this one generator to every
        named field. */
    function For(fields: seq<string>): (fg: FieldGenFunc)
      ensures fg.fields == fields
    {
      WithGen(generator, fields)
    }
  }

  /** `Use(i, args...)`: the generator `NewGenerator` builds, or the
      configuration panic it raises. */
  function Use(i: Input, args: seq<Value>): (r: Checked<FieldGeneratorBuilder>)
    ensures r.Valid? <==> NewGenerator(i, args).Valid?
    ensures r.Invalid? ==> r.cause == NewGenerator(i, args).cause
  {
    match NewGenerator(i, args)
    case Invalid(c) => Invalid(c)
    case Valid(g) => Valid(FieldGeneratorBuilder(g))
  }

  /** `Use(i, args...).For(fields...)` is `WithGen(NewGenerator(i, args...), fields...)`;
      it panics exactly when `NewGenerator` does, and only functions whose
      signature is rejected make it panic. */
  lemma UseFor(i: Input, args: seq<Value>, fields: seq<string>)
    ensures Use(i, args).Valid? <==> NewGenerator(i, args).Valid?
    ensures Use(i, args).Invalid? ==> i.Func? && Use(i, args).cause == AdaptFunc(i.u, args).cause
    ensures Use(i, args).Valid? ==> Use(i, args).value.For(fields) == WithGen(NewGenerator(i, args).value, fields)
  {
  }

  /** Applied to a sample of type `t`, the declaration `b.For(fields...)`
      panics exactly when a name is missing or unexported, with the error of
      the first such name; otherwise it gives one binding per name, in order,
      every one carrying the very generator `Use` built, so that they share
      its counter. */
  lemma {:induction false} ForBindings(b: FieldGeneratorBuilder, t: StructType, fields: seq<string>)
    ensures var r := Resolve(t, b.For(fields).gen, b.For(fields).fields);
      (r.Valid? <==> forall j :: 0 <= j < |fields| ==> Settable(t, fields[j])) &&
      (r.Valid? ==>
         |r.value| == |fields| &&
         forall j :: 0 <= j < |fields| ==>
           r.value[j].gen == b.generator && r.value[j].field == Lookup(t, fields[j]).value &&
           r.value[j].field.name == fields[j]) &&
      (r.Invalid? ==>
         exists j :: 0 <= j < |fields| && !Settable(t, fields[j]) &&
                     (forall i :: 0 <= i < j ==> Settable(t, fields[i])) && r.cause == FieldError(t, fields[j]))
  {
    var g := b.generator;
    ResolveValid(t, g, fields);
    if Resolve(t, g, fields).Valid? {
      ResolveBindings(t, g, fields);
      forall j | 0 <= j < |fields| ensures Lookup(t, fields[j]).value.name == fields[j] {
        assert Settable(t, fields[j]);
      }
    } else {
      ResolveFirstError(t, g, fields);
    }
  }

  /** `Use(v).For(fields...)` with a plain value and no extra arguments gives
      every named field a constant binding of `v`. */
  lemma {:induction false} UsePlainConst(v: Value, t: StructType, fields: seq<string>)
    requires forall j :: 0 <= j < |fields| ==> Settable(t, fields[j])
    ensures Use(Plain(v), []).Valid?
    ensures var fg := Use(Plain(v), []).value.For(fields);
      Resolve(t, fg.gen, fg.fields).Valid? && |Resolve(t, fg.gen, fg.fields).value| == |fields| &&
      forall j :: 0 <= j < |fields| ==>
        var g := Resolve(t, fg.gen, fg.fields).value[j].gen;
        Stateless(g) && forall c :: Run(g, c) == GenOut(v, None)
  {
    var g := Use(Plain(v), []).value.generator;
    ResolveValid(t, g, fields);
    ResolveBindings(t, g, fields);
  }

  /** A declaration that is `Use(v).For(name)` for a field `name` of `t` the
      prototype seeds with `v`. */
  ghost predicate UseOfSeed(t: StructType, vals: map<string, Value>, fg: FieldGenFunc)
    requires Names(t) <= vals.Keys
  {
    exists d :: d in t && Seeded(d, vals) &&
                Use(Plain(vals[d.name]), []) == Valid(FieldGeneratorBuilder(Const(vals[d.name]))) &&
                fg == FieldGeneratorBuilder(Const(vals[d.name])).For([d.name])
  }

  /** Every declaration the prototype contributes is `Use(v).For(name)` for a
      seeded field `name` holding `v`. */
  lemma {:induction false} ProtoSeedsAreUses(t: StructType, vals: map<string, Value>)
    requires Names(t) <= vals.Keys
    ensures forall k :: 0 <= k < |ProtoSeeds(t, vals)| ==> UseOfSeed(t, vals, ProtoSeeds(t, vals)[k])
    decreases |t|
  {
    if t != [] {
      var init := t[..|t| - 1];
      var d := t[|t| - 1];
      assert d in t && forall e :: e in init ==> e in t;
      ProtoSeedsAreUses(init, vals);
      var p, pi := ProtoSeeds(t, vals), ProtoSeeds(init, vals);
      assert p == pi + if Seeded(d, vals) then [WithGen(AdaptValue(vals[d.name]), [d.name])] else [];
      forall k | 0 <= k < |p| ensures UseOfSeed(t, vals, p[k]) {
        if k < |pi| {
          assert p[k] == pi[k] && UseOfSeed(init, vals, pi[k]);
          var e :| e in init && Seeded(e, vals) &&
                   Use(Plain(vals[e.name]), []) == Valid(FieldGeneratorBuilder(Const(vals[e.name]))) &&
                   pi[k] == FieldGeneratorBuilder(Const(vals[e.name])).For([e.name]);
          assert e in t;
        } else {
          assert Seeded(d, vals) && p[k] == FieldGeneratorBuilder(Const(vals[d.name])).For([d.name]);
          assert Use(Plain(vals[d.name]), []) == Valid(FieldGeneratorBuilder(Const(vals[d.name])));
        }
      }
    }
  }
}
