/**
  The builder: declarations accumulated in place on a builder object, in
  order, and handed to `NewFactory` by `Build`.
 */
module Builders {
  import opened Values
  import opened Core
  import opened Gen
  import opened Engine

  /** `Builder`: the prototype and the declarations so far. */
  class Builder {
    const proto: Proto
    var fGens: seq<FieldGenFunc>

    /** `NewBuilder(proto)`: no declarations yet. */
    constructor (proto: Proto)
      ensures this.proto == proto && fGens == []
    {
      this.proto := proto;
      fGens := [];
    }

    /** `b.WithGen(g, fields...)`: appends exactly one declaration and returns
        the same builder. */
    method WithGen(g: Generator, fields: seq<string>) returns (r: Builder)
      modifies this
      ensures r == this && fGens == old(fGens) + [Core.WithGen(g, fields)]
    {
      fGens := fGens + [Core.WithGen(g, fields)];
      r := this;
    }

    /** `b.Use(i, args...)`: builds the generator now, or panics as
        `NewGenerator` does; the returned `For` appends to this builder. */
    method Use(i: Input, args: seq<Value>) returns (r: Checked<ForBuilder>)
      ensures r.Valid? <==> NewGenerator(i, args).Valid?
      ensures r.Invalid? ==> r.cause == NewGenerator(i, args).cause
      ensures r.Valid? ==> fresh(r.value) && r.value.b == this && r.value.g == NewGenerator(i, args).value
    {
      match NewGenerator(i, args)
      case Invalid(c) =>
        r := Invalid(c);
      case Valid(g) =>
        var fb := new ForBuilder(g, this);
        r := Valid(fb);
    }

    /** `b.And(i, args...)` is `b.Use(i, args...)`. */
    method And(i: Input, args: seq<Value>) returns (r: Checked<ForBuilder>)
      ensures r.Valid? <==> NewGenerator(i, args).Valid?
      ensures r.Invalid? ==> r.cause == NewGenerator(i, args).cause
      ensures r.Valid? ==> fresh(r.value) && r.value.b == this && r.value.g == NewGenerator(i, args).value
    {
      r := Use(i, args);
    }

    /** `b.Build()`: `NewFactory(proto, fGens...)`, the declarations in the
        order they were added. */
    method Build() returns (r: Checked<Factory>)
      requires Complete(proto)
      ensures r == NewFactorySpec(proto, fGens)
    {
      r := NewFactory(proto, fGens);
    }
  }

  /** `forBuilder`: a generator waiting for its field names, and the builder
      it will be added to. */
  class ForBuilder {
    const g: Generator
    const b: Builder

    constructor (g: Generator, b: Builder)
      ensures this.g == g && this.b == b
    {
      this.g := g;
      this.b := b;
    }

    /** `For(fields...)`: `b.WithGen(g, fields...)`. */
    method For(fields: seq<string>) returns (r: Builder)
      modifies b
      ensures r == b && b.fGens == old(b.fGens) + [Core.WithGen(g, fields)]
    {
      r := b.WithGen(g, fields);
    }
  }

  /** One more declaration on a builder: the factory `Build` makes panics
      exactly when the earlier declarations or the new one do (the earlier
      panic first), and otherwise its bindings are the earlier ones followed
      by the new declaration's bindings. */
  lemma BuildExtends(proto: Proto, fgs: seq<FieldGenFunc>, fg: FieldGenFunc)
    requires Complete(proto)
    ensures var before, after := NewFactorySpec(proto, fgs), NewFactorySpec(proto, fgs + [fg]);
      var more := Resolve(proto.typ, fg.gen, fg.fields);
      (after.Valid? <==> before.Valid? && more.Valid?) &&
      (before.Invalid? ==> after == Invalid(before.cause)) &&
      (before.Valid? && more.Invalid? ==> after == Invalid(more.cause)) &&
      (after.Valid? ==>
         after.value.typ == proto.typ && after.value.callDepth == 0 &&
         after.value.bindings == before.value.bindings + more.value)
  {
    var seeds := ProtoSeeds(proto.typ, proto.fields);
    assert seeds + (fgs + [fg]) == (seeds + fgs) + [fg];
    ResolveAllConcat(proto.typ, seeds + fgs, [fg]);
    assert [fg][..0] == [];
    var more := Resolve(proto.typ, fg.gen, fg.fields);
    if more.Valid? {
      assert ResolveAll(proto.typ, [fg]) == Valid([] + more.value);
      assert [] + more.value == more.value;
    } else {
      assert ResolveAll(proto.typ, [fg]) == Invalid(more.cause);
    }
  }

  /** `NewBuilder(proto).Use(i1, args1...).For(f1...).And(i2, args2...).For(f2...).Build()`:
      the factory of the two declarations, in that order. */
  method BuildTwo(proto: Proto, i1: Input, args1: seq<Value>, f1: seq<string>,
                  i2: Input, args2: seq<Value>, f2: seq<string>)
    returns (r: Checked<Factory>)
    requires Complete(proto)
    ensures NewGenerator(i1, args1).Invalid? ==> r == Invalid(NewGenerator(i1, args1).cause)
    ensures NewGenerator(i1, args1).Valid? && NewGenerator(i2, args2).Invalid? ==>
      r == Invalid(NewGenerator(i2, args2).cause)
    ensures NewGenerator(i1, args1).Valid? && NewGenerator(i2, args2).Valid? ==>
      r == NewFactorySpec(proto, [Core.WithGen(NewGenerator(i1, args1).value, f1),
                                  Core.WithGen(NewGenerator(i2, args2).value, f2)])
  {
    var b := new Builder(proto);
    var u1 := b.Use(i1, args1);
    if u1.Invalid? {
      return Invalid(u1.cause);
    }
    b := u1.value.For(f1);
    var u2 := b.And(i2, args2);
    if u2.Invalid? {
      return Invalid(u2.cause);
    }
    b := u2.value.For(f2);
    assert b.fGens == [] + [Core.WithGen(u1.value.g, f1)] + [Core.WithGen(u2.value.g, f2)];
    assert b.fGens == [Core.WithGen(u1.value.g, f1), Core.WithGen(u2.value.g, f2)];
    r := b.Build();
  }

  /** The factory `Build` returns is a value of its own: declarations added to
      the builder afterwards change the builder, not the factory. */
  method BuildThenExtend(b: Builder, g: Generator, fields: seq<string>) returns (r: Checked<Factory>)
    requires Complete(b.proto)
    modifies b
    ensures r == NewFactorySpec(b.proto, old(b.fGens))
    ensures b.fGens == old(b.fGens) + [Core.WithGen(g, fields)]
  {
    r := b.Build();
    var _ := b.WithGen(g, fields);
  }
}
