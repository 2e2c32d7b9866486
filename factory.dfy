/**
  The factory engine, construction side: applying binding declarations to a
  type sample, prototype seeding, `NewFactory` and `Derive`.
 */
module Engine {
  import opened Values
  import opened Counters
  import opened Core
  import opened Gen

  // ---------------------------------------------------------------------------
  // Call depth
  // ---------------------------------------------------------------------------

  /** `dive`: the same factory one call level deeper. */
  function Dive(f: Factory): (g: Factory)
    ensures CallDepth(g) == CallDepth(f) + 1 && g.typ == f.typ && g.bindings == f.bindings
  {
    Factory(f.typ, f.bindings, f.callDepth + 1)
  }

  /** `CallDepth`: the depth this copy of the factory carries. */
  function CallDepth(f: Factory): (d: nat)
    ensures d == f.callDepth
  {
    f.callDepth
  }

  /** `k` dives in a row: `k` levels deeper, nothing else changes. */
  function DiveN(f: Factory, k: nat): Factory
    decreases k
  {
    if k == 0 then f else Dive(DiveN(f, k - 1))
  }

  lemma {:induction false} DiveNDepth(f: Factory, k: nat)
    ensures CallDepth(DiveN(f, k)) == CallDepth(f) + k
    ensures DiveN(f, k).typ == f.typ && DiveN(f, k).bindings == f.bindings
    decreases k
  {
    if k > 0 {
      DiveNDepth(f, k - 1);
    }
  }

  // ---------------------------------------------------------------------------
  // Binding declarations applied to a sample (the closure WithGen returns)
  // ---------------------------------------------------------------------------

  /** A name that names an exported field of `t`. */
  predicate Settable(t: StructType, name: string) {
    Lookup(t, name).Some? && Lookup(t, name).value.exported
  }

  /** The panic for a name that is not settable. */
  function FieldError(t: StructType, name: string): ConfigError {
    if Lookup(t, name).None? then FieldNotFound(name) else FieldNotSettable(name)
  }

  /** The bindings `WithGen(g, names...)` produces for a sample of type `t`,
      or the configuration error it panics with at the first bad name. */
  function Resolve(t: StructType, g: Generator, names: seq<string>): Checked<seq<Binding>>
    decreases |names|
  {
    if names == [] then Valid([])
    else
      match Resolve(t, g, names[..|names| - 1])
      case Invalid(c) => Invalid(c)
      case Valid(bs) =>
        var name := names[|names| - 1];
        if Settable(t, name) then Valid(bs + [Binding(Lookup(t, name).value, g)])
        else Invalid(FieldError(t, name))
  }

  /** Once a prefix of the names fails, the whole list fails the same way. */
  lemma {:induction false} ResolveInvalidPrefix(t: StructType, g: Generator, names: seq<string>, n: nat)
    requires n <= |names| && Resolve(t, g, names[..n]).Invalid?
    ensures Resolve(t, g, names) == Resolve(t, g, names[..n])
    decreases |names| - n
  {
    if n < |names| {
      var init := names[..|names| - 1];
      assert init[..n] == names[..n];
      ResolveInvalidPrefix(t, g, init, n);
    } else {
      assert names[..n] == names;
    }
  }

  /** `WithGen(g, names...)` applied to a sample panics exactly when some
      name is missing or unexported. */
  lemma {:induction false} ResolveValid(t: StructType, g: Generator, names: seq<string>)
    ensures Resolve(t, g, names).Valid? <==> forall j :: 0 <= j < |names| ==> Settable(t, names[j])
    decreases |names|
  {
    if names != [] {
      var init := names[..|names| - 1];
      ResolveValid(t, g, init);
      assert forall j :: 0 <= j < |init| ==> init[j] == names[j];
    }
  }

  /** Otherwise it yields one binding per name, in the given order, each
      carrying `g` and the field the name resolves to. */
  lemma {:induction false} ResolveBindings(t: StructType, g: Generator, names: seq<string>)
    requires Resolve(t, g, names).Valid?
    ensures |Resolve(t, g, names).value| == |names|
    ensures forall j :: 0 <= j < |names| ==>
      Settable(t, names[j]) && Resolve(t, g, names).value[j] == Binding(Lookup(t, names[j]).value, g)
    decreases |names|
  {
    if names != [] {
      var init := names[..|names| - 1];
      var last := names[|names| - 1];
      ResolveBindings(t, g, init);
      var bs, r := Resolve(t, g, init).value, Resolve(t, g, names).value;
      assert r == bs + [Binding(Lookup(t, last).value, g)];
      forall j | 0 <= j < |names|
        ensures Settable(t, names[j]) && r[j] == Binding(Lookup(t, names[j]).value, g)
      {
        if j < |init| {
          assert init[j] == names[j] && r[j] == bs[j];
        }
      }
    }
  }

  /** When it panics, it does so with the error of the first bad name. */
  lemma {:induction false} ResolveFirstError(t: StructType, g: Generator, names: seq<string>)
    requires Resolve(t, g, names).Invalid?
    ensures exists j :: 0 <= j < |names| && !Settable(t, names[j]) &&
                        (forall i :: 0 <= i < j ==> Settable(t, names[i])) &&
                        Resolve(t, g, names).cause == FieldError(t, names[j])
    decreases |names|
  {
    var init := names[..|names| - 1];
    var last := |names| - 1;
    assert forall j :: 0 <= j < |init| ==> init[j] == names[j];
    if Resolve(t, g, init).Invalid? {
      ResolveFirstError(t, g, init);
      var j :| 0 <= j < |init| && !Settable(t, init[j]) &&
        (forall i :: 0 <= i < j ==> Settable(t, init[i])) &&
        Resolve(t, g, init).cause == FieldError(t, init[j]);
      assert !Settable(t, names[j]);
    } else {
      ResolveValid(t, g, init);
      assert forall i :: 0 <= i < last ==> Settable(t, names[i]);
    }
  }

  /** Calling the closure `WithGen(g, fields...)` on a sample of type `sample`. */
  method Bind(fg: FieldGenFunc, sample: StructType) returns (r: Checked<seq<Binding>>)
    ensures r == Resolve(sample, fg.gen, fg.fields)
  {
    var gens: seq<Binding> := [];
    for i := 0 to |fg.fields|
      invariant Resolve(sample, fg.gen, fg.fields[..i]) == Valid(gens)
    {
      var fieldName := fg.fields[i];
      assert fg.fields[..i + 1][..i] == fg.fields[..i];
      var sField := Lookup(sample, fieldName);
      if sField.None? {
        ResolveInvalidPrefix(sample, fg.gen, fg.fields, i + 1);
        return Invalid(FieldNotFound(fieldName));
      }
      if !sField.value.exported {
        ResolveInvalidPrefix(sample, fg.gen, fg.fields, i + 1);
        return Invalid(FieldNotSettable(fieldName));
      }
      gens := gens + [Binding(sField.value, fg.gen)];
    }
    assert fg.fields[..|fg.fields|] == fg.fields;
    r := Valid(gens);
  }

  /** All declarations applied in order and their bindings concatenated; the
      first panic stops the construction. */
  function ResolveAll(t: StructType, fgs: seq<FieldGenFunc>): Checked<seq<Binding>>
    decreases |fgs|
  {
    if fgs == [] then Valid([])
    else
      match ResolveAll(t, fgs[..|fgs| - 1])
      case Invalid(c) => Invalid(c)
      case Valid(bs) =>
        var last := fgs[|fgs| - 1];
        match Resolve(t, last.gen, last.fields)
        case Invalid(c) => Invalid(c)
        case Valid(more) => Valid(bs + more)
  }

  /** Resolving two lists of declarations one after the other is resolving
      their concatenation. */
  lemma ResolveAllConcat(t: StructType, a: seq<FieldGenFunc>, b: seq<FieldGenFunc>)
    ensures ResolveAll(t, a + b) ==
      match ResolveAll(t, a)
      case Invalid(c) => Invalid(c)
      case Valid(x) =>
        match ResolveAll(t, b)
        case Invalid(c) => Invalid(c)
        case Valid(y) => Valid(x + y)
  {
    if ResolveAll(t, a).Valid? {
      ResolveAllAfterValid(t, a, b);
    } else {
      ResolveAllAfterInvalid(t, a, b);
    }
  }

  /** After a failing list nothing more is resolved. */
  lemma {:induction false} ResolveAllAfterInvalid(t: StructType, a: seq<FieldGenFunc>, b: seq<FieldGenFunc>)
    requires ResolveAll(t, a).Invalid?
    ensures ResolveAll(t, a + b) == ResolveAll(t, a)
    decreases |b|
  {
    if b == [] {
      assert a + b == a;
    } else {
      var init := b[..|b| - 1];
      assert (a + b)[..|a + b| - 1] == a + init;
      ResolveAllAfterInvalid(t, a, init);
    }
  }

  /** After a list resolving to `x`, the bindings of the rest follow `x`. */
  lemma {:induction false} ResolveAllAfterValid(t: StructType, a: seq<FieldGenFunc>, b: seq<FieldGenFunc>)
    requires ResolveAll(t, a).Valid?
    ensures ResolveAll(t, a + b) ==
      match ResolveAll(t, b)
      case Invalid(c) => Invalid(c)
      case Valid(y) => Valid(ResolveAll(t, a).value + y)
    decreases |b|
  {
    var x := ResolveAll(t, a).value;
    if b == [] {
      assert a + b == a;
      assert x + [] == x;
    } else {
      var init := b[..|b| - 1];
      var last := b[|b| - 1];
      assert (a + b)[..|a + b| - 1] == a + init;
      assert (a + b)[|a + b| - 1] == last;
      ResolveAllAfterValid(t, a, init);
      if ResolveAll(t, init).Valid? && Resolve(t, last.gen, last.fields).Valid? {
        var y, z := ResolveAll(t, init).value, Resolve(t, last.gen, last.fields).value;
        assert (x + y) + z == x + (y + z);
      }
    }
  }

  /** One more declaration resolved. */
  lemma ResolveAllStep(t: StructType, fgs: seq<FieldGenFunc>, i: nat, acc: seq<Binding>, more: seq<Binding>)
    requires i < |fgs| && ResolveAll(t, fgs[..i]) == Valid(acc)
    requires Resolve(t, fgs[i].gen, fgs[i].fields) == Valid(more)
    ensures ResolveAll(t, fgs[..i + 1]) == Valid(acc + more)
  {
    assert fgs[..i + 1][..i] == fgs[..i] && fgs[..i + 1][i] == fgs[i];
  }

  /** A declaration that panics makes the whole list panic the same way. */
  lemma ResolveAllStops(t: StructType, fgs: seq<FieldGenFunc>, i: nat, acc: seq<Binding>)
    requires i < |fgs| && ResolveAll(t, fgs[..i]) == Valid(acc)
    requires Resolve(t, fgs[i].gen, fgs[i].fields).Invalid?
    ensures ResolveAll(t, fgs) == Invalid(Resolve(t, fgs[i].gen, fgs[i].fields).cause)
  {
    assert fgs[..i + 1][..i] == fgs[..i] && fgs[..i + 1][i] == fgs[i];
    ResolveAllConcat(t, fgs[..i + 1], fgs[i + 1..]);
    assert fgs[..i + 1] + fgs[i + 1..] == fgs;
  }

  /** Every binding a factory holds names a settable field of its type and
      carries that field's descriptor (checked once, when it is attached). */
  ghost predicate Resolved(t: StructType, bs: seq<Binding>) {
    forall i :: 0 <= i < |bs| ==> Lookup(t, bs[i].field.name) == Some(bs[i].field) && bs[i].field.exported
  }

  /** The generators of a list of declarations. */
  ghost predicate GensFrom(bs: seq<Binding>, fgs: seq<FieldGenFunc>) {
    forall k :: 0 <= k < |bs| ==> exists i :: 0 <= i < |fgs| && bs[k].gen == fgs[i].gen
  }

  /** What resolution yields is resolved against the type and carries only
      the declared generators. */
  lemma {:induction false} ResolveAllSound(t: StructType, fgs: seq<FieldGenFunc>)
    requires ResolveAll(t, fgs).Valid?
    ensures Resolved(t, ResolveAll(t, fgs).value)
    ensures GensFrom(ResolveAll(t, fgs).value, fgs)
    decreases |fgs|
  {
    if fgs != [] {
      var init := fgs[..|fgs| - 1];
      var last := fgs[|fgs| - 1];
      ResolveAllSound(t, init);
      ResolveBindings(t, last.gen, last.fields);
      ResolveValid(t, last.gen, last.fields);
      var bs := ResolveAll(t, init).value;
      var more := Resolve(t, last.gen, last.fields).value;
      var all := bs + more;
      forall k | 0 <= k < |all|
        ensures Lookup(t, all[k].field.name) == Some(all[k].field) && all[k].field.exported
        ensures exists i :: 0 <= i < |fgs| && all[k].gen == fgs[i].gen
      {
        if k < |bs| {
          var i :| 0 <= i < |init| && bs[k].gen == init[i].gen;
          assert fgs[i] == init[i];
        } else {
          assert all[k] == more[k - |bs|];
          assert Settable(t, last.fields[k - |bs|]);
          assert fgs[|fgs| - 1] == last;
        }
      }
    }
  }

  // ---------------------------------------------------------------------------
  // Prototype seeding
  // ---------------------------------------------------------------------------

  /** `isZero`: nil for slices, pointers and maps, equality with the zero
      value otherwise; the two tests agree, since those kinds are zero when nil. */
  function IsZero(v: Value, k: Kind): (r: bool)
    ensures r <==> v == Zero(k)
  {
    match k
    case PtrKind => v.Nil?
    case SliceKind => v.Nil?
    case MapKind => v.Nil?
    case _ => v == Zero(k)
  }

  /** A field the prototype seeds: exported and holding a non-zero value. */
  predicate Seeded(d: FieldDesc, vals: map<string, Value>)
    requires d.name in vals
  {
    d.exported && !IsZero(vals[d.name], d.kind)
  }

  /** What `ProtoGens` returns for a struct of type `t` holding `vals`:
      `Use(v).For(name)` for every seeded field, in declaration order. */
  function ProtoSeeds(t: StructType, vals: map<string, Value>): seq<FieldGenFunc>
    requires Names(t) <= vals.Keys
    decreases |t|
  {
    if t == [] then []
    else
      var init := t[..|t| - 1];
      var d := t[|t| - 1];
      assert d in t && forall e :: e in init ==> e in t;
      ProtoSeeds(init, vals) + if Seeded(d, vals) then [WithGen(AdaptValue(vals[d.name]), [d.name])] else []
  }

  /** `ProtoGens(proto)`. */
  method ProtoGens(proto: Proto) returns (fieldGenFuncs: seq<FieldGenFunc>)
    requires Complete(proto)
    ensures fieldGenFuncs == ProtoSeeds(proto.typ, proto.fields)
  {
    var typ := proto.typ;
    fieldGenFuncs := [];
    for i := 0 to |typ|
      invariant Names(typ[..i]) <= proto.fields.Keys
      invariant fieldGenFuncs == ProtoSeeds(typ[..i], proto.fields)
    {
      var sField := typ[i];
      assert typ[..i + 1][..i] == typ[..i] && typ[..i + 1][i] == sField;
      assert Names(typ[..i + 1]) <= proto.fields.Keys by {
        assert forall e :: e in typ[..i + 1] ==> e in typ;
      }
      if !sField.exported {
        continue;
      }
      var fVal := proto.fields[sField.name];
      if !IsZero(fVal, sField.kind) {
        fieldGenFuncs := fieldGenFuncs + [WithGen(AdaptValue(fVal), [sField.name])];
      }
    }
    assert typ[..|typ|] == typ;
  }

  /** The bindings the prototype seeds: a constant binding for every seeded
      field, in declaration order. */
  function SeedBindings(t: StructType, vals: map<string, Value>): seq<Binding>
    requires Names(t) <= vals.Keys
    decreases |t|
  {
    if t == [] then []
    else
      var init := t[..|t| - 1];
      var d := t[|t| - 1];
      assert d in t && forall e :: e in init ==> e in t;
      SeedBindings(init, vals) + if Seeded(d, vals) then [Binding(d, Const(vals[d.name]))] else []
  }

  /** The prototype's declarations always resolve, to its seed bindings. */
  lemma {:induction false} ProtoSeedsResolve(t: StructType, u: StructType, vals: map<string, Value>)
    requires Names(t) <= vals.Keys && UniqueNames(u) && forall d :: d in t ==> d in u
    ensures ResolveAll(u, ProtoSeeds(t, vals)) == Valid(SeedBindings(t, vals))
    decreases |t|
  {
    if t != [] {
      var init := t[..|t| - 1];
      var d := t[|t| - 1];
      assert d in t && forall e :: e in init ==> e in t;
      ProtoSeedsResolve(init, u, vals);
      var s := if Seeded(d, vals) then [WithGen(AdaptValue(vals[d.name]), [d.name])] else [];
      ResolveAllConcat(u, ProtoSeeds(init, vals), s);
      if Seeded(d, vals) {
        var i :| 0 <= i < |u| && u[i] == d;
        assert Lookup(u, d.name) == Some(d);
        var g := Const(vals[d.name]);
        var w := WithGen(g, [d.name]);
        assert [d.name][..0] == [];
        assert Resolve(u, g, []) == Valid([]);
        assert Settable(u, d.name);
        assert [] + [Binding(d, g)] == [Binding(d, g)];
        assert Resolve(u, g, [d.name]) == Valid([Binding(d, g)]);
        assert [w][..0] == [];
        assert ResolveAll(u, [w]) == Valid([] + [Binding(d, g)]);
        assert [] + [Binding(d, g)] == [Binding(d, g)];
      } else {
        assert ResolveAll(u, []) == Valid([]);
        assert SeedBindings(init, vals) + [] == SeedBindings(init, vals);
      }
    }
  }

  /** A binding for field `d` among the seeds exists exactly when `d` is
      seeded, and then it is the constant binding of the prototype's value. */
  lemma {:induction false} SeedBindingsSpec(t: StructType, vals: map<string, Value>)
    requires Names(t) <= vals.Keys && UniqueNames(t)
    ensures forall k :: 0 <= k < |SeedBindings(t, vals)| ==>
      var b := SeedBindings(t, vals)[k];
      b.field in t && b.field.name in vals && Seeded(b.field, vals) && b.gen == Const(vals[b.field.name])
    ensures forall d :: d in t && Seeded(d, vals) ==>
      exists k :: 0 <= k < |SeedBindings(t, vals)| && SeedBindings(t, vals)[k].field == d
    ensures forall k, k' :: 0 <= k < k' < |SeedBindings(t, vals)| ==>
      SeedBindings(t, vals)[k].field.name != SeedBindings(t, vals)[k'].field.name
    decreases |t|
  {
    if t != [] {
      var init := t[..|t| - 1];
      var d := t[|t| - 1];
      assert forall e :: e in t <==> e in init || e == d;
      assert UniqueNames(init);
      assert d.name !in Names(init);
      SeedBindingsSpec(init, vals);
      var si := SeedBindings(init, vals);
      var s := SeedBindings(t, vals);
      forall k | 0 <= k < |s| ensures s[k].field.name != d.name || k == |si| {
        if k < |si| {
          assert s[k] == si[k] && si[k].field in init;
        }
      }
      forall e | e in t && Seeded(e, vals) ensures exists k :: 0 <= k < |s| && s[k].field == e {
        if e != d {
          var k :| 0 <= k < |si| && si[k].field == e;
          assert s[k] == si[k];
        } else {
          assert s[|si|].field == d;
        }
      }
    }
  }

  /** The last seed binding for `d`'s name exists exactly when `d` is seeded,
      and it is then `d`'s constant binding. */
  lemma SeedLast(t: StructType, vals: map<string, Value>, d: FieldDesc)
    requires Names(t) <= vals.Keys && UniqueNames(t) && d in t
    ensures var bs := SeedBindings(t, vals);
      var j := LastAt(bs, |bs|, d.name);
      (j.Some? <==> Seeded(d, vals)) &&
      (j.Some? ==> bs[j.value].field == d && bs[j.value].gen == Const(vals[d.name]))
  {
    var bs := SeedBindings(t, vals);
    SeedBindingsSpec(t, vals);
    var i :| 0 <= i < |t| && t[i] == d;
    var j := LastAt(bs, |bs|, d.name);
    if j.Some? {
      var e := bs[j.value].field;
      var i' :| 0 <= i' < |t| && t[i'] == e;
      assert i' == i;
    } else {
      assert forall k :: 0 <= k < |bs| ==> bs[k].field != d;
    }
  }

  // ---------------------------------------------------------------------------
  // NewFactory
  // ---------------------------------------------------------------------------

  /** The factory `NewFactory(proto, fieldGenFuncs...)` builds: the prototype's
      declarations first, then the explicit ones, at call depth 0. */
  function NewFactorySpec(proto: Proto, fgs: seq<FieldGenFunc>): Checked<Factory>
    requires Complete(proto)
  {
    match ResolveAll(proto.typ, ProtoSeeds(proto.typ, proto.fields) + fgs)
    case Invalid(c) => Invalid(c)
    case Valid(bs) => Valid(Factory(proto.typ, bs, 0))
  }

  /** `NewFactory(proto, fieldGenFuncs...)`. */
  method NewFactory(proto: Proto, fieldGenFuncs: seq<FieldGenFunc>) returns (r: Checked<Factory>)
    requires Complete(proto)
    ensures r == NewFactorySpec(proto, fieldGenFuncs)
  {
    var typ := proto.typ;
    var all := fieldGenFuncs;
    var protogens := ProtoGens(proto);
    if |protogens| > 0 {
      all := protogens + fieldGenFuncs;
    }
    assert all == protogens + fieldGenFuncs;
    var sample := typ;
    var fieldGens: seq<Binding> := [];
    for i := 0 to |all|
      invariant ResolveAll(typ, all[..i]) == Valid(fieldGens)
    {
      var made := Bind(all[i], sample);
      if made.Invalid? {
        ResolveAllStops(typ, all, i, fieldGens);
        return Invalid(made.cause);
      }
      ResolveAllStep(typ, all, i, fieldGens, made.value);
      fieldGens := fieldGens + made.value;
    }
    assert all[..|all|] == all;
    r := Valid(Factory(typ, fieldGens, 0));
  }

  /** A factory as `NewFactory` leaves it: bindings resolved against its type. */
  ghost predicate WellFormed(f: Factory) {
    Resolved(f.typ, f.bindings)
  }

  /** `NewFactory` panics exactly when an explicit declaration does; otherwise
      its bindings are the prototype's constant bindings followed by the
      explicit bindings in order, and its call depth is 0. */
  lemma NewFactoryOrder(proto: Proto, fgs: seq<FieldGenFunc>)
    requires Complete(proto) && UniqueNames(proto.typ)
    ensures NewFactorySpec(proto, fgs).Valid? <==> ResolveAll(proto.typ, fgs).Valid?
    ensures NewFactorySpec(proto, fgs).Invalid? ==> NewFactorySpec(proto, fgs).cause == ResolveAll(proto.typ, fgs).cause
    ensures NewFactorySpec(proto, fgs).Valid? ==>
      var f := NewFactorySpec(proto, fgs).value;
      WellFormed(f) && f.callDepth == 0 && f.typ == proto.typ &&
      f.bindings == SeedBindings(proto.typ, proto.fields) + ResolveAll(proto.typ, fgs).value
  {
    ProtoSeedsResolve(proto.typ, proto.typ, proto.fields);
    ResolveAllConcat(proto.typ, ProtoSeeds(proto.typ, proto.fields), fgs);
    if NewFactorySpec(proto, fgs).Valid? {
      ResolveAllSound(proto.typ, ProtoSeeds(proto.typ, proto.fields) + fgs);
    }
  }

  /** With no explicit declarations, `NewFactory(proto)` is the prototype's
      own factory: its constant bindings only, at depth 0. */
  lemma NewFactoryNoDecls(proto: Proto)
    requires Complete(proto) && UniqueNames(proto.typ)
    ensures NewFactorySpec(proto, []) == Valid(Factory(proto.typ, SeedBindings(proto.typ, proto.fields), 0))
  {
    NewFactoryOrder(proto, []);
    assert ResolveAll(proto.typ, []) == Valid([]);
    assert SeedBindings(proto.typ, proto.fields) + [] == SeedBindings(proto.typ, proto.fields);
  }

  // ---------------------------------------------------------------------------
  // Derive
  // ---------------------------------------------------------------------------

  function BoundNames(bs: seq<Binding>): set<string> {
    set i | 0 <= i < |bs| :: bs[i].field.name
  }

  lemma BoundNamesConcat(a: seq<Binding>, b: seq<Binding>)
    ensures BoundNames(a + b) == BoundNames(a) + BoundNames(b)
  {
    forall x | x in BoundNames(a + b) ensures x in BoundNames(a) + BoundNames(b) {
      var i :| 0 <= i < |a + b| && (a + b)[i].field.name == x;
      if i >= |a| { assert (a + b)[i] == b[i - |a|]; }
    }
    forall x | x in BoundNames(a) + BoundNames(b) ensures x in BoundNames(a + b) {
      if x in BoundNames(a) {
        var i :| 0 <= i < |a| && a[i].field.name == x;
        assert (a + b)[i] == a[i];
      } else {
        var i :| 0 <= i < |b| && b[i].field.name == x;
        assert (a + b)[|a| + i] == b[i];
      }
    }
  }

  /** Splitting off the last binding. */
  lemma BoundNamesSnoc(bs: seq<Binding>)
    requires bs != []
    ensures BoundNames(bs) == BoundNames(bs[..|bs| - 1]) + {bs[|bs| - 1].field.name}
  {
    assert bs == bs[..|bs| - 1] + [bs[|bs| - 1]];
    BoundNamesConcat(bs[..|bs| - 1], [bs[|bs| - 1]]);
    assert BoundNames([bs[|bs| - 1]]) == {bs[|bs| - 1].field.name};
  }

  /** The lookup map Derive builds from the override bindings: for each name,
      the generator of the last override binding with that name. */
  function LastGens(os: seq<Binding>): map<string, Generator>
    decreases |os|
  {
    if os == [] then map[]
    else LastGens(os[..|os| - 1])[os[|os| - 1].field.name := os[|os| - 1].gen]
  }

  lemma LastGensSnoc(os: seq<Binding>, b: Binding)
    ensures LastGens(os + [b]) == LastGens(os)[b.field.name := b.gen]
  {
    assert (os + [b])[..|os|] == os;
  }

  lemma {:induction false} LastGensKeys(os: seq<Binding>)
    ensures LastGens(os).Keys == BoundNames(os)
    decreases |os|
  {
    if os != [] {
      LastGensKeys(os[..|os| - 1]);
      BoundNamesSnoc(os);
    }
  }

  /** `os[j]` is the last binding in `os` for the field `n`. */
  ghost predicate LastFor(os: seq<Binding>, n: string, j: int) {
    0 <= j < |os| && os[j].field.name == n && forall j' :: j < j' < |os| ==> os[j'].field.name != n
  }

  /** Each name in the lookup map maps to the generator of the last override
      binding with that name. */
  lemma {:induction false} LastGensSpec(os: seq<Binding>)
    ensures LastGens(os).Keys == BoundNames(os)
    ensures forall n :: n in LastGens(os) ==> exists j :: LastFor(os, n, j) && LastGens(os)[n] == os[j].gen
    decreases |os|
  {
    LastGensKeys(os);
    if os != [] {
      var init := os[..|os| - 1];
      var last := os[|os| - 1];
      LastGensSpec(init);
      assert init + [last] == os;
      LastGensSnoc(init, last);
      forall n | n in LastGens(os) ensures exists j :: LastFor(os, n, j) && LastGens(os)[n] == os[j].gen {
        if n != last.field.name {
          var j :| LastFor(init, n, j) && LastGens(init)[n] == init[j].gen;
          assert os[j] == init[j];
          forall j' | j < j' < |os| ensures os[j'].field.name != n {
            if j' < |init| { assert os[j'] == init[j']; }
          }
          assert LastFor(os, n, j);
        } else {
          assert LastFor(os, n, |os| - 1);
        }
      }
    }
  }

  /** The original binding at `i` after the in-place pass: the first binding
      with an overridden name takes the override's generator. */
  function ReplaceAt(bs: seq<Binding>, m: map<string, Generator>, i: nat): Binding
    requires i < |bs|
  {
    var name := bs[i].field.name;
    if name in m && name !in BoundNames(bs[..i]) then Binding(bs[i].field, m[name]) else bs[i]
  }

  function Replaced(bs: seq<Binding>, m: map<string, Generator>): seq<Binding> {
    seq(|bs|, i requires 0 <= i < |bs| => ReplaceAt(bs, m, i))
  }

  /** The override bindings whose names are absent from `names`, in order. */
  function Appended(os: seq<Binding>, names: set<string>): seq<Binding>
    decreases |os|
  {
    if os == [] then []
    else Appended(os[..|os| - 1], names) + if os[|os| - 1].field.name in names then [] else [os[|os| - 1]]
  }

  lemma AppendedSnoc(os: seq<Binding>, i: nat, names: set<string>)
    requires i < |os|
    ensures Appended(os[..i + 1], names) == Appended(os[..i], names) + if os[i].field.name in names then [] else [os[i]]
  {
    assert os[..i + 1][..i] == os[..i] && os[..i + 1][i] == os[i];
  }

  /** The bindings of the derived factory. */
  function DeriveBindings(bs: seq<Binding>, os: seq<Binding>): seq<Binding> {
    Replaced(bs, LastGens(os)) + Appended(os, BoundNames(bs))
  }

  /** The factory `f.Derive(fieldGenFuncs...)` returns, or its panic. */
  function DeriveSpec(f: Factory, fgs: seq<FieldGenFunc>): Checked<Factory> {
    match ResolveAll(f.typ, fgs)
    case Invalid(c) => Invalid(c)
    case Valid(os) => Valid(Factory(f.typ, DeriveBindings(f.bindings, os), f.callDepth))
  }

  /** `f.Derive(fieldGenFuncs...)`. The receiver is a value: nothing of it changes. */
  method Derive(f: Factory, fieldGenFuncs: seq<FieldGenFunc>) returns (r: Checked<Factory>)
    ensures r == DeriveSpec(f, fieldGenFuncs)
  {
    var made, newGensMap := CollectOverrides(f.typ, fieldGenFuncs);
    if made.Invalid? {
      return Invalid(made.cause);
    }
    var newGenList := made.value;
    LastGensKeys(newGenList);
    var fieldGens, remaining := OverrideOriginals(f.bindings, newGensMap);
    var added := AppendNew(newGenList, remaining, BoundNames(f.bindings));
    fieldGens := fieldGens + added;
    r := Valid(Factory(f.typ, fieldGens, f.callDepth));
  }

  /** The loop of `Derive` over the overrides: each declaration applied to a
      sample of the type, its bindings collected in order and entered into
      the lookup map, the later one of a name replacing the earlier. */
  method CollectOverrides(t: StructType, fieldGenFuncs: seq<FieldGenFunc>)
    returns (r: Checked<seq<Binding>>, newGensMap: map<string, Generator>)
    ensures r == ResolveAll(t, fieldGenFuncs)
    ensures r.Valid? ==> newGensMap == LastGens(r.value)
  {
    var newGenList: seq<Binding> := [];
    newGensMap := map[];
    var sample := t;
    for i := 0 to |fieldGenFuncs|
      invariant ResolveAll(t, fieldGenFuncs[..i]) == Valid(newGenList)
      invariant newGensMap == LastGens(newGenList)
    {
      var made := Bind(fieldGenFuncs[i], sample);
      if made.Invalid? {
        ResolveAllStops(t, fieldGenFuncs, i, newGenList);
        return Invalid(made.cause), newGensMap;
      }
      ResolveAllStep(t, fieldGenFuncs, i, newGenList, made.value);
      newGenList, newGensMap := AddOverrides(newGenList, newGensMap, made.value);
    }
    assert fieldGenFuncs[..|fieldGenFuncs|] == fieldGenFuncs;
    r := Valid(newGenList);
  }

  /** The inner loop: appends one declaration's bindings and enters each into
      the lookup map. */
  method AddOverrides(newGenList: seq<Binding>, newGensMap: map<string, Generator>, more: seq<Binding>)
    returns (list: seq<Binding>, gens: map<string, Generator>)
    requires newGensMap == LastGens(newGenList)
    ensures list == newGenList + more && gens == LastGens(list)
  {
    list, gens := newGenList, newGensMap;
    for j := 0 to |more|
      invariant list == newGenList + more[..j]
      invariant gens == LastGens(list)
    {
      var fg := more[j];
      gens := gens[fg.field.name := fg.gen];
      assert more[..j + 1] == more[..j] + [fg];
      LastGensSnoc(list, fg);
      list := list + [fg];
    }
    assert more[..|more|] == more;
  }

  /** The first pass of `Derive`: copies the original bindings in order,
      giving the first binding of each overridden name the override's
      generator and deleting that name from the lookup map. */
  method OverrideOriginals(bs: seq<Binding>, newGensMap: map<string, Generator>)
    returns (fieldGens: seq<Binding>, remaining: map<string, Generator>)
    ensures fieldGens == Replaced(bs, newGensMap)
    ensures remaining == newGensMap - BoundNames(bs)
  {
    remaining := newGensMap;
    fieldGens := [];
    for i := 0 to |bs|
      invariant |fieldGens| == i
      invariant forall k :: 0 <= k < i ==> fieldGens[k] == ReplaceAt(bs, newGensMap, k)
      invariant remaining == newGensMap - BoundNames(bs[..i])
    {
      var fg := bs[i];
      assert bs[..i + 1][..i] == bs[..i];
      BoundNamesSnoc(bs[..i + 1]);
      if fg.field.name in remaining {
        var gen := remaining[fg.field.name];
        remaining := remaining - {fg.field.name};
        fg := Binding(fg.field, gen);
      }
      fieldGens := fieldGens + [fg];
    }
    assert bs[..|bs|] == bs;
  }

  /** The second pass of `Derive`: the override bindings whose names are
      still in the lookup map, that is, that the original does not bind. */
  method AppendNew(newGenList: seq<Binding>, remaining: map<string, Generator>, ghost names: set<string>)
    returns (added: seq<Binding>)
    requires remaining.Keys == BoundNames(newGenList) - names
    ensures added == Appended(newGenList, names)
  {
    added := [];
    for i := 0 to |newGenList|
      invariant added == Appended(newGenList[..i], names)
    {
      var fg := newGenList[i];
      AppendedSnoc(newGenList, i, names);
      if fg.field.name in remaining {
        added := added + [fg];
      }
    }
    assert newGenList[..|newGenList|] == newGenList;
  }

  /** Derive keeps every original binding at its position with its field, and
      its generator unless it is the first binding of an overridden name,
      which takes the generator of the last override with that name. */
  lemma DeriveKeepsOriginals(bs: seq<Binding>, os: seq<Binding>)
    ensures |DeriveBindings(bs, os)| == |bs| + |Appended(os, BoundNames(bs))|
    ensures forall i :: 0 <= i < |bs| ==> DeriveBindings(bs, os)[i].field == bs[i].field
    ensures forall i :: 0 <= i < |bs| && bs[i].field.name !in BoundNames(os) ==> DeriveBindings(bs, os)[i] == bs[i]
    ensures forall i :: 0 <= i < |bs| && bs[i].field.name in BoundNames(bs[..i]) ==> DeriveBindings(bs, os)[i] == bs[i]
    ensures forall i :: 0 <= i < |bs| && bs[i].field.name in BoundNames(os) && bs[i].field.name !in BoundNames(bs[..i]) ==>
      exists j :: LastFor(os, bs[i].field.name, j) && DeriveBindings(bs, os)[i].gen == os[j].gen
  {
    LastGensSpec(os);
  }

  /** The appended part binds exactly the override names the original does
      not bind. */
  lemma {:induction false} AppendedNames(os: seq<Binding>, names: set<string>)
    ensures BoundNames(Appended(os, names)) == BoundNames(os) - names
    decreases |os|
  {
    if os != [] {
      var init := os[..|os| - 1];
      var last := os[|os| - 1];
      var s := if last.field.name in names then [] else [last];
      AppendedNames(init, names);
      BoundNamesSnoc(os);
      BoundNamesConcat(Appended(init, names), s);
      assert [last][0] == last;
      assert BoundNames([last]) == {last.field.name};
      assert BoundNames([]) == {};
    }
  }

  /** Every appended binding is an override binding. */
  lemma {:induction false} AppendedFrom(os: seq<Binding>, names: set<string>)
    ensures |Appended(os, names)| <= |os|
    ensures forall k :: 0 <= k < |Appended(os, names)| ==>
      exists j :: 0 <= j < |os| && Appended(os, names)[k] == os[j]
    decreases |os|
  {
    if os != [] {
      var init := os[..|os| - 1];
      AppendedFrom(init, names);
      var ai := Appended(init, names);
      var a := Appended(os, names);
      forall k | 0 <= k < |a| ensures exists j :: 0 <= j < |os| && a[k] == os[j] {
        if k < |ai| {
          var j :| 0 <= j < |init| && ai[k] == init[j];
          assert a[k] == ai[k] && os[j] == init[j];
        } else {
          assert a[k] == os[|os| - 1];
        }
      }
    }
  }

  /** With no name in common, everything is appended. */
  lemma {:induction false} AppendedAll(os: seq<Binding>, names: set<string>)
    requires names * BoundNames(os) == {}
    ensures Appended(os, names) == os
    decreases |os|
  {
    if os != [] {
      var init := os[..|os| - 1];
      BoundNamesSnoc(os);
      var x := os[|os| - 1].field.name;
      assert x in BoundNames(os);
      assert x !in names * BoundNames(os);
      assert x !in names;
      assert BoundNames(init) <= BoundNames(os);
      AppendedAll(init, names);
      assert os == init + [os[|os| - 1]];
    }
  }

  /** `Derive()` without overrides yields the same bindings. */
  lemma DeriveNothing(f: Factory)
    ensures DeriveSpec(f, []) == Valid(f)
  {
    assert ResolveAll(f.typ, []) == Valid([]);
    assert LastGens([]) == map[];
    assert Appended([], BoundNames(f.bindings)) == [];
    assert Replaced(f.bindings, map[]) == f.bindings;
    assert f.bindings + [] == f.bindings;
  }

  /** The generator of the last binding named `n`: the one whose assignment
      survives a population pass. */
  function Last(bs: seq<Binding>, n: string): Option<Generator>
    decreases |bs|
  {
    if bs == [] then None
    else if bs[|bs| - 1].field.name == n then Some(bs[|bs| - 1].gen)
    else Last(bs[..|bs| - 1], n)
  }

  lemma {:induction false} LastAppend(a: seq<Binding>, b: seq<Binding>, n: string)
    ensures Last(a + b, n) == if n in BoundNames(b) then Last(b, n) else Last(a, n)
    decreases |b|
  {
    if b == [] {
      assert a + b == a;
    } else {
      var init := b[..|b| - 1];
      assert (a + b)[..|a + b| - 1] == a + init;
      BoundNamesSnoc(b);
      LastAppend(a, init, n);
    }
  }

  lemma {:induction false} LastOf(os: seq<Binding>, n: string)
    ensures Last(os, n).Some? <==> n in BoundNames(os)
    ensures n in BoundNames(os) ==> n in LastGens(os) && Last(os, n) == Some(LastGens(os)[n])
    decreases |os|
  {
    if os != [] {
      var init := os[..|os| - 1];
      BoundNamesSnoc(os);
      LastOf(init, n);
    }
  }

  /** The position of the last of the first `n` bindings for field `x`. */
  function LastAt(bs: seq<Binding>, n: nat, x: string): (r: Option<nat>)
    requires n <= |bs|
    ensures r.Some? ==> r.value < n && bs[r.value].field.name == x &&
                        forall j :: r.value < j < n ==> bs[j].field.name != x
    ensures r.None? ==> forall j :: 0 <= j < n ==> bs[j].field.name != x
    decreases n
  {
    if n == 0 then None
    else if bs[n - 1].field.name == x then Some(n - 1)
    else LastAt(bs, n - 1, x)
  }

  /** The binding LastAt finds is the one `Last` names. */
  lemma {:induction false} LastAtIsLast(bs: seq<Binding>, n: nat, x: string)
    requires n <= |bs|
    ensures Last(bs[..n], x) == if LastAt(bs, n, x).Some? then Some(bs[LastAt(bs, n, x).value].gen) else None
    decreases n
  {
    if n > 0 {
      assert bs[..n][..n - 1] == bs[..n - 1];
      LastAtIsLast(bs, n - 1, x);
    }
  }

  /** Two binding lists that name the same fields position by position have
      their last binding for a field at the same position. */
  lemma {:induction false} LastAtSameNames(a: seq<Binding>, b: seq<Binding>, n: nat, x: string)
    requires n <= |a| && n <= |b|
    requires forall i :: 0 <= i < n ==> a[i].field.name == b[i].field.name
    ensures LastAt(a, n, x) == LastAt(b, n, x)
    decreases n
  {
    if n > 0 {
      LastAtSameNames(a, b, n - 1, x);
    }
  }

  /** With at most one original binding for `x`, the in-place pass leaves as
      the last binding for `x` the override's generator when `x` is
      overridden, and the original one otherwise. */
  lemma LastReplaced(bs: seq<Binding>, m: map<string, Generator>, x: string)
    requires forall i, j :: 0 <= i < j < |bs| ==> bs[i].field.name == x ==> bs[j].field.name != x
    ensures Last(Replaced(bs, m), x) == if x in BoundNames(bs) && x in m then Some(m[x]) else Last(bs, x)
  {
    var r := Replaced(bs, m);
    assert r[..|r|] == r && bs[..|bs|] == bs;
    LastAtIsLast(r, |r|, x);
    LastAtIsLast(bs, |bs|, x);
    LastAtSameNames(r, bs, |bs|, x);
    var k := LastAt(bs, |bs|, x);
    if k.Some? {
      var j := k.value;
      assert forall i :: 0 <= i < j ==> bs[..j][i].field.name != x;
      assert x !in BoundNames(bs[..j]);
      assert r[j] == ReplaceAt(bs, m, j);
      assert x in BoundNames(bs);
    }
  }

  /** When the original binds a name at most once, the binding that survives a
      population pass of the derived factory carries the last override's
      generator for every overridden name. */
  lemma OverrideWins(bs: seq<Binding>, os: seq<Binding>, x: string)
    requires x in BoundNames(os)
    requires forall i, j :: 0 <= i < j < |bs| ==> bs[i].field.name == x ==> bs[j].field.name != x
    ensures Last(DeriveBindings(bs, os), x) == Last(os, x)
  {
    var m := LastGens(os);
    LastOf(os, x);
    LastGensSpec(os);
    var r := Replaced(bs, m);
    var a := Appended(os, BoundNames(bs));
    LastAppend(r, a, x);
    LastReplaced(bs, m, x);
    AppendedNames(os, BoundNames(bs));
    if x !in BoundNames(bs) {
      LastFiltered(os, BoundNames(bs), x);
    }
  }

  /** When the original binds a name twice, the override takes the place of
      the first binding only, and the second one, which the population pass
      stores last, keeps its generator. */
  lemma OverrideShadowed(d: FieldDesc, g1: Generator, g2: Generator, g3: Generator)
    ensures var bs := [Binding(d, g1), Binding(d, g2)];
      var r := DeriveBindings(bs, [Binding(d, g3)]);
      |r| == 2 && r[0] == Binding(d, g3) && r[1] == Binding(d, g2) && Last(r, d.name) == Some(g2)
  {
    var bs := [Binding(d, g1), Binding(d, g2)];
    var os := [Binding(d, g3)];
    assert os[..0] == [];
    assert LastGens(os) == map[d.name := g3];
    assert BoundNames(bs) == {d.name} by {
      assert bs[0].field.name == d.name && bs[1].field.name == d.name;
    }
    assert Appended(os, BoundNames(bs)) == [];
    assert bs[..0] == [] && bs[..1] == [Binding(d, g1)];
    assert d.name in BoundNames(bs[..1]) by {
      assert bs[..1][0].field.name == d.name;
    }
    assert ReplaceAt(bs, LastGens(os), 0) == Binding(d, g3);
    assert ReplaceAt(bs, LastGens(os), 1) == Binding(d, g2);
    var r := DeriveBindings(bs, os);
    assert r == [Binding(d, g3), Binding(d, g2)];
  }

  lemma {:induction false} LastFiltered(os: seq<Binding>, names: set<string>, x: string)
    requires x !in names
    ensures Last(Appended(os, names), x) == Last(os, x)
    decreases |os|
  {
    if os != [] {
      var init := os[..|os| - 1];
      var last := os[|os| - 1];
      LastFiltered(init, names, x);
      var s := if last.field.name in names then [] else [last];
      LastAppend(Appended(init, names), s, x);
    }
  }
}
