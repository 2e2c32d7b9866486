# go-factory, modelled in Dafny

This project models go-factory, a Go library that builds test fixtures. A
*factory* holds a target struct type and an ordered list of *bindings*, each
pairing one field with a *generator*. Populating an instance walks the
bindings in order. It calls each generator in a context that names the field
and shows the instance built so far. It stores the result, and it stops at
the first generator error. Factories are built by `NewFactory` from a
prototype value and binding declarations (`WithGen`, `Use(...).For(...)`, or
a `Builder`). `Derive` overrides bindings. The call depth is threaded through
copies of the factory (`dive`), so that self-referential generators can bound
their recursion.

Reflection is replaced by a small value model (`values.dfy`):
- a struct type is an ordered list of field descriptors (name, exported flag, kind);
- an instance is a map from field name to `Value`;
- `reflect.Zero` is `Zero`, and `reflect.New(typ).Elem()` is `ZeroFields`.

Generators form a closed datatype (`core.dfy`):
- constants (`adaptValue`);
- option selection with a round-robin counter object or a random index;
- user functions of the context;
- adapted arbitrary functions, with their pre-bound arguments;
- nested factories;
- a self-referential generator that fills a child through `ctx.Factory`
  until `CallDepth()` reaches a limit.

Configuration mistakes, on which the library panics, become a `ConfigError` inside
`Checked`. Population results are `Outcome.Ok`, `Outcome.Failed` (the
recoverable generator error) or `Outcome.Panicked`.

Modules follow the source files:
- `Counters` and `Gen` model gen.go.
- `Engine` (construction, `Derive`) and `Populate` (`SetFields`, `Create`, the
  `Must*` variants) model factory.go.
- `Dsl` models dsl.go.
- `Builders` models builder.go.

How a population pass is specified:
- Each pass is described by a trace of generator calls, the ghost predicate `Populate.Ran`.
- The imperative `Walk` loop is proved to produce such a trace.
- The lemmas on `Ran` state what a pass does: binding order, the context of
  each call, the last binding of a field wins, no rollback on error,
  determinism, and prototype seeding.

Three behaviours of the code that the model keeps as written:
- A generated value whose type does not match the field makes `field.Set`
  panic (factory.go:129); it is not zeroed. The model makes this a
  precondition: `Runnable` and `Assignable`.
- `Derive` gives an override's generator only to the *first* original
  binding of that name, because the name is deleted from the lookup map
  there (factory.go:66-70). A later original binding of the same name keeps
  its own generator, and since the pass stores it last, the override has no
  effect on that field. `Engine.OverrideShadowed` exhibits this.
  `Engine.OverrideWins` states the override's effect for originals that
  bind the name at most once.
- `NewGenerator` tests `GeneratorFunc` and `func(Ctx)` before `*Factory`, then
  any other function, then plain values (gen.go:97-135).

## Model

| member | source | states |
|---|---|---|
| Values.Zero | factory.go:121-123 | the zero value has the field's kind, and it is nil exactly for slice, pointer and map kinds |
| Values.ZeroFields | factory.go:88-90 | a fresh instance has exactly the type's fields, each at its zero value |
| Values.Lookup | factory.go:167-170 | finds a field exactly when the name is declared; it returns that declared field |
| Counters.SeqCounter.constructor | gen.go:57-58 | `Seq(max)` starts its counter at 0 with the given bound |
| Counters.SeqCounter.Next | gen.go:59-63 | a call returns the old count modulo `max`, which lies in [0, abs(max)), and advances the count by one |
| Counters.Rnd | gen.go:67-71 | a call returns an index in [0, max) |
| Counters.SeqCalls | gen.go:56-64 | the j-th call of a fresh `Seq(max)` returns `j mod max`, for any non-zero `max` |
| Counters.SeqFiveSeven | gen.go:56-64 | seven calls of `Seq(5)` return 0,1,2,3,4,0,1 |
| Gen.AdaptValue | gen.go:12-16 | the generator returns `(v, nil)` for every context, nil included |
| Gen.AdaptFunc | gen.go:21-45 | succeeds iff the arity matches (or the function is variadic), it has 1 or 2 results, and a second result is an error; otherwise it gives the arity, result-count or error-type panic, in that order |
| Gen.CallAdapted | gen.go:47-53 | the value is the first result; the error is the second result only when there are two results and the second is non-nil |
| Gen.Select | gen.go:74-79 | keeps the options; the `Seq` strategy gives a fresh counter over `len(options)` at 0, and `Rnd` gives a random index |
| Gen.Choose | gen.go:76-78 | a call returns a member of the options and no error; round-robin returns `options[n mod len]` and advances the counter by one |
| Gen.SeqSelect | gen.go:82-84 | is `Select(Seq, options...)`: a fresh round-robin counter over the options |
| Gen.SeqSelectCalls | gen.go:74-84 | the k-th call of a fresh `SeqSelect(opts...)` returns `opts[k mod len(opts)]` with a nil error |
| Gen.RndSelect | gen.go:87-89 | is `Select(Rnd, options...)` over exactly the given options |
| Gen.NewGenerator | gen.go:92-136 | first-match dispatch: generators, context functions and factories are used as is; other functions go through `adaptFunc` (the only case that can panic); a plain value is a constant, or a random selection over `[v] ++ args` |
| Gen.NewGeneratorIgnoresArgs | gen.go:97-120 | the extra arguments do not matter for generators, context functions and factories |
| Gen.PlainWithArgsSelects | gen.go:134-135 | a value with extra values selects at random among all of them, the value first |
| Engine.Dive | factory.go:35-41 | `dive` gives the factory one level deeper: depth plus one, same type and bindings |
| Engine.CallDepth | factory.go:44-46 | `CallDepth` reports the depth the factory copy carries: 0 for a new factory (`NewFactoryOrder`), one more per `dive` |
| Engine.DiveNDepth | factory.go:35-46 | k dives raise `CallDepth` by exactly k and keep the type and bindings |
| Engine.ResolveValid | factory.go:166-182 | a `WithGen` declaration applies without panic iff every name is an exported field |
| Engine.ResolveBindings | factory.go:164-186 | a successful declaration gives one binding per name, in order, each for the named field and with the same generator |
| Engine.ResolveFirstError | factory.go:166-182 | a failing declaration panics with the not-found or not-settable error of the first bad name |
| Engine.Bind | factory.go:163-187 | the loop of the `WithGen` closure computes exactly the declaration's bindings or its first panic |
| Engine.ResolveAllConcat | factory.go:248-250 | applying two lists of declarations in turn is applying their concatenation; the first panic wins |
| Engine.ResolveAllSound | factory.go:248-250 | every resolved binding is for an exported field of the type, and its generator comes from one of the declarations |
| Engine.IsZero | factory.go:191-201 | a value counts as zero iff it equals its kind's zero value (nil for slices, pointers and maps) |
| Engine.ProtoGens | factory.go:205-231 | the loop yields `Use(v).For(name)` for each exported non-zero field, in declaration order |
| Engine.ProtoSeedsResolve | factory.go:220-222 | the prototype's declarations never panic and resolve to its constant seed bindings |
| Engine.SeedBindingsSpec | factory.go:211-228 | every seed binding is the constant binding of an exported non-zero field; every such field has one; no field is seeded twice |
| Engine.SeedLast | factory.go:211-228 | a field has a seed binding iff it is seeded, and that binding is its prototype value's constant |
| Engine.NewFactory | factory.go:234-253 | `NewFactory` applies the prototype seeds and then the explicit declarations in order |
| Engine.NewFactoryOrder | factory.go:237-252 | the factory is built iff the explicit declarations resolve, with the same panic otherwise; its bindings are the seed bindings followed by the explicit ones, at depth 0, all for exported fields |
| Engine.NewFactoryNoDecls | factory.go:234-252 | with no declarations, the factory is the prototype's seed bindings at depth 0 |
| Engine.LastGensSpec | factory.go:55-60 | the override map has exactly the overridden names, each mapped to the generator of the last override binding of that name |
| Engine.Derive | factory.go:50-86 | `Derive` returns the factory of the in-place replacement followed by the appended new names, with the receiver's type and depth, or the declarations' first panic |
| Engine.CollectOverrides | factory.go:52-60 | the collect loop yields the overrides' bindings in order and the map of last generators by name |
| Engine.AddOverrides | factory.go:56-59 | appending one declaration's bindings keeps the map equal to the last generator per name |
| Engine.OverrideOriginals | factory.go:63-72 | the copy loop replaces the first original binding of each overridden name; the map is left with the names the original does not bind |
| Engine.AppendNew | factory.go:75-79 | the append loop adds, in order, the override bindings whose names the original does not bind |
| Engine.DeriveKeepsOriginals | factory.go:63-79 | the derived length is the original plus the appended; each original position keeps its field; non-overridden and later duplicate bindings are unchanged; the first binding of an overridden name gets the last override's generator |
| Engine.AppendedNames | factory.go:75-79 | the appended bindings name exactly the override names absent from the original |
| Engine.AppendedFrom | factory.go:75-79 | every appended binding is one of the overrides, and there are at most as many |
| Engine.AppendedAll | factory.go:75-79 | when no override name is in the original, all overrides are appended, in order |
| Engine.DeriveNothing | factory.go:50-86 | deriving with no declarations gives back the same factory |
| Engine.LastReplaced | factory.go:66-72 | after the in-place pass, the last binding of a name bound at most once carries the override's generator if there is one |
| Engine.OverrideWins | factory.go:52-79 | for a name the original binds at most once, the derived factory's last binding of an overridden name carries the last override's generator |
| Engine.OverrideShadowed | factory.go:66-70 | when the original binds a name twice, the override replaces only the first, and the second still comes last |
| Populate.Coerce | factory.go:113-124 | nil becomes the field's zero value, a pointer into a non-pointer field is dereferenced, and a value of the field's kind is stored as is |
| Populate.NilAssignable | factory.go:121-123 | a nil result can be stored in any field |
| Populate.Instance.Set | factory.go:126-129 | `field.Set` changes that one field and no other |
| Populate.LastWriteWins | factory.go:103-130 | after the first n stores, a field holds the coerced value of its last binding among them, and keeps its old value if none binds it |
| Populate.Walk | factory.go:99-131 | the loop calls the generators in binding order, with the field name and the factory one level deeper; it stores each coerced result and returns the first error with the earlier fields kept |
| Populate.Invoke | factory.go:105-108 | one generator call returns what that generator produces; a successful result can be stored in the field; round-robin selection gives the exact option and advances its counter |
| Populate.ProducedAssignable | factory.go:113-129 | a well-behaved generator's successful result survives coercion with the field's kind, so `field.Set` does not panic |
| Populate.CallNested | gen.go:116-120 | a nested factory's generator runs its `Create()`; on success it returns a pointer to the populated child |
| Populate.CallRecurse | factory.go:99 | a self-referential generator returns nil at its depth limit; otherwise it returns a child populated by the context's factory, one level deeper |
| Populate.SetFields | factory.go:93-132 | with overrides it is `Derive(overrides).SetFields` (or the config panic, leaving the instance untouched); without, it is one pass of the factory, returning the first generator error |
| Populate.MustSetFields | factory.go:135-139 | never returns an error: a generation error becomes a panic, a configuration error of the overrides panics with its cause, and otherwise the pass is that of `SetFields` |
| Populate.Create | factory.go:142-149 | starts from a fresh zero instance, runs `SetFields`, and returns the instance or the error |
| Populate.MustCreate | factory.go:152-158 | `Create` with no error returned: a generation error becomes a panic, and a configuration error of the overrides panics with its cause |
| Populate.DerivedRunnable | factory.go:94-96 | a derived factory of well-behaved bindings is well-behaved, with no counters beyond the receiver's and the overrides' |
| Populate.RanFields | factory.go:103-130 | each generator sees the instance after the earlier stores; a full pass stores every binding; a stopped pass stores all but the failing one |
| Populate.RanLastWins | factory.go:103-130 | after a successful pass, each field holds its last binding's coerced result, or its old value if unbound |
| Populate.RanStoppedKeeps | factory.go:108-111 | after a pass that stops at an error, a field holds the result of its last binding before the failing one, or its old value |
| Populate.Deterministic | factory.go:103-130 | with stateless generators, two passes from the same instance make the same calls and end in the same state and error |
| Populate.ConstPass | factory.go:103-111 | a factory of constant bindings never fails, and each call returns its constant |
| Populate.PrototypeSeeding | factory.go:205-231 | a pass of the prototype's own factory succeeds; it leaves each seeded field at the (coerced) prototype value and every other field at zero |
| Populate.PrefixDepth | factory.go:99 | every generator of a pass sees the factory one call level deeper with the same bindings |
| Populate.RecurseDepth | factory.go:99 | a self-referential generator recurses only below its limit, and the child's generators see depth two more than the parent factory |
| Dsl.FieldGeneratorBuilder.For | dsl.go:14-16 | `For` is the `WithGen` declaration of the builder's generator for those fields |
| Dsl.Use | dsl.go:9-11 | `Use` succeeds iff `NewGenerator` does, with the same panic |
| Dsl.UseFor | dsl.go:9-16 | `Use(i, args).For(fields)` is `WithGen(NewGenerator(i, args), fields)`, and only a rejected function signature panics |
| Dsl.ForBindings | dsl.go:14-16 | applied to a type, `For` panics iff a name is missing or unexported (the first one's error); otherwise every binding shares the one generator `Use` built |
| Dsl.UsePlainConst | gen.go:129-132 | `Use(v).For(fields)` gives each field a constant binding of `v` |
| Dsl.ProtoSeedsAreUses | factory.go:220-222 | every prototype declaration is `Use(v).For(name)` for a seeded field holding `v` |
| Builders.Builder.constructor | builder.go:25-27 | `NewBuilder` keeps the prototype, with no declarations yet |
| Builders.Builder.WithGen | builder.go:30-33 | appends exactly one declaration at the end and returns the same builder |
| Builders.Builder.Use | builder.go:37-42 | builds the generator at once (or panics as `NewGenerator` does); the returned `For` is bound to this builder |
| Builders.Builder.And | builder.go:45-47 | `And` is `Use` |
| Builders.Builder.Build | builder.go:50-52 | `Build` is `NewFactory(proto, fGens...)`, in accumulation order |
| Builders.ForBuilder.constructor | builder.go:15-18 | keeps the generator and the builder |
| Builders.ForBuilder.For | builder.go:20-22 | appends `WithGen(g, fields)` to its builder and returns that builder |
| Builders.BuildExtends | builder.go:50-52 | one more declaration: the build panics iff the earlier ones or the new one do (earlier first); otherwise the bindings are extended by the new declaration's |
| Builders.BuildTwo | builder.go:20-52 | `NewBuilder(p).Use(..).For(..).And(..).For(..).Build()` is the factory of the two declarations in order, or the first generator panic |
| Builders.BuildThenExtend | builder.go:50-52 | a built factory is unaffected by later `WithGen` calls on its builder |

## Left out

- Reflection internals (`reflect.New`, `FieldByIndex`, `CanSet`, `val.Call`) are replaced by field descriptors and maps.
- Embedded-field promotion in `FieldByName` is not modelled: `Lookup` finds the first directly declared field of that name.
- The "field is not valid" panic (factory.go:175-177) is left out: a field found by name is always valid in the model.
- Randomness: `Rnd` and `RndSelect` only promise an index in range. The random source is an external library.
- Concurrency: the atomic increment in `Seq` is modelled as a sequential counter update.
- Counters.SeqCounter.Next: does not model int64 wrap-around of the counter, because the count is an unbounded natural.
- Counters.SeqCounter.Next: `Seq(0)` (Go's modulo by zero) is a precondition, not a runtime panic.
- User code cannot be seen, so user generators get a view of the context (field, instance snapshot, call depth) rather than the factory itself. Re-entry through `ctx.Factory.SetFields` is the dedicated `Recurse(limit)` generator, which bounds the recursion by its limit. Unbounded user recursion is not modelled.
- Populate.Walk: the type-mismatch panic of `field.Set` (factory.go:129) is a precondition (`Runnable`), not an outcome.
- Engine.IsZero: the runtime panic on non-comparable struct values (factory.go:199) is not modelled; struct values compare structurally.
- Gen.CallAdapted: `IsNil` on a non-nilable second result (gen.go:49) is not modelled.
- Populate.Walk: its contract gives only membership of the options for selection generators. `Populate.Invoke` states the exact round-robin index.
- Builders.Builder.Build: requires the prototype to hold a value for every declared field (`Complete`), which every Go struct value does.
- A nil pointer result has no element in the model (`Nil` is not a `Ptr`), so the dereference panic for a typed nil pointer (factory.go:119) is not modelled.
- Generators see the instance as a snapshot of its fields at the time of the call, not a pointer to it; a generator cannot write to the instance.
- Populate.Deterministic: user functions (`FromCtx` generators and adapted functions) are modelled as pure functions of their inputs. So `Stateless` and `Deterministic` speak of deterministic user code; a user function such as a UUID or random-data generator, which the source calls afresh on every generation (gen.go:48), is not deterministic in the source.
