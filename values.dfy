/**
  The part of Go's reflection that the factory engine relies on: struct types
  as ordered lists of field descriptors, the values a field can hold, zero
  values, and field lookup by name.
 */
module Values {

  datatype Option<+T> = None | Some(value: T)

  /** The kind of a field's type, as far as zero values and assignment need it. */
  datatype Kind =
    | IntKind
    | BoolKind
    | StringKind
    | PtrKind
    | SliceKind
    | MapKind
    | StructKind(fields: seq<FieldDesc>)

  /** A struct field: its name, whether it is exported (only exported fields
      can be set through reflection), and the kind of its type. */
  datatype FieldDesc = FieldDesc(name: string, exported: bool, kind: Kind)

  /** A struct type is its fields in declaration order. */
  type StructType = seq<FieldDesc>

  /** A dynamic value. `Nil` is the untyped nil a generator may return
      (a reflect.Value of kind Invalid); `Ptr` is a non-nil pointer. */
  datatype Value =
    | Nil
    | Int(i: int)
    | Bool(b: bool)
    | Str(s: string)
    | Ptr(elem: Value)
    | Slice(elems: seq<Value>)
    | Dict(entries: map<Value, Value>)
    | Struct(fields: map<string, Value>)

  /** Slices, pointers and maps: the kinds whose zero value is nil. */
  predicate Nilable(k: Kind) {
    k.PtrKind? || k.SliceKind? || k.MapKind?
  }

  /** A value of the right shape for a field of kind `k` (the shallow type
      tag that `reflect.Value.Set` checks). */
  predicate HasKind(v: Value, k: Kind) {
    match k
    case IntKind => v.Int?
    case BoolKind => v.Bool?
    case StringKind => v.Str?
    case PtrKind => v.Nil? || v.Ptr?
    case SliceKind => v.Nil? || v.Slice?
    case MapKind => v.Nil? || v.Dict?
    case StructKind(_) => v.Struct?
  }

  function Names(t: StructType): set<string> {
    set d | d in t :: d.name
  }

  /** Go struct types never declare a field name twice. */
  predicate UniqueNames(t: StructType) {
    forall i, j :: 0 <= i < j < |t| ==> t[i].name != t[j].name
  }

  /** The zero value of a kind (reflect.Zero). */
  function Zero(k: Kind): (z: Value)
    ensures HasKind(z, k)
    ensures z.Nil? <==> Nilable(k)
    decreases k
  {
    match k
    case IntKind => Int(0)
    case BoolKind => Bool(false)
    case StringKind => Str("")
    case PtrKind => Nil
    case SliceKind => Nil
    case MapKind => Nil
    case StructKind(fs) => Struct(ZeroFields(fs))
  }

  /** The fields of the zero instance of a struct type (reflect.New(typ).Elem()). */
  function ZeroFields(t: StructType): (m: map<string, Value>)
    ensures m.Keys == Names(t)
    ensures UniqueNames(t) ==> forall i :: 0 <= i < |t| ==> m[t[i].name] == Zero(t[i].kind)
    decreases t
  {
    if t == [] then map[]
    else
      var init := t[..|t| - 1];
      var last := t[|t| - 1];
      assert t == init + [last];
      assert Names(t) == Names(init) + {last.name};
      assert UniqueNames(t) ==> UniqueNames(init) && last.name !in Names(init);
      ZeroFields(init)[last.name := Zero(last.kind)]
  }

  /** The first field named `name` (reflect.Type.FieldByName, without the
      promotion of embedded fields). */
  function Lookup(t: StructType, name: string): (r: Option<FieldDesc>)
    ensures r.Some? <==> name in Names(t)
    ensures r.Some? ==> r.value in t && r.value.name == name
    ensures UniqueNames(t) ==> forall i :: 0 <= i < |t| && t[i].name == name ==> r == Some(t[i])
  {
    if t == [] then None
    else if t[0].name == name then Some(t[0])
    else
      assert Names(t) == {t[0].name} + Names(t[1..]) by {
        assert forall d :: d in t <==> d == t[0] || d in t[1..];
      }
      assert UniqueNames(t) ==> UniqueNames(t[1..]) by {
        if UniqueNames(t) {
          forall i, j | 0 <= i < j < |t[1..]| ensures t[1..][i].name != t[1..][j].name {
            assert t[1..][i] == t[i + 1] && t[1..][j] == t[j + 1];
          }
        }
      }
      var r := Lookup(t[1..], name);
      assert UniqueNames(t) ==> forall i :: 0 < i < |t| && t[i].name == name ==> r == Some(t[i]) by {
        if UniqueNames(t) {
          forall i | 0 < i < |t| && t[i].name == name ensures r == Some(t[i]) {
            assert t[1..][i - 1] == t[i];
          }
        }
      }
      r
  }
}
