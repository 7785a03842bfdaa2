/**
 * The struct handler of the `SchemaSerialize` derive
 * (serde_schema_derive/src/derive_struct.rs): one handler per struct style,
 * each a registration prelude for the fields followed by one `register_type`
 * whose chain starts with the container's serialize name.
 */
module SchemaStruct {

  import opened Wrappers
  import opened Tokens
  import opened Syntax
  import opened Builder
  import opened SchemaLib

  /** `derive_struct_unit`: no prelude, only `unit_struct_type(name)`. */
  function UnitStructCode(name: string): seq<Stmt>
  {
    [RegisterType([UnitStructType(name)])]
  }

  /** `derive_struct_newtype`: the field registrations, then `newtype_struct_type(name, type_id_0_0)`. */
  function NewtypeStructCode(name: string, fields: seq<Field>): seq<Stmt>
  {
    Registrations(0, fields) + [RegisterType([NewtypeStructType(name, TypeIdVar(0, 0))])]
  }

  /** The chain of `derive_struct_named_fields`: `struct_type(name, len)`, one `.field` per field, `.end()`. */
  function StructChain(name: string, fields: seq<Field>): seq<Call>
  {
    [StructType(name, |fields|)] + FieldCalls(0, fields) + [End]
  }

  /** The chain of `derive_struct_tuple`: `tuple_struct_type(name, len)`, one `.element` per field, `.end()`. */
  function TupleStructChain(name: string, fields: seq<Field>): seq<Call>
  {
    [TupleStructType(name, |fields|)] + ElementCalls(0, fields) + [End]
  }

  /** The code `derive_struct` emits for a struct of the given style. */
  function StructCode(style: Style, name: string, fields: seq<Field>): seq<Stmt>
  {
    match style
    case Struct => Registrations(0, fields) + [RegisterType(StructChain(name, fields))]
    case Newtype => NewtypeStructCode(name, fields)
    case Tuple => Registrations(0, fields) + [RegisterType(TupleStructChain(name, fields))]
    case Unit => UnitStructCode(name)
  }

  /** `derive_struct_named_fields`: a loop appends one `.field` per field between the header and `.end()`. */
  method DeriveStructNamedFields(name: string, fields: seq<Field>) returns (code: seq<Stmt>)
    ensures code == StructCode(Struct, name, fields)
  {
    var _, typeIds := DeriveRegisterFieldTypes(0, fields);
    var build := [StructType(name, |fields|)];
    var i := 0;
    while i < |fields|
      invariant 0 <= i <= |fields|
      invariant build == [StructType(name, |fields|)] + FieldCalls(0, fields)[..i]
    {
      build := build + [DeriveField(0, i, fields[i]).1];
      i := i + 1;
    }
    assert FieldCalls(0, fields)[..i] == FieldCalls(0, fields);
    build := build + [End];
    code := typeIds + [RegisterType(build)];
  }

  /** `derive_struct_tuple`: a loop appends one `.element` per field between the header and `.end()`. */
  method DeriveStructTuple(name: string, fields: seq<Field>) returns (code: seq<Stmt>)
    ensures code == StructCode(Tuple, name, fields)
  {
    var _, typeIds := DeriveRegisterFieldTypes(0, fields);
    var build := [TupleStructType(name, |fields|)];
    var i := 0;
    while i < |fields|
      invariant 0 <= i <= |fields|
      invariant build == [TupleStructType(name, |fields|)] + ElementCalls(0, fields)[..i]
    {
      build := build + [DeriveElement(0, i, fields[i]).1];
      i := i + 1;
    }
    assert ElementCalls(0, fields)[..i] == ElementCalls(0, fields);
    build := build + [End];
    code := typeIds + [RegisterType(build)];
  }

  /** `derive_struct`: each style goes to exactly one handler; the annotation half is `()`. */
  method DeriveStruct(style: Style, name: string, fields: seq<Field>) returns (code: seq<Stmt>)
    ensures code == StructCode(style, name, fields)
  {
    match style {
      case Struct =>
        code := DeriveStructNamedFields(name, fields);
      case Newtype =>
        var _, typeIds := DeriveRegisterFieldTypes(0, fields);
        code := typeIds + [RegisterType([NewtypeStructType(name, TypeIdVar(0, 0))])];
      case Tuple =>
        code := DeriveStructTuple(name, fields);
      case Unit =>
        code := UnitStructCode(name);
    }
  }

  /** The node a struct of the given style should register: its name and its members' type ids, in order. */
  function StructNodeOf(style: Style, name: string, fields: seq<Field>): Node<string>
  {
    match style
    case Struct => StructNode(name, FieldPairs(0, fields))
    case Newtype => NewtypeStructNode(name, TypeIdVar(0, 0))
    case Tuple => TupleStructNode(name, ElementIds(0, fields))
    case Unit => UnitStructNode(name)
  }

  /**
   * Whatever the style, the code is a run of `let` bindings ending in one
   * `register_type`, and its chain reads back as the declared struct: the
   * serialize name, the arity, and each member's name and type id in order.
   */
  lemma StructCodeReads(style: Style, name: string, fields: seq<Field>)
    ensures WellShaped(StructCode(style, name, fields))
    ensures var code := StructCode(style, name, fields);
      ReadChain(code[|code| - 1].chain) == Some(StructNodeOf(style, name, fields))
  {
    var n := |fields|;
    match style {
      case Struct =>
        var chain := StructChain(name, fields);
        assert chain[1..] == FieldCalls(0, fields) + [End];
        ReadFieldsAll(chain[1..], n);
        assert ReadFields(chain[1..], n).value.0 == FieldPairs(0, fields);
        assert chain[1..][n..] == [End];
      case Tuple =>
        var chain := TupleStructChain(name, fields);
        assert chain[1..] == ElementCalls(0, fields) + [End];
        ReadElementsAll(chain[1..], n);
        assert ReadElements(chain[1..], n).value.0 == ElementIds(0, fields);
        assert chain[1..][n..] == [End];
      case Newtype =>
      case Unit =>
    }
  }

  /**
   * Every type id the chain uses is bound by the prelude. A newtype struct
   * needs its one field for this: `type_id_0_0` is bound only when there is one.
   */
  lemma StructCodeClosed(style: Style, name: string, fields: seq<Field>)
    requires NewtypeHasField(style, fields)
    ensures WellShaped(StructCode(style, name, fields)) && Closed(StructCode(style, name, fields))
  {
    var code := StructCode(style, name, fields);
    StructCodeReads(style, name, fields);
    var chain, prelude := code[|code| - 1].chain, code[..|code| - 1];
    if !style.Unit? {
      assert prelude == Registrations(0, fields);
    }
    forall x | References(chain, x)
      ensures Defines(prelude, x)
    {
      match style {
        case Struct => StructChainRefs(name, fields, x);
        case Tuple => TupleChainRefs(name, fields, x);
        case Newtype => assert x == TypeIdVar(0, 0);
        case Unit =>
      }
      RegistrationsBind(0, fields, x);
    }
  }

  /** A named struct's chain uses only `type_id_0_f` for its fields f. */
  lemma StructChainRefs(name: string, fields: seq<Field>, x: string)
    requires References(StructChain(name, fields), x)
    ensures exists f :: 0 <= f < |fields| && x == TypeIdVar(0, f)
  {
    var chain := StructChain(name, fields);
    var i :| 0 <= i < |chain| && RefOf(chain[i]) == Some(x);
    assert chain[i] == FieldCalls(0, fields)[i - 1];
  }

  /** A tuple struct's chain uses only `type_id_0_f` for its elements f. */
  lemma TupleChainRefs(name: string, fields: seq<Field>, x: string)
    requires References(TupleStructChain(name, fields), x)
    ensures exists f :: 0 <= f < |fields| && x == TypeIdVar(0, f)
  {
    var chain := TupleStructChain(name, fields);
    var i :| 0 <= i < |chain| && RefOf(chain[i]) == Some(x);
    assert chain[i] == ElementCalls(0, fields)[i - 1];
  }

  /**
   * A newtype struct with no field at all (which serde never produces) would
   * reference a variable the prelude does not bind.
   */
  lemma NewtypeWithoutFieldOpen(name: string)
    ensures !Closed(StructCode(Newtype, name, []))
  {
    var code := StructCode(Newtype, name, []);
    var chain := code[|code| - 1].chain;
    assert RefOf(chain[0]) == Some(TypeIdVar(0, 0));
    assert References(chain, TypeIdVar(0, 0));
    assert code[..|code| - 1] == [];
  }

  /**
   * The annotation the tests expect for a struct, which `derive_struct`
   * does not produce (it returns `()`): a named struct braces its
   * `"name": ty` fields, a tuple struct brackets its types (one alone stays
   * bare), a newtype is its field's type, a unit struct is `{}`.
   */
  function StructAnnotation(style: Style, fields: seq<Field>): (r: Tokens)
    requires NewtypeHasField(style, fields)
    ensures style == Unit ==> r == [Punct("{"), Punct("}")]
    ensures style == Newtype ==> r == TypeToTs(fields[0].ty)
    ensures style == Tuple && |fields| == 1 ==> r == TypeToTs(fields[0].ty)
  {
    match style
    case Struct => CollapseListBrace(FieldAnnotations(fields))
    case Newtype => TypeToTs(fields[0].ty)
    case Tuple => CollapseListBracket(ElementAnnotations(fields))
    case Unit => CollapseListBrace([])
  }
}
