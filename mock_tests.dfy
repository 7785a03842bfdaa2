/**
 * The cases of serde_schema_derive/tests/typescript.rs, each a container
 * derived and registered with a fresh `MockSchema`: the annotation the
 * generated `_typescript_definition` function returns, the id
 * `schema_register` returns, and the one type it registers.
 */
module MockTests {

  import opened Wrappers
  import opened Tokens
  import opened Syntax
  import opened Builder
  import opened SchemaLib
  import opened SchemaEnum
  import opened SchemaStruct
  import opened SchemaDerive
  import opened Mock

  /**
   * The ids the cases' field types register as: `bool`, `i64`, `u64` and
   * the string types have their own id, anything else is `Unknown`.
   */
  function CaseTypeIds(ty: Ty): (id: MockTypeId)
    ensures !id.Custom?
  {
    if ty == Named("bool") then TypeIdOf(Bool)
    else if ty == Named("i64") then TypeIdOf(I64)
    else if ty == Named("u64") then TypeIdOf(U64)
    else if ty in {Named("String"), TypeReference(Named("str")), CowStr} then TypeIdOf(Str)
    else Unknown
  }

  /** The field types the cases use, each one whose own registration adds no node. */
  predicate CaseType(ty: Ty)
  {
    ty in {Named("bool"), Named("i64"), Named("u64"), Named("String"), TypeReference(Named("str")), CowStr}
  }

  /** Every field type of c, in every variant, is one the cases use. */
  predicate CaseContainer(c: Container)
  {
    match c.data
    case StructData(_, fields) => forall i :: 0 <= i < |fields| ==> CaseType(fields[i].ty)
    case EnumData(variants) =>
      forall i, j :: 0 <= i < |variants| && 0 <= j < |variants[i].fields| ==> CaseType(variants[i].fields[j].ty)
  }

  /** `Cow<'a, str>` */
  const CowStr: Ty := TypePath(false, false, [Segment("Cow", AngleBracketed([LifetimeArg, TypeArg(Named("str"))]))])

  /** Derives c, registers it with an empty schema, and reports the annotation, the id and the registry. */
  method DeriveAndRegister(c: Container) returns (annotation: Tokens, id: Option<MockTypeId>, types: seq<Node<MockTypeId>>)
    requires WellFormedContainer(c) && CaseContainer(c)
    ensures c.data.EnumData? ==>
      && annotation == EnumAnnotation(c.data.variants)
      && types == [EnumNode(c.name, TypedVariants(c.data.variants, CaseTypeIds))]
    ensures c.data.StructData? ==>
      && annotation == StructAnnotation(c.data.style, c.data.fields)
      && types == [TypedStruct(c.data.style, c.name, c.data.fields, CaseTypeIds)]
    ensures id == Some(Custom(0))
  {
    var d := DeriveSchemaSerialize(c);
    match c.data {
      case EnumData(variants) => EnumExecutes(c.name, variants, CaseTypeIds);
      case StructData(style, fields) => StructExecutes(style, c.name, fields, CaseTypeIds);
    }
    var schema := new MockSchema();
    id := SchemaRegister(schema, d.body, CaseTypeIds);
    annotation := d.annotation;
    types := schema.types;
  }

  /** The annotation of three variants is their three fragments in order. */
  lemma EnumAnnotationOfThree(a: Variant, b: Variant, c: Variant)
    requires WellFormedVariants([a, b, c])
    ensures EnumAnnotation([a, b, c]) == VariantFragment(a) + VariantFragment(b) + VariantFragment(c)
  {
    assert [a, b, c][1..] == [b, c] && [b, c][1..] == [c] && [c][1..] == [];
    assert EnumAnnotation([c]) == VariantFragment(c);
    assert EnumAnnotation([b, c]) == VariantFragment(b) + VariantFragment(c);
  }

  /** The typed entries of three variants, in order. */
  lemma TypedVariantsOfThree(a: Variant, b: Variant, c: Variant, fieldIds: Ty -> MockTypeId)
    requires WellFormedVariants([a, b, c])
    ensures TypedVariants([a, b, c], fieldIds) == [TypedVariant(a, fieldIds), TypedVariant(b, fieldIds), TypedVariant(c, fieldIds)]
  {
    assert [a, b, c][0] in [a, b, c] && [a, b, c][1] in [a, b, c] && [a, b, c][2] in [a, b, c];
  }

  /** Two elements whose types annotate as x and y bracket as `[x, y,]`. */
  lemma PairFragment(f: Field, g: Field, x: Token, y: Token)
    requires TypeToTs(f.ty) == [x] && TypeToTs(g.ty) == [y]
    ensures CollapseListBracket(ElementAnnotations([f, g])) == [Punct("["), x, Punct(","), y, Punct(","), Punct("]")]
  {
    var parts := ElementAnnotations([f, g]);
    assert parts == [[x], [y]];
    assert parts[1..] == [[y]] && parts[1..][1..] == [];
    assert CommaTerminated(parts[1..]) == [y, Punct(",")];
  }

  /** Two fields whose types annotate as x and y brace as `{"f": x, "g": y,}`. */
  lemma PairRecord(f: Field, g: Field, x: Token, y: Token)
    requires TypeToTs(f.ty) == [x] && TypeToTs(g.ty) == [y]
    ensures CollapseListBrace(FieldAnnotations([f, g])) ==
      [Punct("{"), Lit(f.name), Punct(":"), x, Punct(","), Lit(g.name), Punct(":"), y, Punct(","), Punct("}")]
  {
    var parts := FieldAnnotations([f, g]);
    assert FieldAnnotation(f) == [Lit(f.name), Punct(":"), x];
    assert FieldAnnotation(g) == [Lit(g.name), Punct(":"), y];
    assert parts == [[Lit(f.name), Punct(":"), x], [Lit(g.name), Punct(":"), y]];
    assert parts[1..] == [[Lit(g.name), Punct(":"), y]] && parts[1..][1..] == [];
    assert CommaTerminated(parts[1..]) == [Lit(g.name), Punct(":"), y, Punct(",")];
  }

  /** One field whose type annotates as x and registers as id. */
  lemma SingleRecord(f: Field, x: Token, id: MockTypeId)
    requires TypeToTs(f.ty) == [x] && CaseTypeIds(f.ty) == id
    ensures CollapseListBrace(FieldAnnotations([f])) == [Punct("{"), Lit(f.name), Punct(":"), x, Punct(","), Punct("}")]
    ensures FieldTypePairs([f], CaseTypeIds) == [(f.name, id)]
  {
    var parts := FieldAnnotations([f]);
    assert FieldAnnotation(f) == [Lit(f.name), Punct(":"), x];
    assert parts == [[Lit(f.name), Punct(":"), x]] && parts[1..] == [];
    assert CommaTerminated(parts) == [Lit(f.name), Punct(":"), x, Punct(",")];
  }

  /** Two elements whose types register as x and y. */
  lemma PairIds(fields: seq<Field>, x: MockTypeId, y: MockTypeId)
    requires |fields| == 2 && CaseTypeIds(fields[0].ty) == x && CaseTypeIds(fields[1].ty) == y
    ensures FieldTypeIds(fields, CaseTypeIds) == [x, y]
  {
  }

  /** Two fields whose types register as x and y. */
  lemma PairNamedIds(fields: seq<Field>, x: MockTypeId, y: MockTypeId)
    requires |fields| == 2 && CaseTypeIds(fields[0].ty) == x && CaseTypeIds(fields[1].ty) == y
    ensures FieldTypePairs(fields, CaseTypeIds) == [(fields[0].name, x), (fields[1].name, y)]
  {
  }

  /** Derives and registers an enum of three variants: their fragments in order, and their typed entries. */
  method DeriveEnumOfThree(name: string, a: Variant, b: Variant, c: Variant)
    returns (annotation: Tokens, id: Option<MockTypeId>, types: seq<Node<MockTypeId>>)
    requires NewtypeHasField(a.style, a.fields) && NewtypeHasField(b.style, b.fields) && NewtypeHasField(c.style, c.fields)
    requires forall f :: f in a.fields + b.fields + c.fields ==> CaseType(f.ty)
    ensures annotation == VariantFragment(a) + VariantFragment(b) + VariantFragment(c)
    ensures id == Some(Custom(0))
    ensures types == [EnumNode(name, [TypedVariant(a, CaseTypeIds), TypedVariant(b, CaseTypeIds), TypedVariant(c, CaseTypeIds)])]
  {
    EnumAnnotationOfThree(a, b, c);
    TypedVariantsOfThree(a, b, c, CaseTypeIds);
    var variants := [a, b, c];
    forall i, j | 0 <= i < |variants| && 0 <= j < |variants[i].fields|
      ensures CaseType(variants[i].fields[j].ty)
    {
      assert variants[i].fields[j] in a.fields + b.fields + c.fields;
    }
    annotation, id, types := DeriveAndRegister(Container(name, name, EnumData([a, b, c])));
  }

  /** How the primitive field types of the cases annotate and register. */
  lemma PrimitiveTypes()
    ensures TypeToTs(Named("i64")) == [Ident("number")] && CaseTypeIds(Named("i64")) == Int64
    ensures TypeToTs(Named("u64")) == [Ident("number")] && CaseTypeIds(Named("u64")) == Uint64
    ensures TypeToTs(Named("bool")) == [Ident("boolean")] && CaseTypeIds(Named("bool")) == Boolean
    ensures TypeToTs(Named("String")) == [Ident("string")] && CaseTypeIds(Named("String")) == String
  {
  }

  /** A newtype variant over a type that annotates as x and registers as id. */
  lemma NewtypeVariantOf(name: string, ty: Ty, x: Token, id: MockTypeId)
    requires TypeToTs(ty) == [x] && CaseTypeIds(ty) == id
    ensures var v := Variant(name, Newtype, [Field("0", ty)]);
      VariantFragment(v) == TaggedFragment(name, [x]) && TypedVariant(v, CaseTypeIds) == NewtypeVariantNode(name, id)
  {
  }

  /** A two-element tuple variant whose types annotate as x, y and register as i, j. */
  lemma TupleVariantOf(name: string, f: Field, g: Field, x: Token, y: Token, i: MockTypeId, j: MockTypeId)
    requires TypeToTs(f.ty) == [x] && TypeToTs(g.ty) == [y] && CaseTypeIds(f.ty) == i && CaseTypeIds(g.ty) == j
    ensures var v := Variant(name, Tuple, [f, g]);
      && VariantFragment(v) == TaggedFragment(name, [Punct("["), x, Punct(","), y, Punct(","), Punct("]")])
      && TypedVariant(v, CaseTypeIds) == TupleVariantNode(name, [i, j])
  {
    PairFragment(f, g, x, y);
    PairIds([f, g], i, j);
  }

  /** `struct Unit;` annotates as `{}` and registers `unit_struct_type("Unit")`. */
  method UnitStructCase() returns (annotation: Tokens, id: Option<MockTypeId>, types: seq<Node<MockTypeId>>)
    ensures annotation == [Punct("{"), Punct("}")]
    ensures id == Some(Custom(0)) && types == [UnitStructNode("Unit")]
  {
    annotation, id, types := DeriveAndRegister(Container("Unit", "Unit", StructData(Unit, [])));
  }

  /** `struct Newtype(i64);` annotates as `number` and registers its field as `Int64`. */
  method NewtypeStructCase() returns (annotation: Tokens, id: Option<MockTypeId>, types: seq<Node<MockTypeId>>)
    ensures annotation == [Ident("number")]
    ensures id == Some(Custom(0)) && types == [NewtypeStructNode("Newtype", Int64)]
  {
    annotation, id, types := DeriveAndRegister(Container("Newtype", "Newtype", StructData(Newtype, [Field("0", Named("i64"))])));
  }

  /** `struct Tuple(i64, String);` annotates as `[number, string,]` and registers `Int64`, `String` in order. */
  method TupleStructCase() returns (annotation: Tokens, id: Option<MockTypeId>, types: seq<Node<MockTypeId>>)
    ensures annotation == [Punct("["), Ident("number"), Punct(","), Ident("string"), Punct(","), Punct("]")]
    ensures id == Some(Custom(0)) && types == [TupleStructNode("Tuple", [Int64, String])]
  {
    var fields := [Field("0", Named("i64")), Field("1", Named("String"))];
    PrimitiveTypes();
    PairFragment(fields[0], fields[1], Ident("number"), Ident("string"));
    PairIds(fields, Int64, String);
    annotation, id, types := DeriveAndRegister(Container("Tuple", "Tuple", StructData(Tuple, fields)));
  }

  /**
   * `struct Borrow<'a> { raw: &'a str, cow: Cow<'a, str> }`: neither type is
   * a bare name, so both annotate as `any`, while both register as `String`.
   */
  method BorrowedFieldsCase() returns (annotation: Tokens, id: Option<MockTypeId>, types: seq<Node<MockTypeId>>)
    ensures annotation == [Punct("{"), Lit("raw"), Punct(":"), Ident("any"), Punct(","),
                           Lit("cow"), Punct(":"), Ident("any"), Punct(","), Punct("}")]
    ensures id == Some(Custom(0)) && types == [StructNode("Borrow", [("raw", String), ("cow", String)])]
  {
    var fields := [Field("raw", TypeReference(Named("str"))), Field("cow", CowStr)];
    PairRecord(fields[0], fields[1], Ident("any"), Ident("any"));
    PairNamedIds(fields, String, String);
    annotation, id, types := DeriveAndRegister(Container("Borrow", "Borrow", StructData(Struct, fields)));
  }

  /** `struct Point` with fields renamed `X` and `Y`: the serialize names appear in both halves. */
  method RenamedFieldsCase() returns (annotation: Tokens, id: Option<MockTypeId>, types: seq<Node<MockTypeId>>)
    ensures annotation == [Punct("{"), Lit("X"), Punct(":"), Ident("number"), Punct(","),
                           Lit("Y"), Punct(":"), Ident("number"), Punct(","), Punct("}")]
    ensures id == Some(Custom(0)) && types == [StructNode("Point", [("X", Int64), ("Y", Int64)])]
  {
    var fields := [Field("X", Named("i64")), Field("Y", Named("i64"))];
    PrimitiveTypes();
    PairRecord(fields[0], fields[1], Ident("number"), Ident("number"));
    PairNamedIds(fields, Int64, Int64);
    annotation, id, types := DeriveAndRegister(Container("Point", "Point", StructData(Struct, fields)));
  }

  /** An enum of three renamed newtype variants over `bool`, `i64` and `String`. */
  method NewtypeVariantsCase() returns (annotation: Tokens, id: Option<MockTypeId>, types: seq<Node<MockTypeId>>)
    ensures annotation ==
      TaggedFragment("Var1", [Ident("boolean")])
      + TaggedFragment("Var2", [Ident("number")])
      + TaggedFragment("Var3", [Ident("string")])
    ensures id == Some(Custom(0))
    ensures types == [EnumNode("Enum", [NewtypeVariantNode("Var1", Boolean), NewtypeVariantNode("Var2", Int64),
                                        NewtypeVariantNode("Var3", String)])]
  {
    var a, b, c := Variant("Var1", Newtype, [Field("0", Named("bool"))]),
                    Variant("Var2", Newtype, [Field("0", Named("i64"))]),
                    Variant("Var3", Newtype, [Field("0", Named("String"))]);
    PrimitiveTypes();
    NewtypeVariantOf("Var1", Named("bool"), Ident("boolean"), Boolean);
    NewtypeVariantOf("Var2", Named("i64"), Ident("number"), Int64);
    NewtypeVariantOf("Var3", Named("String"), Ident("string"), String);
    annotation, id, types := DeriveEnumOfThree("Enum", a, b, c);
  }

  /** An enum of three unit variants: `| {"tag": "V1",}` and so on. */
  method UnitVariantsCase() returns (annotation: Tokens, id: Option<MockTypeId>, types: seq<Node<MockTypeId>>)
    ensures annotation == UnitVariantFragment("V1") + UnitVariantFragment("V2") + UnitVariantFragment("V3")
    ensures id == Some(Custom(0))
    ensures types == [EnumNode("Enum", [UnitVariantNode("V1"), UnitVariantNode("V2"), UnitVariantNode("V3")])]
  {
    var a, b, c := Variant("V1", Unit, []), Variant("V2", Unit, []), Variant("V3", Unit, []);
    annotation, id, types := DeriveEnumOfThree("Enum", a, b, c);
  }

  /** An enum of three two-element tuple variants: bracketed payloads, and each element's id in order. */
  method TupleVariantsCase() returns (annotation: Tokens, id: Option<MockTypeId>, types: seq<Node<MockTypeId>>)
    ensures annotation ==
      TaggedFragment("V1", [Punct("["), Ident("number"), Punct(","), Ident("string"), Punct(","), Punct("]")])
      + TaggedFragment("V2", [Punct("["), Ident("number"), Punct(","), Ident("boolean"), Punct(","), Punct("]")])
      + TaggedFragment("V3", [Punct("["), Ident("number"), Punct(","), Ident("number"), Punct(","), Punct("]")])
    ensures id == Some(Custom(0))
    ensures types == [EnumNode("Enum", [TupleVariantNode("V1", [Int64, String]), TupleVariantNode("V2", [Int64, Boolean]),
                                        TupleVariantNode("V3", [Int64, Uint64])])]
  {
    var a, b, c := Variant("V1", Tuple, [Field("0", Named("i64")), Field("1", Named("String"))]),
                    Variant("V2", Tuple, [Field("0", Named("i64")), Field("1", Named("bool"))]),
                    Variant("V3", Tuple, [Field("0", Named("i64")), Field("1", Named("u64"))]);
    PrimitiveTypes();
    TupleVariantOf("V1", a.fields[0], a.fields[1], Ident("number"), Ident("string"), Int64, String);
    TupleVariantOf("V2", b.fields[0], b.fields[1], Ident("number"), Ident("boolean"), Int64, Boolean);
    TupleVariantOf("V3", c.fields[0], c.fields[1], Ident("number"), Ident("number"), Int64, Uint64);
    annotation, id, types := DeriveEnumOfThree("Enum", a, b, c);
  }

  /**
   * An enum of three struct variants with renamed fields: braced payloads,
   * each field's serialize name with its id, and three entries registered.
   */
  method StructVariantsCase() returns (annotation: Tokens, id: Option<MockTypeId>, types: seq<Node<MockTypeId>>)
    ensures annotation ==
      TaggedFragment("V1", [Punct("{"), Lit("Foo"), Punct(":"), Ident("boolean"), Punct(","), Punct("}")])
      + TaggedFragment("V2", [Punct("{"), Lit("Bar"), Punct(":"), Ident("number"), Punct(","),
                              Lit("Baz"), Punct(":"), Ident("number"), Punct(","), Punct("}")])
      + TaggedFragment("V3", [Punct("{"), Lit("Quux"), Punct(":"), Ident("string"), Punct(","), Punct("}")])
    ensures id == Some(Custom(0))
    ensures types == [EnumNode("Enum", [StructVariantNode("V1", [("Foo", Boolean)]),
                                        StructVariantNode("V2", [("Bar", Int64), ("Baz", Uint64)]),
                                        StructVariantNode("V3", [("Quux", String)])])]
  {
    var a, b, c := Variant("V1", Struct, [Field("Foo", Named("bool"))]),
                    Variant("V2", Struct, [Field("Bar", Named("i64")), Field("Baz", Named("u64"))]),
                    Variant("V3", Struct, [Field("Quux", Named("String"))]);
    PrimitiveTypes();
    SingleRecord(a.fields[0], Ident("boolean"), Boolean);
    PairRecord(b.fields[0], b.fields[1], Ident("number"), Ident("number"));
    PairNamedIds(b.fields, Int64, Uint64);
    SingleRecord(c.fields[0], Ident("string"), String);
    annotation, id, types := DeriveEnumOfThree("Enum", a, b, c);
  }
}
