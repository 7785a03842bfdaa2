/**
 * The helpers of the `SchemaSerialize` derive (serde_schema_derive/src/lib.rs):
 * naming of the `type_id_{v}_{f}` variables, the two list-collapsing helpers,
 * the type-to-annotation mapping and the per-field and per-element halves that
 * the struct and enum handlers combine.
 */
module SchemaLib {

  import opened Wrappers
  import opened Tokens
  import opened Decimal
  import opened Syntax
  import opened Builder

  const TypeIdPrefix: string := "type_id_"

  /**
   * `variant_field_type_variable`: the name of the variable holding the type id
   * of field f of variant v. The source returns it twice (as a String and as an
   * identifier); both are this text.
   */
  function TypeIdVar(variantIdx: nat, fieldIdx: nat): string
  {
    TypeIdPrefix + Show(variantIdx) + "_" + Show(fieldIdx)
  }

  /** The first index of c in s, or |s| when c does not occur. */
  function IndexOf(s: string, c: char): (k: nat)
    ensures k <= |s|
    ensures k < |s| ==> s[k] == c
    ensures forall j :: 0 <= j < k ==> s[j] != c
  {
    if s == [] then 0 else if s[0] == c then 0 else 1 + IndexOf(s[1..], c)
  }

  /** Recovers (variant, field) from a type-id variable name. */
  function ParseTypeIdVar(s: string): Option<(nat, nat)>
  {
    if |s| < |TypeIdPrefix| || s[..|TypeIdPrefix|] != TypeIdPrefix then None
    else
      var rest := s[|TypeIdPrefix|..];
      var k := IndexOf(rest, '_');
      if k == |rest| then None
      else
        var a, b := rest[..k], rest[k + 1..];
        if a != [] && b != [] && AllDigits(a) && AllDigits(b) then Some((Read(a), Read(b))) else None
  }

  /** The variable name encodes its (variant, field) pair, and reads back to it. */
  lemma TypeIdVarRoundTrip(v: nat, f: nat)
    ensures ParseTypeIdVar(TypeIdVar(v, f)) == Some((v, f))
  {
    var s := TypeIdVar(v, f);
    var a, b := Show(v), Show(f);
    assert s[..|TypeIdPrefix|] == TypeIdPrefix;
    var rest := s[|TypeIdPrefix|..];
    assert rest == a + "_" + b;
    assert rest[|a|] == '_';
    assert forall j :: 0 <= j < |a| ==> rest[j] == a[j];
    var k := IndexOf(rest, '_');
    assert k == |a|;
    assert rest[..k] == a;
    assert rest[k + 1..] == b;
    ReadShow(v);
    ReadShow(f);
  }

  /** Distinct (variant, field) pairs get distinct variables. */
  lemma TypeIdVarInjective(v: nat, f: nat, v': nat, f': nat)
    requires TypeIdVar(v, f) == TypeIdVar(v', f')
    ensures v == v' && f == f'
  {
    TypeIdVarRoundTrip(v, f);
    TypeIdVarRoundTrip(v', f');
  }

  /** `collapse_list_bracket`: one element stays bare; any other count is bracketed, each element comma-terminated. */
  function CollapseListBracket(body: seq<Tokens>): (r: Tokens)
    ensures |body| == 1 ==> r == body[0]
  {
    if |body| == 1 then body[0] else [Punct("[")] + CommaTerminated(body) + [Punct("]")]
  }

  /** `collapse_list_brace`: always braced, each element comma-terminated, even a single one. */
  function CollapseListBrace(body: seq<Tokens>): Tokens
  {
    [Punct("{")] + CommaTerminated(body) + [Punct("}")]
  }

  /** For any count but one, the list opens with `[` and closes with `]`; no elements give `[ ]`. */
  lemma CollapseListBracketEnds(body: seq<Tokens>)
    requires |body| != 1
    ensures var r := CollapseListBracket(body);
      && |r| == Offset(body, |body|) + 2
      && r[0] == Punct("[") && r[|r| - 1] == Punct("]")
      && (body == [] ==> r == [Punct("["), Punct("]")])
  {
    CommaTerminatedLength(body);
  }

  /** For any count but one, element i sits unchanged inside the brackets, followed by `,`. */
  lemma CollapseListBracketAt(body: seq<Tokens>, i: nat)
    requires |body| != 1 && i < |body|
    ensures var r, o := CollapseListBracket(body), 1 + Offset(body, i);
      && o + |body[i]| < |r| - 1
      && r[o..o + |body[i]|] == body[i]
      && r[o + |body[i]|] == Punct(",")
  {
    assert CollapseListBracket(body) == [Punct("[")] + CommaTerminated(body) + [Punct("]")];
    DelimitedAt(body, Punct("["), Punct("]"), i);
  }

  /** The braced list opens with `{` and closes with `}`, also around a single element. */
  lemma CollapseListBraceEnds(body: seq<Tokens>)
    ensures var r := CollapseListBrace(body);
      && |r| == Offset(body, |body|) + 2
      && r[0] == Punct("{") && r[|r| - 1] == Punct("}")
      && (|body| == 1 ==> r == [Punct("{")] + body[0] + [Punct(","), Punct("}")])
  {
    CommaTerminatedLength(body);
    if |body| == 1 {
      assert body[1..] == [];
    }
  }

  /** Element i sits unchanged inside the braces, followed by `,`. */
  lemma CollapseListBraceAt(body: seq<Tokens>, i: nat)
    requires i < |body|
    ensures var r, o := CollapseListBrace(body), 1 + Offset(body, i);
      && o + |body[i]| < |r| - 1
      && r[o..o + |body[i]|] == body[i]
      && r[o + |body[i]|] == Punct(",")
  {
    DelimitedAt(body, Punct("{"), Punct("}"), i);
  }

  /** Between an opener and a closer, element i of a comma-terminated list sits at 1 + its offset, followed by `,`. */
  lemma DelimitedAt(body: seq<Tokens>, open: Token, close: Token, i: nat)
    requires i < |body|
    ensures var r, o := [open] + CommaTerminated(body) + [close], 1 + Offset(body, i);
      && o + |body[i]| < |r| - 1
      && r[o..o + |body[i]|] == body[i]
      && r[o + |body[i]|] == Punct(",")
  {
    CommaTerminatedAt(body, i);
    CommaTerminatedLength(body);
    var ct, o := CommaTerminated(body), Offset(body, i);
    var r := [open] + ct + [close];
    assert r[1 + o..1 + o + |body[i]|] == ct[o..o + |body[i]|];
    assert r[1 + o + |body[i]|] == ct[o + |body[i]|];
  }

  const IntegerNames: set<string> :=
    {"u8", "u16", "u32", "u64", "u128", "usize", "i8", "i16", "i32", "i64", "i128", "isize"}

  /** The string arms; the two reference spellings can never be the text of a path. */
  const StringNames: set<string> := {"String", "&str", "&'static str"}

  /**
   * The text a path prints as, when that text can equal one of the names
   * matched on: only a path of one argument-free segment, with no leading
   * `::` and no `<T as Trait>` qualifier, prints as its bare identifier; any
   * other path prints with `::` or `<` in it and matches no name.
   */
  function BareName(ty: Ty): Option<string>
  {
    if ty.TypePath? && !ty.qself && !ty.leadingColon && |ty.segments| == 1
       && ty.segments[0].arguments.NoArguments?
    then Some(ty.segments[0].ident)
    else None
  }

  /** `type_to_ts`: exactly one identifier token for any type; it never fails. */
  function TypeToTs(ty: Ty): (r: Tokens)
    ensures |r| == 1 && r[0].Ident?
  {
    match ty
    case TypePath(_, _, _) =>
      (match BareName(ty)
       case Some(n) =>
         if n in IntegerNames then [Ident("number")]
         else if n in StringNames then [Ident("string")]
         else if n == "bool" then [Ident("boolean")]
         else [Ident("any")]
       case None => [Ident("any")])
    case _ => [Ident("any")]
  }

  /**
   * The mapping table: integer names give `number`, the string names `string`,
   * `bool` gives `boolean`; every other path and every non-path form gives `any`.
   */
  lemma TypeToTsTable(ty: Ty)
    ensures TypeToTs(ty) == [Ident("number")] <==> BareName(ty).Some? && BareName(ty).value in IntegerNames
    ensures TypeToTs(ty) == [Ident("string")] <==> BareName(ty).Some? && BareName(ty).value in StringNames
    ensures TypeToTs(ty) == [Ident("boolean")] <==> BareName(ty) == Some("bool")
    ensures TypeToTs(ty) == [Ident("any")] <==>
      BareName(ty).None? || BareName(ty).value !in IntegerNames + StringNames + {"bool"}
  {
  }

  /** The name of a field's annotation token. */
  function TsName(ty: Ty): string
  {
    TypeToTs(ty)[0].text
  }

  /** The annotation half of `derive_field`: `"name": ty`. */
  function FieldAnnotation(field: Field): Tokens
  {
    [Lit(field.name), Punct(":")] + TypeToTs(field.ty)
  }

  /** `derive_field`: the same serialize name in `"name": ty` and in `.field(name, type_id_v_f)`. */
  function DeriveField(v: nat, f: nat, field: Field): (r: (Tokens, Call))
    ensures r.0 == FieldAnnotation(field) && r.1.FieldCall?
    ensures r.0[0] == Lit(r.1.name) && r.1.name == field.name
    ensures ParseTypeIdVar(r.1.id) == Some((v, f))
  {
    TypeIdVarRoundTrip(v, f);
    (FieldAnnotation(field), FieldCall(field.name, TypeIdVar(v, f)))
  }

  /** `derive_element`: the bare annotation token, and `.element(type_id_v_e)`. */
  function DeriveElement(v: nat, e: nat, field: Field): (r: (Tokens, Call))
    ensures r.0 == TypeToTs(field.ty) && r.1.ElementCall?
    ensures ParseTypeIdVar(r.1.id) == Some((v, e))
  {
    TypeIdVarRoundTrip(v, e);
    (TypeToTs(field.ty), ElementCall(TypeIdVar(v, e)))
  }

  /** The `.field` calls of fields in order, for variant v: the chain halves of `derive_field`. */
  function FieldCalls(v: nat, fields: seq<Field>): seq<Call>
  {
    seq(|fields|, i requires 0 <= i < |fields| => FieldCall(fields[i].name, TypeIdVar(v, i)))
  }

  /** The `.element` calls of fields in order, for variant v: the chain halves of `derive_element`. */
  function ElementCalls(v: nat, fields: seq<Field>): seq<Call>
  {
    seq(|fields|, i requires 0 <= i < |fields| => ElementCall(TypeIdVar(v, i)))
  }

  /** The (name, type id) pairs the `.field` calls of variant v carry. */
  function FieldPairs(v: nat, fields: seq<Field>): seq<(string, string)>
  {
    seq(|fields|, i requires 0 <= i < |fields| => (fields[i].name, TypeIdVar(v, i)))
  }

  /** The type ids the `.element` calls of variant v carry. */
  function ElementIds(v: nat, fields: seq<Field>): seq<string>
  {
    seq(|fields|, i requires 0 <= i < |fields| => TypeIdVar(v, i))
  }

  /** The `"name": ty` fragments of fields in order. */
  function FieldAnnotations(fields: seq<Field>): seq<Tokens>
  {
    seq(|fields|, i requires 0 <= i < |fields| => FieldAnnotation(fields[i]))
  }

  /** The bare type tokens of fields in order. */
  function ElementAnnotations(fields: seq<Field>): seq<Tokens>
  {
    seq(|fields|, i requires 0 <= i < |fields| => TypeToTs(fields[i].ty))
  }

  /** The prelude for variant v: one `let type_id_v_i = ...` per field i, in order. */
  function Registrations(v: nat, fields: seq<Field>): seq<Stmt>
  {
    seq(|fields|, i requires 0 <= i < |fields| => LetTypeId(TypeIdVar(v, i), fields[i].ty))
  }

  /**
   * `derive_register_field_types`: a loop that appends one registration
   * statement per field and pushes one annotation token per field.
   */
  method DeriveRegisterFieldTypes(v: nat, fields: seq<Field>) returns (ts: Tokens, code: seq<Stmt>)
    ensures code == Registrations(v, fields)
    ensures ts == CollapseListBrace(ElementAnnotations(fields))
  {
    code := [];
    var tsParts: seq<Tokens> := [];
    var i := 0;
    while i < |fields|
      invariant 0 <= i <= |fields|
      invariant |code| == i && |tsParts| == i
      invariant forall k :: 0 <= k < i ==> code[k] == LetTypeId(TypeIdVar(v, k), fields[k].ty)
      invariant forall k :: 0 <= k < i ==> tsParts[k] == TypeToTs(fields[k].ty)
    {
      code := code + [LetTypeId(TypeIdVar(v, i), fields[i].ty)];
      tsParts := tsParts + [TypeToTs(fields[i].ty)];
      i := i + 1;
    }
    assert tsParts == ElementAnnotations(fields);
    ts := CollapseListBrace(tsParts);
  }

  /** The prelude of variant v binds exactly the variables type_id_v_f for its fields f. */
  lemma RegistrationsBind(v: nat, fields: seq<Field>, x: string)
    ensures Defines(Registrations(v, fields), x) <==> exists f :: 0 <= f < |fields| && x == TypeIdVar(v, f)
  {
    var r := Registrations(v, fields);
    if exists f :: 0 <= f < |fields| && x == TypeIdVar(v, f) {
      var f :| 0 <= f < |fields| && x == TypeIdVar(v, f);
      assert r[f].LetTypeId? && r[f].binding == x;
    }
  }

  /** No two statements of one prelude bind the same variable. */
  lemma RegistrationsDistinct(v: nat, fields: seq<Field>)
    ensures forall i, j :: 0 <= i < j < |fields| ==>
      Registrations(v, fields)[i].binding != Registrations(v, fields)[j].binding
  {
    forall i, j | 0 <= i < j < |fields|
      ensures Registrations(v, fields)[i].binding != Registrations(v, fields)[j].binding
    {
      if TypeIdVar(v, i) == TypeIdVar(v, j) {
        TypeIdVarInjective(v, i, v, j);
      }
    }
  }

  /** The name of the generated annotation function: `{ident}_typescript_definition`. */
  function DefinitionFnName(ident: string): (r: string)
    ensures |r| == |ident| + 22 && r[..|ident|] == ident
    ensures r[|ident|..] == "_typescript_definition"
  {
    ident + "_typescript_definition"
  }

  /** Distinct idents name distinct annotation functions. */
  lemma DefinitionFnNameInjective(a: string, b: string)
    requires DefinitionFnName(a) == DefinitionFnName(b)
    ensures a == b
  {
    assert |a| == |b|;
    assert a == DefinitionFnName(a)[..|a|] == DefinitionFnName(b)[..|b|] == b;
  }
}
