/**
 * The standalone `TypescriptDefinition` derive (src/lib.rs): a TypeScript
 * annotation only, with a richer type mapping than the schema derive
 * (`Array<T>`, `T?`, user types by name), fields joined by commas with no
 * trailing comma, variants joined by `|`, and the name of the exported
 * constant. `type_to_ts` panics on malformed `Option` types; the model
 * returns those panics as errors.
 */
module TsDefinition {

  import opened Wrappers
  import opened Tokens
  import opened Syntax
  import SchemaLib

  /** The panics of `type_to_ts`. */
  datatype Panic =
    | MissingSegment          // `segments.last().unwrap()` on a path with no segment
    | ExpectedBracketedParams // `Option` without `<...>`
    | EmptyGenericArguments   // `Option<>`: `args.first().unwrap()`
    | NonTypeArgument         // `Option<'a>` and other non-type first arguments

  /** `Array<T>` around an element's tokens. */
  function ArrayOf(elem: Tokens): Tokens
  {
    [Ident("Array"), Punct("<")] + elem + [Punct(">")]
  }

  /**
   * `type_to_ts`: slices and arrays become `Array<T>`; a path is classified by
   * its last segment's identifier (integers, `String`, `bool`, `Option<T>` as
   * `T?`, any other name kept as is); every other form is `any`.
   */
  function TypeToTs(ty: Ty): (r: Result<Tokens, Panic>)
    ensures r.Ok? ==> r.value != [] && r.value[|r.value| - 1] != Punct(",")
    decreases ty
  {
    match ty
    case TypeSlice(elem) =>
      (match TypeToTs(elem)
       case Ok(t) => Ok(ArrayOf(t))
       case Err(e) => Err(e))
    case TypeArray(elem) =>
      (match TypeToTs(elem)
       case Ok(t) => Ok(ArrayOf(t))
       case Err(e) => Err(e))
    case TypePath(_, _, segments) =>
      if segments == [] then Err(MissingSegment)
      else
        var last := segments[|segments| - 1];
        if last.ident in SchemaLib.IntegerNames then Ok([Ident("number")])
        else if last.ident in SchemaLib.StringNames then Ok([Ident("string")])
        else if last.ident == "bool" then Ok([Ident("boolean")])
        else if last.ident == "Option" then
          match last.arguments
          case NoArguments => Err(ExpectedBracketedParams)
          case Parenthesized => Err(ExpectedBracketedParams)
          case AngleBracketed(args) =>
            if args == [] then Err(EmptyGenericArguments)
            else
              match args[0]
              case TypeArg(inner) =>
                (match TypeToTs(inner)
                 case Ok(t) => Ok(t + [Punct("?")])
                 case Err(e) => Err(e))
              case _ => Err(NonTypeArgument)
        else Ok([Ident(last.ident)])
    case _ => Ok([Ident("any")])
  }

  /**
   * The types `type_to_ts` accepts: every path it looks at has a segment, and
   * every `Option` it meets carries a type in angle brackets, all the way down.
   */
  predicate Accepted(ty: Ty)
    decreases ty
  {
    match ty
    case TypeSlice(elem) => Accepted(elem)
    case TypeArray(elem) => Accepted(elem)
    case TypePath(_, _, segments) =>
      && segments != []
      && var last := segments[|segments| - 1];
         (last.ident == "Option" ==>
            && last.arguments.AngleBracketed?
            && last.arguments.args != []
            && last.arguments.args[0].TypeArg?
            && Accepted(last.arguments.args[0].ty))
    case _ => true
  }

  /** `type_to_ts` succeeds exactly on the accepted types. */
  lemma {:induction false} TypeToTsOk(ty: Ty)
    ensures TypeToTs(ty).Ok? <==> Accepted(ty)
    decreases ty
  {
    match ty {
      case TypeSlice(elem) => TypeToTsOk(elem);
      case TypeArray(elem) => TypeToTsOk(elem);
      case TypePath(_, _, segments) =>
        if segments != [] {
          var last := segments[|segments| - 1];
          if last.arguments.AngleBracketed? && last.arguments.args != [] && last.arguments.args[0].TypeArg? {
            TypeToTsOk(last.arguments.args[0].ty);
          }
        }
      case _ =>
    }
  }

  /**
   * Where both derives name a primitive, they agree: a bare integer, string
   * or `bool` path gives the same token here as in the schema derive, and so
   * does every form that is neither a path, a slice nor an array.
   */
  lemma TypeToTsAgreesWithSchema(ty: Ty)
    requires || (SchemaLib.BareName(ty).Some?
                 && SchemaLib.BareName(ty).value in SchemaLib.IntegerNames + SchemaLib.StringNames + {"bool"})
             || !(ty.TypePath? || ty.TypeSlice? || ty.TypeArray?)
    ensures TypeToTs(ty) == Ok(SchemaLib.TypeToTs(ty))
  {
  }

  /**
   * Where they differ: a bare user type keeps its name here but is `any` in
   * the schema derive, and a slice becomes `Array<...>` instead of `any`.
   */
  lemma TypeToTsRicherThanSchema(name: string, elem: Ty)
    requires name !in SchemaLib.IntegerNames + SchemaLib.StringNames + {"bool", "Option"}
    requires TypeToTs(elem).Ok?
    ensures TypeToTs(Named(name)) == Ok([Ident(name)]) && SchemaLib.TypeToTs(Named(name)) == [Ident("any")]
    ensures TypeToTs(TypeSlice(elem)) == Ok(ArrayOf(TypeToTs(elem).value))
    ensures SchemaLib.TypeToTs(TypeSlice(elem)) == [Ident("any")]
  {
  }

  /** `Option<T>` is `T` with a trailing `?`, whichever path leads to `Option`. */
  lemma OptionIsOptional(qself: bool, leadingColon: bool, prefix: seq<Segment>, inner: Ty)
    requires TypeToTs(inner).Ok?
    ensures TypeToTs(TypePath(qself, leadingColon, prefix + [Segment("Option", AngleBracketed([TypeArg(inner)]))]))
      == Ok(TypeToTs(inner).value + [Punct("?")])
  {
    var segments := prefix + [Segment("Option", AngleBracketed([TypeArg(inner)]))];
    assert segments[|segments| - 1] == Segment("Option", AngleBracketed([TypeArg(inner)]));
    assert "Option" !in SchemaLib.IntegerNames && "Option" !in SchemaLib.StringNames && "Option" != "bool";
  }

  /** Slices and arrays both become `Array<T>` around their element's mapping, and fail exactly when it fails. */
  lemma SequencesAreArrays(elem: Ty)
    ensures TypeToTs(TypeSlice(elem)).Ok? <==> TypeToTs(elem).Ok?
    ensures TypeToTs(TypeArray(elem)).Ok? <==> TypeToTs(elem).Ok?
    ensures TypeToTs(elem).Ok? ==>
      && TypeToTs(TypeSlice(elem)) == Ok([Ident("Array"), Punct("<")] + TypeToTs(elem).value + [Punct(">")])
      && TypeToTs(TypeArray(elem)) == Ok([Ident("Array"), Punct("<")] + TypeToTs(elem).value + [Punct(">")])
  {
  }

  /**
   * A path is classified by its last segment's identifier alone, whatever
   * precedes it (`std::string::String` is `string`, `foo::Bar` is `Bar`) and,
   * unless it is `Option`, whatever generic arguments it carries.
   */
  lemma LastSegmentTable(qself: bool, leadingColon: bool, prefix: seq<Segment>, id: string, args: PathArguments)
    ensures var r := TypeToTs(TypePath(qself, leadingColon, prefix + [Segment(id, args)]));
      && (id in SchemaLib.IntegerNames ==> r == Ok([Ident("number")]))
      && (id in SchemaLib.StringNames ==> r == Ok([Ident("string")]))
      && (id == "bool" ==> r == Ok([Ident("boolean")]))
      && (id !in SchemaLib.IntegerNames + SchemaLib.StringNames + {"bool", "Option"} ==> r == Ok([Ident(id)]))
  {
    var segments := prefix + [Segment(id, args)];
    assert segments[|segments| - 1] == Segment(id, args);
    assert "bool" !in SchemaLib.IntegerNames && "bool" !in SchemaLib.StringNames;
    assert SchemaLib.IntegerNames !! SchemaLib.StringNames;
  }

  /**
   * The panics: a path without segments, and an `Option` whose arguments are
   * not in angle brackets, are empty, or do not start with a type.
   */
  lemma PanicTable(qself: bool, leadingColon: bool, prefix: seq<Segment>, args: PathArguments)
    ensures TypeToTs(TypePath(qself, leadingColon, [])) == Err(MissingSegment)
    ensures var r := TypeToTs(TypePath(qself, leadingColon, prefix + [Segment("Option", args)]));
      && (args.NoArguments? || args.Parenthesized? ==> r == Err(ExpectedBracketedParams))
      && (args == AngleBracketed([]) ==> r == Err(EmptyGenericArguments))
      && (args.AngleBracketed? && args.args != [] && !args.args[0].TypeArg? ==> r == Err(NonTypeArgument))
  {
    var segments := prefix + [Segment("Option", args)];
    assert segments[|segments| - 1] == Segment("Option", args);
    assert "Option" !in SchemaLib.IntegerNames && "Option" !in SchemaLib.StringNames && "Option" != "bool";
  }

  /** Every form other than a path, a slice or an array is `any`. */
  lemma OtherFormsAreAny(ty: Ty)
    requires !(ty.TypePath? || ty.TypeSlice? || ty.TypeArray?)
    ensures TypeToTs(ty) == Ok([Ident("any")])
  {
  }

  /** `derive_field`: `"name": ty`. */
  function DeriveField(field: Field): (r: Result<Tokens, Panic>)
    ensures r.Ok? <==> TypeToTs(field.ty).Ok?
    ensures r.Ok? ==> r.value == [Lit(field.name), Punct(":")] + TypeToTs(field.ty).value
  {
    match TypeToTs(field.ty)
    case Ok(t) => Ok([Lit(field.name), Punct(":")] + t)
    case Err(e) => Err(e)
  }

  /** The annotations of the fields in order, or the first field's panic. */
  function FieldAnnotations(fields: seq<Field>): (r: Result<seq<Tokens>, Panic>)
    ensures r.Ok? ==> |r.value| == |fields|
    ensures r.Ok? ==> forall i :: 0 <= i < |fields| ==> DeriveField(fields[i]) == Ok(r.value[i])
  {
    if fields == [] then Ok([])
    else
      match DeriveField(fields[0])
      case Err(e) => Err(e)
      case Ok(first) =>
        match FieldAnnotations(fields[1..])
        case Err(e) => Err(e)
        case Ok(rest) => Ok([first] + rest)
  }

  /** The element types of the fields in order, or the first field's panic. */
  function ElementAnnotations(fields: seq<Field>): (r: Result<seq<Tokens>, Panic>)
    ensures r.Ok? ==> |r.value| == |fields|
    ensures r.Ok? ==> forall i :: 0 <= i < |fields| ==> TypeToTs(fields[i].ty) == Ok(r.value[i])
  {
    if fields == [] then Ok([])
    else
      match TypeToTs(fields[0].ty)
      case Err(e) => Err(e)
      case Ok(first) =>
        match ElementAnnotations(fields[1..])
        case Err(e) => Err(e)
        case Ok(rest) => Ok([first] + rest)
  }

  /** A list of fields fails exactly when one of its field types is not accepted. */
  lemma {:induction false} AnnotationsOk(fields: seq<Field>)
    ensures FieldAnnotations(fields).Ok? <==> forall i :: 0 <= i < |fields| ==> Accepted(fields[i].ty)
    ensures ElementAnnotations(fields).Ok? <==> forall i :: 0 <= i < |fields| ==> Accepted(fields[i].ty)
  {
    if fields != [] {
      AnnotationsOk(fields[1..]);
      TypeToTsOk(fields[0].ty);
      forall i | 0 <= i < |fields| && Accepted(fields[i].ty) && i > 0
        ensures Accepted(fields[1..][i - 1].ty)
      {
      }
      if forall i :: 0 <= i < |fields[1..]| ==> Accepted(fields[1..][i].ty) {
        if Accepted(fields[0].ty) {
          forall i | 0 <= i < |fields| ensures Accepted(fields[i].ty) {
            if i > 0 {
              assert fields[i] == fields[1..][i - 1];
            }
          }
        }
      }
    }
  }

  /** `{ "n1": t1, "n2": t2 }`: braces, fields in order, commas only between them. */
  function Braced(parts: seq<Tokens>): Tokens
  {
    [Punct("{")] + Separated(parts, Punct(",")) + [Punct("}")]
  }

  /** `[t1, t2]`: brackets, elements in order, commas only between them. */
  function Bracketed(parts: seq<Tokens>): Tokens
  {
    [Punct("[")] + Separated(parts, Punct(",")) + [Punct("]")]
  }

  /**
   * `derive_struct`: a named struct is a braced list of its fields, a tuple
   * struct a bracketed list of its types (no collapse for one element), a
   * newtype its field's type, a unit struct `{}`.
   */
  function DeriveStruct(style: Style, fields: seq<Field>): (r: Result<Tokens, Panic>)
    requires NewtypeHasField(style, fields)
    ensures style == Unit ==> r == Ok([Punct("{"), Punct("}")])
    ensures style == Newtype ==> r == TypeToTs(fields[0].ty)
  {
    match style
    case Struct =>
      (match FieldAnnotations(fields)
       case Ok(parts) => Ok(Braced(parts))
       case Err(e) => Err(e))
    case Newtype => TypeToTs(fields[0].ty)
    case Tuple =>
      (match ElementAnnotations(fields)
       case Ok(parts) => Ok(Bracketed(parts))
       case Err(e) => Err(e))
    case Unit => Ok([Punct("{"), Punct("}")])
  }

  /**
   * Layout of a separated list: part i sits unchanged at 1 + Offset(parts, i),
   * followed by `,` unless it is the last; the last part is followed directly
   * by the closing token, so there is no trailing comma.
   */
  lemma SeparatedListAt(parts: seq<Tokens>, open: Token, close: Token, i: nat)
    requires i < |parts|
    ensures var r, o := [open] + Separated(parts, Punct(",")) + [close], 1 + Offset(parts, i);
      && o + |parts[i]| < |r|
      && r[o..o + |parts[i]|] == parts[i]
      && (i + 1 < |parts| ==> r[o + |parts[i]|] == Punct(","))
      && (i + 1 == |parts| ==> o + |parts[i]| == |r| - 1 && r[|r| - 1] == close)
  {
    SeparatedAt(parts, Punct(","), i);
    var s := Separated(parts, Punct(","));
    var o := Offset(parts, i);
    assert ([open] + s + [close])[1 + o..1 + o + |parts[i]|] == s[o..o + |parts[i]|];
  }

  /**
   * A separated list of parts that never end in a comma: the opener, part i
   * at its offset followed by `,` unless it is the last, and the closer with
   * no comma before it.
   */
  lemma ListLayout(parts: seq<Tokens>, open: Token, close: Token, i: nat)
    requires i < |parts|
    requires forall k :: 0 <= k < |parts| ==> parts[k] != [] && parts[k][|parts[k]| - 1] != Punct(",")
    ensures var r, o := [open] + Separated(parts, Punct(",")) + [close], 1 + Offset(parts, i);
      && o + |parts[i]| < |r|
      && r[0] == open && r[|r| - 1] == close && r[|r| - 2] != Punct(",")
      && r[o..o + |parts[i]|] == parts[i]
      && (i + 1 < |parts| ==> r[o + |parts[i]|] == Punct(","))
  {
    SeparatedListAt(parts, open, close, i);
    LastBeforeClose(parts, open, close);
  }

  /**
   * A named struct's annotation: `{`, then field i's `"name": type` in order,
   * with commas only between fields, then `}`; the token before `}` is never
   * a comma.
   */
  lemma NamedStructLayout(fields: seq<Field>, parts: seq<Tokens>, i: nat)
    requires FieldAnnotations(fields) == Ok(parts) && i < |fields|
    ensures DeriveStruct(Struct, fields) == Ok(Braced(parts))
    ensures var r, o := Braced(parts), 1 + Offset(parts, i);
      && o + |parts[i]| < |r|
      && r[0] == Punct("{") && r[|r| - 1] == Punct("}") && r[|r| - 2] != Punct(",")
      && r[o..o + |parts[i]|] == [Lit(fields[i].name), Punct(":")] + TypeToTs(fields[i].ty).value
      && (i + 1 < |fields| ==> r[o + |parts[i]|] == Punct(","))
  {
    StructDerived(Struct, fields, parts);
    FieldAt(fields, parts, i);
    FieldPartsClean(fields, parts);
    assert Braced(parts) == [Punct("{")] + Separated(parts, Punct(",")) + [Punct("}")];
    ListLayout(parts, Punct("{"), Punct("}"), i);
  }

  /** A named struct is braced around its fields' annotations, a tuple struct bracketed around its elements'. */
  lemma StructDerived(style: Style, fields: seq<Field>, parts: seq<Tokens>)
    requires style == Struct ==> FieldAnnotations(fields) == Ok(parts)
    requires style == Tuple ==> ElementAnnotations(fields) == Ok(parts)
    requires style == Struct || style == Tuple
    ensures DeriveStruct(style, fields) == Ok(if style == Struct then Braced(parts) else Bracketed(parts))
  {
  }

  /** Field i's annotation is its `"name": type`. */
  lemma FieldAt(fields: seq<Field>, parts: seq<Tokens>, i: nat)
    requires FieldAnnotations(fields) == Ok(parts) && i < |fields|
    ensures |parts| == |fields| && parts[i] == [Lit(fields[i].name), Punct(":")] + TypeToTs(fields[i].ty).value
  {
    assert DeriveField(fields[i]) == Ok(parts[i]);
  }

  /** No field's `"name": ty` is empty or ends in a comma. */
  lemma FieldPartsClean(fields: seq<Field>, parts: seq<Tokens>)
    requires FieldAnnotations(fields) == Ok(parts)
    ensures forall k :: 0 <= k < |parts| ==> parts[k] != [] && parts[k][|parts[k]| - 1] != Punct(",")
  {
    forall k | 0 <= k < |parts|
      ensures parts[k] != [] && parts[k][|parts[k]| - 1] != Punct(",")
    {
      assert DeriveField(fields[k]) == Ok(parts[k]);
    }
  }

  /** No element's type is empty or ends in a comma. */
  lemma ElementPartsClean(fields: seq<Field>, parts: seq<Tokens>)
    requires ElementAnnotations(fields) == Ok(parts)
    ensures forall k :: 0 <= k < |parts| ==> parts[k] != [] && parts[k][|parts[k]| - 1] != Punct(",")
  {
    forall k | 0 <= k < |parts|
      ensures parts[k] != [] && parts[k][|parts[k]| - 1] != Punct(",")
    {
      assert TypeToTs(fields[k].ty) == Ok(parts[k]);
    }
  }

  /** In a non-empty separated list whose parts never end in a comma, the token before the closer is no comma. */
  lemma LastBeforeClose(parts: seq<Tokens>, open: Token, close: Token)
    requires parts != [] && forall k :: 0 <= k < |parts| ==> parts[k] != [] && parts[k][|parts[k]| - 1] != Punct(",")
    ensures var r := [open] + Separated(parts, Punct(",")) + [close];
      |r| >= 3 && r[|r| - 2] != Punct(",")
  {
    var n := |parts| - 1;
    SeparatedListAt(parts, open, close, n);
    var r := [open] + Separated(parts, Punct(",")) + [close];
    var o := 1 + Offset(parts, n);
    assert r[|r| - 2] == r[o..o + |parts[n]|][|parts[n]| - 1];
  }

  /**
   * A tuple struct's annotation: `[`, element i's type in order, commas only
   * between elements, `]`.
   */
  lemma TupleStructLayout(fields: seq<Field>, parts: seq<Tokens>, i: nat)
    requires ElementAnnotations(fields) == Ok(parts) && i < |fields|
    ensures DeriveStruct(Tuple, fields) == Ok(Bracketed(parts))
    ensures var r, o := Bracketed(parts), 1 + Offset(parts, i);
      && o + |parts[i]| < |r|
      && r[0] == Punct("[") && r[|r| - 1] == Punct("]") && r[|r| - 2] != Punct(",")
      && r[o..o + |parts[i]|] == parts[i]
      && (i + 1 < |fields| ==> r[o + |parts[i]|] == Punct(","))
    ensures TypeToTs(fields[i].ty) == Ok(parts[i])
  {
    StructDerived(Tuple, fields, parts);
    ElementAt(fields, parts, i);
    ElementPartsClean(fields, parts);
    assert Bracketed(parts) == [Punct("[")] + Separated(parts, Punct(",")) + [Punct("]")];
    ListLayout(parts, Punct("["), Punct("]"), i);
  }

  /** Element i's annotation is field i's type. */
  lemma ElementAt(fields: seq<Field>, parts: seq<Tokens>, i: nat)
    requires ElementAnnotations(fields) == Ok(parts) && i < |fields|
    ensures |parts| == |fields| && TypeToTs(fields[i].ty) == Ok(parts[i])
  {
  }

  /** A tuple struct of one element stays bracketed: there is no singleton collapse here. */
  lemma TupleStructSingleton(field: Field)
    requires TypeToTs(field.ty).Ok?
    ensures DeriveStruct(Tuple, [field]) == Ok([Punct("[")] + TypeToTs(field.ty).value + [Punct("]")])
  {
    assert [field][1..] == [] && [field][0] == field;
    assert ElementAnnotations([]) == Ok([]);
    assert [TypeToTs(field.ty).value] + [] == [TypeToTs(field.ty).value];
    assert ElementAnnotations([field]) == Ok([TypeToTs(field.ty).value]);
    assert Separated([TypeToTs(field.ty).value], Punct(",")) == TypeToTs(field.ty).value;
  }

  /** `{ "tag": name,` — how every variant fragment opens (no leading bar here). */
  function TagOpen(name: string): Tokens
  {
    [Punct("{"), Lit("tag"), Punct(":"), Lit(name), Punct(",")]
  }

  /** `{ "tag": name, "fields": payload, }` */
  function Tagged(name: string, payload: Tokens): Tokens
  {
    TagOpen(name) + [Lit("fields"), Punct(":")] + payload + [Punct(","), Punct("}")]
  }

  /**
   * The fragment of one variant. As written, a struct variant's fields are
   * bracketed and a tuple variant's elements braced (the reverse of the
   * schema derive).
   */
  function DeriveVariant(variant: Variant): (r: Result<Tokens, Panic>)
    requires NewtypeHasField(variant.style, variant.fields)
    ensures r.Ok? ==> |r.value| > 4 && r.value[..4] == [Punct("{"), Lit("tag"), Punct(":"), Lit(variant.name)]
    ensures r.Ok? ==> r.value[|r.value| - 1] == Punct("}")
    ensures variant.style == Unit ==> r.Ok?
  {
    match variant.style
    case Unit => Ok(TagOpen(variant.name) + [Punct("}")])
    case Newtype =>
      (match TypeToTs(variant.fields[0].ty)
       case Ok(t) => Ok(Tagged(variant.name, t))
       case Err(e) => Err(e))
    case Struct =>
      (match FieldAnnotations(variant.fields)
       case Ok(parts) => Ok(Tagged(variant.name, Bracketed(parts)))
       case Err(e) => Err(e))
    case Tuple =>
      (match ElementAnnotations(variant.fields)
       case Ok(parts) => Ok(Tagged(variant.name, Braced(parts)))
       case Err(e) => Err(e))
  }

  /**
   * The payload delimiters as written: when every field type is accepted, a
   * struct variant's payload opens with `[` and closes with `]`, a tuple
   * variant's opens with `{` and closes with `}`.
   */
  lemma VariantDelimiters(variant: Variant)
    requires variant.style == Struct || variant.style == Tuple
    requires forall i :: 0 <= i < |variant.fields| ==> Accepted(variant.fields[i].ty)
    ensures DeriveVariant(variant).Ok?
    ensures var r := DeriveVariant(variant).value;
      && |r| >= 11
      && r[7] == (if variant.style == Struct then Punct("[") else Punct("{"))
      && r[|r| - 3] == (if variant.style == Struct then Punct("]") else Punct("}"))
  {
    AnnotationsOk(variant.fields);
    var parts := if variant.style == Struct then FieldAnnotations(variant.fields).value
                 else ElementAnnotations(variant.fields).value;
    var payload := if variant.style == Struct then Bracketed(parts) else Braced(parts);
    assert DeriveVariant(variant).value == TagOpen(variant.name) + [Lit("fields"), Punct(":")] + payload + [Punct(","), Punct("}")];
  }

  /**
   * A unit variant is its tag alone; a newtype variant carries its field's
   * type as the payload and fails exactly when that type's mapping fails.
   */
  lemma UnitAndNewtypeVariants(variant: Variant)
    requires NewtypeHasField(variant.style, variant.fields)
    ensures variant.style == Unit ==>
      DeriveVariant(variant) == Ok([Punct("{"), Lit("tag"), Punct(":"), Lit(variant.name), Punct(","), Punct("}")])
    ensures variant.style == Newtype ==>
      && (DeriveVariant(variant).Ok? <==> TypeToTs(variant.fields[0].ty).Ok?)
      && (DeriveVariant(variant).Ok? ==>
            (DeriveVariant(variant).value ==
               [Punct("{"), Lit("tag"), Punct(":"), Lit(variant.name), Punct(","), Lit("fields"), Punct(":")]
               + TypeToTs(variant.fields[0].ty).value + [Punct(","), Punct("}")]))
  {
    if variant.style == Newtype && TypeToTs(variant.fields[0].ty).Ok? {
      var t := TypeToTs(variant.fields[0].ty).value;
      assert DeriveVariant(variant) == Ok(Tagged(variant.name, t));
      assert TagOpen(variant.name) + [Lit("fields"), Punct(":")]
        == [Punct("{"), Lit("tag"), Punct(":"), Lit(variant.name), Punct(","), Lit("fields"), Punct(":")];
    } else if variant.style == Unit {
      assert DeriveVariant(variant) == Ok(TagOpen(variant.name) + [Punct("}")]);
      assert TagOpen(variant.name) + [Punct("}")]
        == [Punct("{"), Lit("tag"), Punct(":"), Lit(variant.name), Punct(","), Punct("}")];
    }
  }

  /** Inside a tagged fragment the payload starts at index 7: tokens a .. a + n of it sit at 7 + a .. 7 + a + n. */
  lemma PayloadAt(name: string, payload: Tokens, a: nat, n: nat)
    requires a + n < |payload|
    ensures var r := Tagged(name, payload);
      && 7 + a + n < |r|
      && r[7 + a..7 + a + n] == payload[a..a + n]
      && r[7 + a + n] == payload[a + n]
  {
    var head := TagOpen(name) + [Lit("fields"), Punct(":")];
    var r := Tagged(name, payload);
    assert |head| == 7;
    assert r == head + (payload + [Punct(","), Punct("}")]);
  }

  /** Part i of a delimited list carried by a tagged fragment sits at 8 plus its offset, followed by a comma or the closing delimiter. */
  lemma TaggedListAt(name: string, parts: seq<Tokens>, open: Token, close: Token, i: nat)
    requires i < |parts|
    ensures var r, o := Tagged(name, [open] + Separated(parts, Punct(",")) + [close]), 8 + Offset(parts, i);
      && o + |parts[i]| < |r|
      && r[o..o + |parts[i]|] == parts[i]
      && r[o + |parts[i]|] == (if i + 1 < |parts| then Punct(",") else close)
  {
    var payload := [open] + Separated(parts, Punct(",")) + [close];
    var a, n := 1 + Offset(parts, i), |parts[i]|;
    SeparatedListAt(parts, open, close, i);
    assert a + n < |payload| && payload[a..a + n] == parts[i];
    assert payload[a + n] == (if i + 1 < |parts| then Punct(",") else close);
    PayloadAt(name, payload, a, n);
  }

  /** A struct or tuple variant's fragment is its tag around the payload its fields give. */
  lemma ListVariantDerived(variant: Variant, parts: seq<Tokens>)
    requires variant.style == Struct ==> FieldAnnotations(variant.fields) == Ok(parts)
    requires variant.style == Tuple ==> ElementAnnotations(variant.fields) == Ok(parts)
    requires variant.style == Struct || variant.style == Tuple
    ensures DeriveVariant(variant) == Ok(Tagged(variant.name, if variant.style == Struct then Bracketed(parts) else Braced(parts)))
  {
  }

  /**
   * A struct variant's fragment, as written: its tag, then `[`, field i's
   * `"name": type` at its offset in order, a comma after every field but the
   * last, and `]` right after the last.
   */
  lemma StructVariantLayout(variant: Variant, parts: seq<Tokens>, i: nat)
    requires variant.style == Struct && FieldAnnotations(variant.fields) == Ok(parts) && i < |parts|
    ensures DeriveVariant(variant) == Ok(Tagged(variant.name, Bracketed(parts)))
    ensures var r, o := Tagged(variant.name, Bracketed(parts)), 8 + Offset(parts, i);
      && o + |parts[i]| < |r|
      && r[o..o + |parts[i]|] == [Lit(variant.fields[i].name), Punct(":")] + TypeToTs(variant.fields[i].ty).value
      && r[o + |parts[i]|] == (if i + 1 < |parts| then Punct(",") else Punct("]"))
  {
    ListVariantDerived(variant, parts);
    FieldAt(variant.fields, parts, i);
    TaggedListAt(variant.name, parts, Punct("["), Punct("]"), i);
  }

  /**
   * A tuple variant's fragment, as written: its tag, then `{`, element i's
   * type at its offset in order, a comma after every element but the last,
   * and `}` right after the last.
   */
  lemma TupleVariantLayout(variant: Variant, parts: seq<Tokens>, i: nat)
    requires variant.style == Tuple && ElementAnnotations(variant.fields) == Ok(parts) && i < |parts|
    ensures DeriveVariant(variant) == Ok(Tagged(variant.name, Braced(parts)))
    ensures var r, o := Tagged(variant.name, Braced(parts)), 8 + Offset(parts, i);
      && o + |parts[i]| < |r|
      && r[o..o + |parts[i]|] == parts[i]
      && r[o + |parts[i]|] == (if i + 1 < |parts| then Punct(",") else Punct("}"))
    ensures TypeToTs(variant.fields[i].ty) == Ok(parts[i])
  {
    ListVariantDerived(variant, parts);
    ElementAt(variant.fields, parts, i);
    TaggedListAt(variant.name, parts, Punct("{"), Punct("}"), i);
  }

  /** The field types a struct or variant of the given style needs mapped: none, field 0, or all of them. */
  predicate FieldsAccepted(style: Style, fields: seq<Field>)
  {
    match style
    case Unit => true
    case Newtype => |fields| >= 1 && Accepted(fields[0].ty)
    case _ => forall i :: 0 <= i < |fields| ==> Accepted(fields[i].ty)
  }

  /** A struct's annotation fails exactly when one of the types it maps is not accepted. */
  lemma DeriveStructOk(style: Style, fields: seq<Field>)
    requires NewtypeHasField(style, fields)
    ensures DeriveStruct(style, fields).Ok? <==> FieldsAccepted(style, fields)
  {
    AnnotationsOk(fields);
    if style == Newtype {
      TypeToTsOk(fields[0].ty);
    }
  }

  /** A variant's fragment fails exactly when one of the types it maps is not accepted. */
  lemma DeriveVariantOk(variant: Variant)
    requires NewtypeHasField(variant.style, variant.fields)
    ensures DeriveVariant(variant).Ok? <==> FieldsAccepted(variant.style, variant.fields)
  {
    AnnotationsOk(variant.fields);
    if variant.style == Newtype {
      TypeToTsOk(variant.fields[0].ty);
    }
  }

  /** The fragments of the variants in order, or the first variant's panic. */
  function VariantFragments(variants: seq<Variant>): (r: Result<seq<Tokens>, Panic>)
    requires WellFormedVariants(variants)
    ensures r.Ok? ==> |r.value| == |variants|
  {
    if variants == [] then Ok([])
    else
      assert variants[0] in variants;
      assert WellFormedVariants(variants[1..]) by {
        forall v | v in variants[1..] ensures NewtypeHasField(v.style, v.fields) {
          assert v in variants;
        }
      }
      match DeriveVariant(variants[0])
      case Err(e) => Err(e)
      case Ok(first) =>
        match VariantFragments(variants[1..])
        case Err(e) => Err(e)
        case Ok(rest) => Ok([first] + rest)
  }

  /** Fragment i of a successful list is variant i's fragment. */
  lemma {:induction false} VariantFragmentsAt(variants: seq<Variant>, i: nat)
    requires WellFormedVariants(variants) && VariantFragments(variants).Ok? && i < |variants|
    ensures variants[i] in variants && DeriveVariant(variants[i]) == Ok(VariantFragments(variants).value[i])
  {
    assert variants[0] in variants;
    assert WellFormedVariants(variants[1..]) by {
      forall v | v in variants[1..] ensures NewtypeHasField(v.style, v.fields) {
        assert v in variants;
      }
    }
    if i > 0 {
      VariantFragmentsAt(variants[1..], i - 1);
      assert variants[1..][i - 1] == variants[i];
    }
  }

  /** The variants' fragments fail exactly when some variant maps a type that is not accepted. */
  lemma {:induction false} VariantFragmentsOk(variants: seq<Variant>)
    requires WellFormedVariants(variants)
    ensures VariantFragments(variants).Ok? <==>
      forall i :: 0 <= i < |variants| ==> FieldsAccepted(variants[i].style, variants[i].fields)
  {
    if variants != [] {
      assert variants[0] in variants;
      assert WellFormedVariants(variants[1..]) by {
        forall v | v in variants[1..] ensures NewtypeHasField(v.style, v.fields) {
          assert v in variants;
        }
      }
      VariantFragmentsOk(variants[1..]);
      DeriveVariantOk(variants[0]);
      forall i | 1 <= i < |variants|
        ensures variants[1..][i - 1] == variants[i]
      {
      }
    }
  }

  /** `derive_enum`: the fragments joined by `|`. */
  function DeriveEnum(variants: seq<Variant>): Result<Tokens, Panic>
    requires WellFormedVariants(variants)
  {
    match VariantFragments(variants)
    case Ok(parts) => Ok(Separated(parts, Punct("|")))
    case Err(e) => Err(e)
  }

  /**
   * The enum annotation: fragment i unchanged at Offset(parts, i), a `|`
   * after every fragment but the last, nothing after the last.
   */
  lemma EnumLayout(variants: seq<Variant>, parts: seq<Tokens>, i: nat)
    requires WellFormedVariants(variants) && VariantFragments(variants) == Ok(parts) && i < |parts|
    ensures DeriveEnum(variants) == Ok(Separated(parts, Punct("|")))
    ensures var r, o := Separated(parts, Punct("|")), Offset(parts, i);
      && o + |parts[i]| <= |r|
      && r[o..o + |parts[i]|] == parts[i]
      && (i + 1 < |parts| ==> o + |parts[i]| < |r| && r[o + |parts[i]|] == Punct("|"))
      && (i + 1 == |parts| ==> o + |parts[i]| == |r|)
  {
    SeparatedAt(parts, Punct("|"), i);
  }

  /** No bar leads the enum annotation: it opens with the first fragment's `{`. */
  lemma EnumOpensWithFragment(variants: seq<Variant>)
    requires WellFormedVariants(variants) && DeriveEnum(variants).Ok? && variants != []
    ensures DeriveEnum(variants).value[0] == Punct("{")
  {
    var parts := VariantFragments(variants).value;
    VariantFragmentsAt(variants, 0);
    SeparatedAt(parts, Punct("|"), 0);
    var r := DeriveEnum(variants).value;
    assert r[0] == r[0..|parts[0]|][0];
  }

  /** An enum without variants has an empty annotation. */
  lemma EmptyEnum()
    ensures DeriveEnum([]) == Ok([])
  {
  }

  /** ASCII upper-casing, letter by letter. */
  function Upper(s: string): (r: string)
    ensures |r| == |s|
    ensures forall i :: 0 <= i < |s| ==> r[i] == (if 'a' <= s[i] <= 'z' then (s[i] as int - 32) as char else s[i])
  {
    if s == [] then [] else [if 'a' <= s[0] <= 'z' then (s[0] as int - 32) as char else s[0]] + Upper(s[1..])
  }

  const ExportPrefix: string := "TS_EXPORT_"

  /** The exported constant's name: `TS_EXPORT_` and the container's identifier in upper case. */
  function ExportIdent(ident: string): (r: string)
    ensures |r| == |ExportPrefix| + |ident| && r[..|ExportPrefix|] == ExportPrefix
    ensures r[|ExportPrefix|..] == Upper(ident)
    ensures forall i :: |ExportPrefix| <= i < |r| ==> !('a' <= r[i] <= 'z')
  {
    ExportPrefix + Upper(ident)
  }

  /** Names that differ only in letter case share one export constant. */
  lemma ExportIdentCaseCollision(a: string, b: string)
    requires Upper(a) == Upper(b)
    ensures ExportIdent(a) == ExportIdent(b)
  {
  }

  /** `derive_typescript_definition`: the export name and the annotation, or the panic. */
  function DeriveTypescriptDefinition(c: Container): (r: Result<(string, Tokens), Panic>)
    requires WellFormedContainer(c)
    ensures r.Ok? ==> r.value.0 == ExportIdent(c.ident)
    ensures c.data.StructData? ==>
      && (r.Ok? <==> DeriveStruct(c.data.style, c.data.fields).Ok?)
      && (r.Ok? ==> r.value.1 == DeriveStruct(c.data.style, c.data.fields).value)
    ensures c.data.EnumData? ==>
      && (r.Ok? <==> DeriveEnum(c.data.variants).Ok?)
      && (r.Ok? ==> r.value.1 == DeriveEnum(c.data.variants).value)
  {
    var body := match c.data
      case StructData(style, fields) => DeriveStruct(style, fields)
      case EnumData(variants) => DeriveEnum(variants);
    match body
    case Ok(ts) => Ok((ExportIdent(c.ident), ts))
    case Err(e) => Err(e)
  }

  /** What a container needs of its field types for the derive not to panic. */
  predicate ContainerAccepted(c: Container)
  {
    match c.data
    case StructData(style, fields) => FieldsAccepted(style, fields)
    case EnumData(variants) => forall i :: 0 <= i < |variants| ==> FieldsAccepted(variants[i].style, variants[i].fields)
  }

  /** The derive panics exactly when some field type it maps is not accepted. */
  lemma DefinitionOk(c: Container)
    requires WellFormedContainer(c)
    ensures DeriveTypescriptDefinition(c).Ok? <==> ContainerAccepted(c)
  {
    match c.data {
      case StructData(style, fields) => DeriveStructOk(style, fields);
      case EnumData(variants) => VariantFragmentsOk(variants);
    }
  }
}
