/**
 * The already-parsed input both derives receive: `syn::Type` reduced to the
 * forms the generators tell apart, and serde's container, variant and field
 * shapes with each field's serialize name (the rename, or else the declared
 * name) given as a plain string.
 */
module Syntax {

  /** `syn::Type`: one constructor per syn form; payloads kept only where a generator looks inside. */
  datatype Ty =
    | TypePath(qself: bool, leadingColon: bool, segments: seq<Segment>)
    | TypeSlice(elem: Ty)
    | TypeArray(elem: Ty)
    | TypePtr
    | TypeReference(elem: Ty)
    | TypeBareFn
    | TypeNever
    | TypeTuple(elems: seq<Ty>)
    | TypeTraitObject
    | TypeImplTrait
    | TypeParen
    | TypeGroup
    | TypeInfer
    | TypeMacro
    | TypeVerbatim

  datatype Segment = Segment(ident: string, arguments: PathArguments)

  datatype PathArguments =
    | NoArguments
    | AngleBracketed(args: seq<GenericArgument>)
    | Parenthesized

  datatype GenericArgument =
    | TypeArg(ty: Ty)
    | LifetimeArg
    | BindingArg
    | ConstraintArg
    | ConstArg

  /** serde's `ast::Style`. */
  datatype Style = Unit | Newtype | Tuple | Struct

  /** A field: its serialize name and its type. */
  datatype Field = Field(name: string, ty: Ty)

  /** An enum variant: its serialize name, style and fields in declaration order. */
  datatype Variant = Variant(name: string, style: Style, fields: seq<Field>)

  /** What a container holds: variants, or a struct style and its fields. */
  datatype Data = EnumData(variants: seq<Variant>) | StructData(style: Style, fields: seq<Field>)

  /** A container: its Rust identifier, its serialize name and its data. */
  datatype Container = Container(ident: string, name: string, data: Data)

  /** A path of one bare identifier, such as `i64` or `MyType`. */
  function Named(ident: string): Ty
  {
    TypePath(false, false, [Segment(ident, NoArguments)])
  }

  /**
   * What the generators need of a style: a newtype has a field 0 to index.
   * (serde always builds a newtype with exactly one field.)
   */
  predicate NewtypeHasField(style: Style, fields: seq<Field>)
  {
    style == Newtype ==> |fields| >= 1
  }

  predicate WellFormedVariants(variants: seq<Variant>)
  {
    forall v :: v in variants ==> NewtypeHasField(v.style, v.fields)
  }

  predicate WellFormedContainer(c: Container)
  {
    match c.data
    case EnumData(variants) => WellFormedVariants(variants)
    case StructData(style, fields) => NewtypeHasField(style, fields)
  }
}
