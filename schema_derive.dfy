/**
 * The entry point of the `SchemaSerialize` derive
 * (serde_schema_derive/src/lib.rs): dispatch on the container's data to the
 * enum or struct handler, and the name of the generated annotation function.
 */
module SchemaDerive {

  import opened Tokens
  import opened Syntax
  import opened Builder
  import opened SchemaLib
  import opened SchemaEnum
  import opened SchemaStruct

  /** What the derive generates: the annotation function's name and text, and the `schema_register` body. */
  datatype Derived = Derived(definitionFn: string, annotation: Tokens, body: seq<Stmt>)

  /**
   * `derive_schema_serialize`: the enum handler for an enum, the struct
   * handler for a struct. Whatever the container, the body binds every type
   * id its one `register_type` uses.
   */
  method DeriveSchemaSerialize(c: Container) returns (d: Derived)
    requires WellFormedContainer(c)
    ensures d.definitionFn == DefinitionFnName(c.ident)
    ensures WellShaped(d.body) && Closed(d.body)
    ensures c.data.EnumData? ==>
      && d.annotation == EnumAnnotation(c.data.variants)
      && d.body == EnumCode(c.name, c.data.variants)
    ensures c.data.StructData? ==>
      && d.annotation == StructAnnotation(c.data.style, c.data.fields)
      && d.body == StructCode(c.data.style, c.name, c.data.fields)
  {
    match c.data {
      case EnumData(variants) =>
        var ts, code := DeriveEnum(c.name, variants);
        EnumClosed(c.name, variants);
        d := Derived(DefinitionFnName(c.ident), ts, code);
      case StructData(style, fields) =>
        var code := DeriveStruct(style, c.name, fields);
        StructCodeClosed(style, c.name, fields);
        d := Derived(DefinitionFnName(c.ident), StructAnnotation(style, fields), code);
    }
  }
}
