# wasm-typescript-definition, modelled in Dafny

This project models the two code generators of wasm-typescript-definition, plus the test registry they are checked against.

- **The `SchemaSerialize` derive** (`serde_schema_derive`). It takes a container as serde sees it: a serialize name, and either a struct style with fields or a list of variants. From it the derive emits two things:
  - the body of `schema_register`. This is a prelude of `let type_id_v_f = <T>::schema_register(schema)?;` bindings, followed by one `register_type` call. That call receives a builder chain such as `struct_type(name, len).field(..)….end()`;
  - a TypeScript annotation, returned by a generated `<Ident>_typescript_definition` function.
- **The `TypescriptDefinition` derive** (`src/lib.rs`). It emits only an annotation, but with a richer type mapping: `Array<T>`, `T?` and user type names. It also names the `TS_EXPORT_<IDENT>` constant.
- **`MockSchema`** (the crate's tests). This is a vector registry that returns positional ids, with its primitive type-id table.

## How the model is built

Token streams are sequences of `Ident`, `Punct` and `Lit` tokens (`Tokens`). `syn::Type` becomes `Syntax.Ty`, with one constructor per syn form. A builder chain is a `seq<Call>`, and the emitted body is a `seq<Stmt>`.

The loops of the source are methods proved against specification functions:
- `derive_register_field_types`, `derive_enum`, `derive_struct_variant`, `derive_tuple_variant`, `derive_struct_named_fields` and `derive_struct_tuple`.
- Each has a specification function: `Registrations`, `EnumCode`, `StructVariantCalls`, `StructCode` and the others.

Every generated output has an independent partner:
- `Builder.ReadChain` parses a chain back into the `Node` it describes.
- `SchemaAnnotation.ReadFragments` and `ReadPayload` parse an annotation back into tags, names and type names.
- `SchemaLib.ParseTypeIdVar` parses a `type_id_v_f` name back into `(v, f)`.
- `Mock.Execute` and `Mock.SchemaRegister` run an emitted body against a `MockSchema`.

With these partners the model proves:
- Reading a chain gives back the declared type: serialize name, arity, and member names and type-id variables in declaration order.
- Every type-id variable the chain uses is bound by the prelude.
- Both outputs use the same serialize names.
- Running the body registers exactly one node, which carries each field's type id.

The tests' cases are restated as methods in `MockTests`, with the exact annotations and registry contents they expect.

## Model

| member | source | states |
|---|---|---|
| SchemaLib.TypeIdVarRoundTrip | serde_schema_derive/src/lib.rs:80-83 | `type_id_{v}_{f}` parses back to exactly (v, f) |
| SchemaLib.TypeIdVarInjective | serde_schema_derive/src/lib.rs:80-83 | distinct (variant, field) pairs give distinct variable names |
| Decimal.ReadShow | serde_schema_derive/src/lib.rs:81 | the decimal rendering of an index reads back as that index |
| Decimal.ShowInjective | serde_schema_derive/src/lib.rs:81 | distinct indices render differently |
| SchemaLib.CollapseListBracket | serde_schema_derive/src/lib.rs:85-92 | one element comes back unchanged, with no brackets |
| SchemaLib.CollapseListBracketEnds | serde_schema_derive/src/lib.rs:88-91 | for any count but one: opens with `[`, closes with `]`, length is the parts plus one comma each plus two; no elements give `[ ]` |
| SchemaLib.CollapseListBracketAt | serde_schema_derive/src/lib.rs:88-91 | element i sits unchanged at its offset, followed by a comma, in order |
| SchemaLib.CollapseListBraceEnds | serde_schema_derive/src/lib.rs:94-97 | always braced, even for one element, which becomes `{ e , }` |
| SchemaLib.CollapseListBraceAt | serde_schema_derive/src/lib.rs:94-97 | element i sits unchanged at its offset, followed by a comma, in order |
| SchemaLib.TypeToTs | serde_schema_derive/src/lib.rs:99-131 | total: every type maps to exactly one identifier token |
| SchemaLib.TypeToTsTable | serde_schema_derive/src/lib.rs:99-131 | `number` exactly for the twelve integer names, `string` exactly for the string names, `boolean` exactly for `bool`, `any` for every other path and every non-path form |
| SchemaLib.DeriveRegisterFieldTypes | serde_schema_derive/src/lib.rs:133-151 | the loop emits the registration of each field in order and the braced list of their type tokens |
| SchemaLib.RegistrationsBind | serde_schema_derive/src/lib.rs:138-147 | the registrations bind exactly `type_id_v_f` for each field index f |
| SchemaLib.RegistrationsDistinct | serde_schema_derive/src/lib.rs:140-147 | no two registrations bind the same variable |
| SchemaLib.DeriveField | serde_schema_derive/src/lib.rs:153-163 | the same serialize name in `"name": ty` and `.field(name, id)`; the id parses to (v, f) |
| SchemaLib.DeriveElement | serde_schema_derive/src/lib.rs:165-173 | the type token paired with `.element(id)`, whose id parses to (v, e) |
| SchemaLib.DefinitionFnName | serde_schema_derive/src/lib.rs:49 | the annotation function's name is the container ident followed by `_typescript_definition` |
| SchemaLib.DefinitionFnNameInjective | serde_schema_derive/src/lib.rs:49 | distinct container idents give distinct annotation function names |
| SchemaEnum.DeriveUnitVariant | serde_schema_derive/src/derive_enum.rs:66-72 | `\| { "tag": name, }` with `.unit_variant(name)`, the same name in both |
| SchemaEnum.DeriveNewtypeVariant | serde_schema_derive/src/derive_enum.rs:74-83 | a fragment opening with `\|` and the tag, and one `.newtype_variant(name, id)` whose id parses to (v, 0) |
| SchemaEnum.DeriveStructVariant | serde_schema_derive/src/derive_enum.rs:85-109 | the loop emits `struct_variant(name, n)`, one `.field` per field in order, `.end()`; the payload is braced |
| SchemaEnum.DeriveTupleVariant | serde_schema_derive/src/derive_enum.rs:111-135 | the loop emits `tuple_variant(name, n)`, one `.element` per field in order, `.end()`; the payload collapses a single element |
| SchemaEnum.DeriveVariantCalls | serde_schema_derive/src/derive_enum.rs:28-39 | each style is sent to its own variant handler |
| SchemaEnum.DeriveEnumPrelude | serde_schema_derive/src/derive_enum.rs:15-21 | the first loop leaves every variant's field registrations, variant by variant, in declaration order |
| SchemaEnum.DeriveEnumChain | serde_schema_derive/src/derive_enum.rs:23-43 | the second loop leaves `enum_type(name, len)`, each variant's calls in declaration order, then `.end()` |
| SchemaEnum.DeriveEnum | serde_schema_derive/src/derive_enum.rs:8-64 | the body is the prelude of every variant's fields followed by one `register_type` of the enum chain; the annotation is the fragments in declaration order |
| SchemaEnum.ReadVariantCalls | serde_schema_derive/src/derive_enum.rs:28-39 | one variant's calls read back as its entry: name, arity, member names and ids |
| SchemaEnum.ReadVariantBlocks | serde_schema_derive/src/derive_enum.rs:28-39 | the variants' blocks read back as their entries, in declaration order, leaving what follows |
| SchemaEnum.EnumChainReads | serde_schema_derive/src/derive_enum.rs:23-43 | the chain reads back as `enum_type(name, len)` with len the variant count, one entry per variant in order, then `.end()` |
| SchemaEnum.EnumPreludeBinds | serde_schema_derive/src/derive_enum.rs:15-21 | the prelude binds exactly `type_id_v_f` for every field f of every variant v |
| SchemaEnum.EnumPreludeParses | serde_schema_derive/src/derive_enum.rs:15-21 | every prelude statement is a binding whose variable parses to a variant index in range |
| SchemaEnum.EnumPreludeDistinct | serde_schema_derive/src/derive_enum.rs:15-21 | no two prelude statements bind the same variable |
| SchemaEnum.VariantCallsRefs | serde_schema_derive/src/derive_enum.rs:74-125 | a variant's calls only use `type_id_v_f` for its own index v and its own fields f |
| SchemaEnum.VariantBlocksRefs | serde_schema_derive/src/derive_enum.rs:28-39 | the blocks from variant k on only use variables of those variants' fields |
| SchemaEnum.EnumChainRefs | serde_schema_derive/src/derive_enum.rs:23-43 | every variable the enum chain uses names a field of a variant |
| SchemaEnum.EnumClosed | serde_schema_derive/src/derive_enum.rs:60-63 | the body is bindings then one `register_type`, and every variable the chain uses is bound |
| SchemaStruct.DeriveStructNamedFields | serde_schema_derive/src/derive_struct.rs:77-101 | the loop emits the prelude, then `struct_type(name, len)`, one `.field` per field in order, `.end()` |
| SchemaStruct.DeriveStructTuple | serde_schema_derive/src/derive_struct.rs:103-127 | the loop emits the prelude, then `tuple_struct_type(name, len)`, one `.element` per field in order, `.end()` |
| SchemaStruct.DeriveStruct | serde_schema_derive/src/derive_struct.rs:7-18 | each style is sent to exactly its own handler |
| SchemaStruct.StructCodeReads | serde_schema_derive/src/derive_struct.rs:49-127 | every style ends in one `register_type`, and its chain reads back as the declared struct: name, arity, members in order |
| SchemaStruct.StructCodeClosed | serde_schema_derive/src/derive_struct.rs:53-66 | every variable the struct chain uses is bound by the prelude, a newtype's `type_id_0_0` included |
| SchemaStruct.NewtypeWithoutFieldOpen | serde_schema_derive/src/derive_struct.rs:55-65 | without its field a newtype would use `type_id_0_0` unbound: the chain relies on serde's one-field newtype |
| SchemaStruct.StructAnnotation | serde_schema_derive/tests/typescript.rs:65-163 | the annotation the tests expect: `{}` for a unit struct, the field's type for a newtype, a collapsed singleton for a tuple |
| SchemaDerive.DeriveSchemaSerialize | serde_schema_derive/src/lib.rs:31-78 | the container dispatches to the enum or struct handler; the body is well shaped and closed; the definition function is named after the ident |
| SchemaAnnotation.ReadElementList | serde_schema_derive/src/lib.rs:85-92 | a bracketed list reads back as the elements' type names, in order |
| SchemaAnnotation.ReadFieldRecord | serde_schema_derive/src/lib.rs:94-97 | a braced list reads back as the fields' names and type names, in order |
| SchemaAnnotation.ReadTuplePayload | serde_schema_derive/src/lib.rs:85-92 | a tuple payload reads back as a bare name for one element, a list otherwise |
| SchemaAnnotation.ReadStructPayload | serde_schema_derive/src/lib.rs:94-97 | a struct payload reads back as a record of its fields |
| SchemaAnnotation.ReadTagged | serde_schema_derive/src/derive_enum.rs:104-106 | `\| { "tag": n, "fields": p, }` reads back as tag n with payload p |
| SchemaAnnotation.ReadVariantFragment | serde_schema_derive/src/derive_enum.rs:66-135 | each variant's fragment reads back as its tag and payload |
| SchemaAnnotation.ReadEnumAnnotation | serde_schema_derive/src/derive_enum.rs:46-58 | the annotation reads back as one fragment per variant, in declaration order |
| SchemaAnnotation.EnumOutputsAgree | serde_schema_derive/src/derive_enum.rs:28-58 | registry entry i and annotation fragment i agree on the tag, the style and the member names |
| SchemaAnnotation.ReadStructAnnotation | serde_schema_derive/tests/typescript.rs:65-163 | the struct annotation reads back as the payload its style calls for |
| SchemaAnnotation.StructOutputsAgree | serde_schema_derive/src/derive_struct.rs:77-101 | the chain's field names and the annotation's field names are both the serialize names, in order |
| TsDefinition.TypeToTs | src/lib.rs:41-92 | a successful mapping is nonempty and never ends in a comma |
| TsDefinition.TypeToTsOk | src/lib.rs:59-69 | the mapping panics exactly on a path without segments, or an `Option` without angle brackets, with no arguments or with a non-type first argument, at any depth |
| TsDefinition.TypeToTsAgreesWithSchema | src/lib.rs:41-92 | on primitive names and non-path, non-slice, non-array forms the two mappings agree |
| TsDefinition.TypeToTsRicherThanSchema | src/lib.rs:44-75 | a user type maps to its own name and a slice to `Array<T>`, where the schema derive gives `any` |
| TsDefinition.SequencesAreArrays | src/lib.rs:44-51 | a slice and an array both map to `Array<` the element's mapping `>`, and fail exactly when the element's mapping fails |
| TsDefinition.LastSegmentTable | src/lib.rs:52-75 | a path is classified by its last segment's ident alone, whatever precedes it: integer names give `number`, string names `string`, `bool` gives `boolean`, and any other ident but `Option` maps to itself, whatever its generic arguments |
| TsDefinition.PanicTable | src/lib.rs:53-72 | no segments panics; `Option` without angle brackets, with no arguments or with a non-type first argument panics, each with its own message |
| TsDefinition.OtherFormsAreAny | src/lib.rs:78-90 | every form other than a path, a slice or an array maps to `any` |
| TsDefinition.OptionIsOptional | src/lib.rs:59-74 | `Option<X>` maps to the mapping of X followed by `?`, whatever its path prefix |
| TsDefinition.DeriveField | src/lib.rs:145-155 | `"name": ty` with the serialize name; it fails exactly when the type's mapping fails |
| TsDefinition.FieldAnnotations | src/lib.rs:116-119 | on success, one entry per field, in order, each that field's `"name": ty` |
| TsDefinition.ElementAnnotations | src/lib.rs:129 | on success, one entry per field, in order, each that field's type |
| TsDefinition.AnnotationsOk | src/lib.rs:116-129 | a field list fails exactly when one of its types is not accepted |
| TsDefinition.DeriveStruct | src/lib.rs:94-143 | a unit struct gives `{}`, and a newtype gives its field's type |
| TsDefinition.NamedStructLayout | src/lib.rs:112-123 | braces; field i's `"name": ty` at its offset in order; commas only between fields, none trailing |
| TsDefinition.TupleStructLayout | src/lib.rs:125-133 | brackets; element i at its offset in order; commas only between elements, none trailing |
| TsDefinition.TupleStructSingleton | src/lib.rs:125-133 | one element stays bracketed: no collapse |
| TsDefinition.DeriveVariant | src/lib.rs:172-221 | every fragment opens with `{ "tag": name` and closes with `}`; a unit variant never fails |
| TsDefinition.UnitAndNewtypeVariants | src/lib.rs:172-187 | a unit variant is `{ "tag": name, }`; a newtype variant is the tag with `"fields":` its field's type, and fails exactly when that type's mapping fails |
| TsDefinition.StructVariantLayout | src/lib.rs:189-204 | a struct variant is the tag around `[ … ]`: field i's `"name": ty` at its offset in order, commas only between fields, `]` right after the last |
| TsDefinition.TupleVariantLayout | src/lib.rs:206-221 | a tuple variant is the tag around `{ … }`: element i's type at its offset in order, commas only between elements, `}` right after the last |
| TsDefinition.DeriveStructOk | src/lib.rs:94-143 | a struct's annotation fails exactly when one of the field types it maps is not accepted |
| TsDefinition.DeriveVariantOk | src/lib.rs:172-221 | a variant's fragment fails exactly when one of the field types it maps is not accepted |
| TsDefinition.VariantFragmentsOk | src/lib.rs:223-240 | the fragments fail exactly when some variant maps a type that is not accepted |
| TsDefinition.VariantDelimiters | src/lib.rs:189-221 | a struct variant's payload is `[ … ]` and a tuple variant's `{ … }`, as written |
| TsDefinition.VariantFragmentsAt | src/lib.rs:223-240 | fragment i is variant i's fragment, in declaration order |
| TsDefinition.EnumLayout | src/lib.rs:242-244 | the fragments joined with `\|`: fragment i at its offset, a bar only between fragments |
| TsDefinition.EnumOpensWithFragment | src/lib.rs:242-244 | no leading bar: the annotation opens with the first fragment's brace |
| TsDefinition.EmptyEnum | src/lib.rs:242-244 | an enum without variants annotates as nothing |
| TsDefinition.Upper | src/lib.rs:24 | same length, ASCII lower-case letters raised, every other character unchanged |
| TsDefinition.ExportIdent | src/lib.rs:23-26 | `TS_EXPORT_` followed by the upper-cased ident, with no lower-case ASCII letter left |
| TsDefinition.ExportIdentCaseCollision | src/lib.rs:23-26 | idents that differ only in case get the same constant name |
| TsDefinition.DeriveTypescriptDefinition | src/lib.rs:18-29 | a struct's definition is its struct annotation and an enum's its enum annotation, failing exactly when that fails; on success the constant is named by the export rule for the container ident |
| TsDefinition.DefinitionOk | src/lib.rs:18-29 | the derive panics exactly when some field type it maps is not accepted |
| Mock.TypeIdOf | serde_schema_derive/tests/typescript.rs:27-43 | no primitive constant is a `Custom` id |
| Mock.TypeIdTable | serde_schema_derive/tests/typescript.rs:27-43 | BOOL, I64, U64 and STR are exactly the constants with their own id; every other constant is `Unknown` |
| Mock.MockSchema.constructor | serde_schema_derive/tests/typescript.rs:45 | a new registry is empty |
| Mock.MockSchema.RegisterType | serde_schema_derive/tests/typescript.rs:51-54 | appends the node, keeps earlier entries, and returns the id of its position |
| Mock.RegisterInTurn | serde_schema_derive/tests/typescript.rs:51-54 | successive calls append in order, and the k-th call returns `Custom` of the old size plus k |
| Mock.BindFromAppend | serde_schema_derive/src/lib.rs:144-147 | running two runs of bindings is running the second after the first |
| Mock.BindFromKeeps | serde_schema_derive/src/lib.rs:144-147 | a variable no binding names keeps its value |
| Mock.LastBindingWins | serde_schema_derive/src/lib.rs:144-147 | a variable holds the type id of its last binding |
| Mock.SchemaRegister | serde_schema_derive/src/lib.rs:61-67 | running a body registers exactly the node `Execute` computes and returns its position, or leaves the registry alone |
| Mock.StructExecutes | serde_schema_derive/src/derive_struct.rs:49-127 | running a derived struct body registers its name and each member's name and type id, in order |
| Mock.EnumPreludeHas | serde_schema_derive/src/derive_enum.rs:15-21 | the enum prelude holds the registration of every field of every variant |
| Mock.EnumExecutes | serde_schema_derive/src/derive_enum.rs:8-64 | running a derived enum body registers its name and, per variant in order, its name and members' names and type ids |
| MockTests.DeriveAndRegister | serde_schema_derive/tests/typescript.rs:62-72 | when every field type is one of the tests' primitive forms, deriving and registering with an empty schema returns `Custom(0)` and leaves exactly the typed node |
| MockTests.DeriveEnumOfThree | serde_schema_derive/tests/typescript.rs:177-213 | an enum of three variants over the tests' primitive field types annotates as their three fragments in order and registers one enum node with their three typed entries at id 0 |
| MockTests.UnitStructCase | serde_schema_derive/tests/typescript.rs:57-73 | `{}` and `unit_struct_type("Unit")` at id 0 |
| MockTests.NewtypeStructCase | serde_schema_derive/tests/typescript.rs:75-93 | `number` and `newtype_struct_type("Newtype", Int64)` at id 0 |
| MockTests.TupleStructCase | serde_schema_derive/tests/typescript.rs:95-117 | `[number, string,]` and a tuple struct of `Int64`, `String` at id 0 |
| MockTests.BorrowedFieldsCase | serde_schema_derive/tests/typescript.rs:119-145 | `{"raw": any, "cow": any,}` and two `String` fields at id 0 |
| MockTests.RenamedFieldsCase | serde_schema_derive/tests/typescript.rs:147-175 | the renamed `X` and `Y` in both the annotation and the registered struct |
| MockTests.NewtypeVariantsCase | serde_schema_derive/tests/typescript.rs:177-213 | three tagged newtype fragments and three newtype entries with their ids |
| MockTests.UnitVariantsCase | serde_schema_derive/tests/typescript.rs:215-247 | three `\| {"tag": …,}` fragments and three unit entries, in order |
| MockTests.TupleVariantsCase | serde_schema_derive/tests/typescript.rs:249-291 | bracketed two-element payloads and two-element tuple entries with their ids |
| MockTests.StructVariantsCase | serde_schema_derive/tests/typescript.rs:293-344 | braced renamed-field payloads and three struct entries with their fields' ids |

## Left out

- Proc-macro plumbing is not modelled: `syn` parsing, `Ctxt`, `TokenStream` conversion, the logging, the `impl SchemaSerialize` wrapper and the `wasm_bindgen` custom section. Only the two naming rules are kept: `DefinitionFnName` and `ExportIdent`.
- Rename processing by `serde_derive_internals` is not modelled. Each field and variant carries its serialize name as a plain string.
- Spacing and `to_string` rendering are not modelled. Outputs are token sequences, and a string literal is a `Lit` token holding its text.
- The `Schema` trait, the `Type` builder and the primitive `SchemaSerialize` impls are in serde_schema files that are not part of this model. What a field's type registers as is a parameter (`fieldIds`), and a field type's own registrations are assumed to leave the registry unchanged. `MockTests.CaseTypeIds` gives the ids the tests expect for their field types, `&str` and `Cow<str>` included.
- MockTests.DeriveAndRegister: stated only for containers whose field types are all among the tests' primitive forms (`bool`, `i64`, `u64`, `String`, `&str`, `Cow<str>`), which register no node of their own. A field whose type itself derives `SchemaSerialize` registers its own node first, in the prelude of serde_schema_derive/src/lib.rs:144-147, so the container would land at a later id. That case is not modelled.
- The `?` early return of a failed field registration is not modelled, since `MockSchema.register_type` never fails.
- The unused copy of `MockTypeId` in serde_schema_derive/src/derive_struct.rs:21-47 is not modelled.
- The `"&str"` and `"&'static str"` arms can never match: a reference reaches the reference arm first, and a path's text has no `&`. They are kept in the name tables but have no effect.
- The crate does not compile as written in three places. The model follows the evident intent:
  - derive_struct.rs:117 calls `derive_element` without the field; the model passes it.
  - derive_struct.rs:54 and :110 interpolate the whole pair from `derive_register_field_types`; the model uses its `.1`, as derive_enum.rs:20 does.
  - serde_schema_derive/src/lib.rs:39-46 has match arms of different types; see the next line.
- SchemaStruct.StructAnnotation: `derive_struct` returns `()` as its annotation. The struct annotations are taken from what the tests expect (typescript.rs:65-67, 83-85, 103-105, 131-133, 161-163), built with the crate's own collapse helpers.
- MockTests.StructVariantsCase: typescript.rs:331 expects `enum_type("Enum", 2)` for an enum of three variants. derive_enum.rs:13 passes the variant count, so the model registers three entries, and this one expectation of the test is not reproduced.
- TsDefinition.VariantDelimiters: src/lib.rs brackets a struct variant's fields and braces a tuple variant's elements, the reverse of derive_enum.rs. The model keeps it as written.
- TsDefinition.Upper: only ASCII letters are upper-cased. Rust's `to_uppercase` also maps non-ASCII letters, and that is not modelled.
- TsDefinition.TypeToTs: a path is classified by its last segment's ident, as in the source. A generic argument list on a non-`Option` path is dropped, as the source drops it.
- Nothing shown detects duplicate field names, recursive types or repeated registrations, and the model adds none of these.
