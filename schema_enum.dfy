/**
 * The enum handler of the `SchemaSerialize` derive
 * (serde_schema_derive/src/derive_enum.rs): one prelude registering every
 * field of every variant, one `enum_type(name, len)` chain with one variant
 * entry per variant, and the `|`-prefixed annotation fragments.
 */
module SchemaEnum {

  import opened Wrappers
  import opened Seqs
  import opened Tokens
  import opened Syntax
  import opened Builder
  import opened SchemaLib

  /** `| { "tag": name,` — how every variant fragment opens. */
  function TagOpen(name: string): Tokens
  {
    [Punct("|"), Punct("{"), Lit("tag"), Punct(":"), Lit(name), Punct(",")]
  }

  /** `| { "tag": name, "fields": payload, }` */
  function TaggedFragment(name: string, payload: Tokens): Tokens
  {
    TagOpen(name) + [Lit("fields"), Punct(":")] + payload + [Punct(","), Punct("}")]
  }

  /** The annotation half of `derive_unit_variant`: `| { "tag": name, }`. */
  function UnitVariantFragment(name: string): Tokens
  {
    TagOpen(name) + [Punct("}")]
  }

  /** The annotation half of `derive_newtype_variant`: `| { "tag": name, "fields": ty, }`. */
  function NewtypeVariantFragment(name: string, field: Field): Tokens
  {
    TaggedFragment(name, TypeToTs(field.ty))
  }

  /** The chain half of `derive_newtype_variant`: `.newtype_variant(name, type_id_v_0)`. */
  function NewtypeVariantCalls(name: string, v: nat): seq<Call>
  {
    [NewtypeVariant(name, TypeIdVar(v, 0))]
  }

  /** `derive_unit_variant`: the tag text and `.unit_variant` carry the same name. */
  function DeriveUnitVariant(name: string): (r: (Tokens, seq<Call>))
    ensures |r.0| > 4 && r.0[0] == Punct("|") && r.1 == [UnitVariant(name)] && r.0[4] == Lit(r.1[0].name)
  {
    (UnitVariantFragment(name), [UnitVariant(name)])
  }

  /** `derive_newtype_variant`: the tag text and `.newtype_variant` carry the same name; the id is field 0 of variant v. */
  function DeriveNewtypeVariant(name: string, v: nat, field: Field): (r: (Tokens, seq<Call>))
    ensures |r.0| > 4 && r.0[0] == Punct("|") && |r.1| == 1 && r.1[0].NewtypeVariant?
    ensures r.0[4] == Lit(r.1[0].name) && r.1[0].name == name
    ensures ParseTypeIdVar(r.1[0].id) == Some((v, 0))
  {
    TypeIdVarRoundTrip(v, 0);
    (NewtypeVariantFragment(name, field), NewtypeVariantCalls(name, v))
  }

  /** The chain half of `derive_struct_variant`. */
  function StructVariantCalls(name: string, v: nat, fields: seq<Field>): seq<Call>
  {
    [StructVariant(name, |fields|)] + FieldCalls(v, fields) + [End]
  }

  /** The chain half of `derive_tuple_variant`. */
  function TupleVariantCalls(name: string, v: nat, fields: seq<Field>): seq<Call>
  {
    [TupleVariant(name, |fields|)] + ElementCalls(v, fields) + [End]
  }

  /** The annotation half of `derive_struct_variant`: the fields always braced. */
  function StructVariantFragment(name: string, fields: seq<Field>): Tokens
  {
    TaggedFragment(name, CollapseListBrace(FieldAnnotations(fields)))
  }

  /** The annotation half of `derive_tuple_variant`: the elements bracketed unless there is exactly one. */
  function TupleVariantFragment(name: string, fields: seq<Field>): Tokens
  {
    TaggedFragment(name, CollapseListBracket(ElementAnnotations(fields)))
  }

  /** `derive_struct_variant`: a loop appends one `.field` per field between the header and `.end()`. */
  method DeriveStructVariant(name: string, v: nat, fields: seq<Field>) returns (ts: Tokens, calls: seq<Call>)
    ensures calls == StructVariantCalls(name, v, fields)
    ensures ts == StructVariantFragment(name, fields)
  {
    calls := [StructVariant(name, |fields|)];
    var i := 0;
    while i < |fields|
      invariant 0 <= i <= |fields|
      invariant calls == [StructVariant(name, |fields|)] + FieldCalls(v, fields)[..i]
    {
      calls := calls + [DeriveField(v, i, fields[i]).1];
      i := i + 1;
    }
    calls := calls + [End];
    ts := StructVariantFragment(name, fields);
  }

  /** `derive_tuple_variant`: a loop appends one `.element` per field between the header and `.end()`. */
  method DeriveTupleVariant(name: string, v: nat, fields: seq<Field>) returns (ts: Tokens, calls: seq<Call>)
    ensures calls == TupleVariantCalls(name, v, fields)
    ensures ts == TupleVariantFragment(name, fields)
  {
    calls := [TupleVariant(name, |fields|)];
    var i := 0;
    while i < |fields|
      invariant 0 <= i <= |fields|
      invariant calls == [TupleVariant(name, |fields|)] + ElementCalls(v, fields)[..i]
    {
      calls := calls + [DeriveElement(v, i, fields[i]).1];
      i := i + 1;
    }
    calls := calls + [End];
    ts := TupleVariantFragment(name, fields);
  }

  /** The builder calls for variant number v, by its style. */
  function VariantCalls(v: nat, variant: Variant): seq<Call>
    requires NewtypeHasField(variant.style, variant.fields)
  {
    match variant.style
    case Struct => StructVariantCalls(variant.name, v, variant.fields)
    case Newtype => NewtypeVariantCalls(variant.name, v)
    case Tuple => TupleVariantCalls(variant.name, v, variant.fields)
    case Unit => [UnitVariant(variant.name)]
  }

  /** The annotation fragment of a variant, by its style. */
  function VariantFragment(variant: Variant): Tokens
    requires NewtypeHasField(variant.style, variant.fields)
  {
    match variant.style
    case Struct => StructVariantFragment(variant.name, variant.fields)
    case Newtype => NewtypeVariantFragment(variant.name, variant.fields[0])
    case Tuple => TupleVariantFragment(variant.name, variant.fields)
    case Unit => UnitVariantFragment(variant.name)
  }

  /** The calls of each variant, one block per variant, in declaration order. */
  function VariantBlocks(variants: seq<Variant>): seq<seq<Call>>
    requires WellFormedVariants(variants)
  {
    seq(|variants|, i requires 0 <= i < |variants| && variants[i] in variants => VariantCalls(i, variants[i]))
  }

  /** The whole builder chain: `enum_type(name, len)`, every variant's calls in order, `.end()`. */
  function EnumChain(name: string, variants: seq<Variant>): seq<Call>
    requires WellFormedVariants(variants)
  {
    [EnumType(name, |variants|)] + Flatten(VariantBlocks(variants)) + [End]
  }

  /** The registrations of the fields of the first k variants, variant by variant. */
  function EnumPrelude(variants: seq<Variant>, k: nat): seq<Stmt>
    requires k <= |variants|
  {
    if k == 0 then [] else EnumPrelude(variants, k - 1) + Registrations(k - 1, variants[k - 1].fields)
  }

  /** The code `derive_enum` emits: the prelude, then one `register_type` with the chain. */
  function EnumCode(name: string, variants: seq<Variant>): seq<Stmt>
    requires WellFormedVariants(variants)
  {
    EnumPrelude(variants, |variants|) + [RegisterType(EnumChain(name, variants))]
  }

  /** The annotation: every variant's fragment, in declaration order. */
  function EnumAnnotation(variants: seq<Variant>): Tokens
    requires WellFormedVariants(variants)
  {
    if variants == [] then [] else VariantFragment(variants[0]) + EnumAnnotation(variants[1..])
  }

  /** The dispatch on a variant's style that picks its calls in `derive_enum`. */
  method DeriveVariantCalls(v: nat, variant: Variant) returns (calls: seq<Call>)
    requires NewtypeHasField(variant.style, variant.fields)
    ensures calls == VariantCalls(v, variant)
  {
    match variant.style {
      case Struct =>
        var _, c := DeriveStructVariant(variant.name, v, variant.fields);
        calls := c;
      case Newtype =>
        calls := DeriveNewtypeVariant(variant.name, v, variant.fields[0]).1;
      case Tuple =>
        var _, c := DeriveTupleVariant(variant.name, v, variant.fields);
        calls := c;
      case Unit =>
        calls := DeriveUnitVariant(variant.name).1;
    }
  }

  /**
   * `derive_enum`: a first loop appends each variant's registrations to the
   * prelude, a second appends each variant's calls after `enum_type(name, len)`,
   * then `.end()`; the prelude and one `register_type` make the code.
   */
  method DeriveEnum(name: string, variants: seq<Variant>) returns (ts: Tokens, code: seq<Stmt>)
    requires WellFormedVariants(variants)
    ensures code == EnumCode(name, variants)
    ensures ts == EnumAnnotation(variants)
  {
    var typeIds := DeriveEnumPrelude(variants);
    var build := DeriveEnumChain(name, variants);
    ts := EnumAnnotation(variants);
    code := typeIds + [RegisterType(build)];
  }

  /** The first loop of `derive_enum`: each variant's registrations, variant by variant. */
  method DeriveEnumPrelude(variants: seq<Variant>) returns (typeIds: seq<Stmt>)
    ensures typeIds == EnumPrelude(variants, |variants|)
  {
    typeIds := [];
    var i := 0;
    while i < |variants|
      invariant 0 <= i <= |variants|
      invariant typeIds == EnumPrelude(variants, i)
    {
      var _, registrations := DeriveRegisterFieldTypes(i, variants[i].fields);
      typeIds := typeIds + registrations;
      i := i + 1;
    }
  }

  /** The second loop of `derive_enum`: `enum_type(name, len)`, each variant's calls in order, `.end()`. */
  method DeriveEnumChain(name: string, variants: seq<Variant>) returns (build: seq<Call>)
    requires WellFormedVariants(variants)
    ensures build == EnumChain(name, variants)
  {
    ghost var blocks := VariantBlocks(variants);
    build := [EnumType(name, |variants|)];
    var i := 0;
    while i < |variants|
      invariant 0 <= i <= |variants|
      invariant build == [EnumType(name, |variants|)] + Flatten(blocks[..i])
    {
      var variant := variants[i];
      assert variant in variants;
      var calls := DeriveVariantCalls(i, variant);
      VariantBlockAt(variants, i);
      FlattenSnoc(blocks, i);
      assert build + calls == [EnumType(name, |variants|)] + Flatten(blocks[..i + 1]);
      build := build + calls;
      i := i + 1;
    }
    assert blocks[..|variants|] == blocks;
    build := build + [End];
  }

  /** Block i of the chain is variant i's calls. */
  lemma VariantBlockAt(variants: seq<Variant>, i: nat)
    requires WellFormedVariants(variants) && i < |variants|
    ensures variants[i] in variants && VariantBlocks(variants)[i] == VariantCalls(i, variants[i])
  {
    assert variants[i] in variants;
  }

  /** The variant entry variant number v should register: its name, style and members' type ids. */
  function VariantNodeOf(v: nat, variant: Variant): VariantNode<string>
    requires NewtypeHasField(variant.style, variant.fields)
  {
    match variant.style
    case Struct => StructVariantNode(variant.name, FieldPairs(v, variant.fields))
    case Newtype => NewtypeVariantNode(variant.name, TypeIdVar(v, 0))
    case Tuple => TupleVariantNode(variant.name, ElementIds(v, variant.fields))
    case Unit => UnitVariantNode(variant.name)
  }

  /** The variant entries of the whole enum, in declaration order. */
  function VariantNodes(variants: seq<Variant>): seq<VariantNode<string>>
    requires WellFormedVariants(variants)
  {
    seq(|variants|, i requires 0 <= i < |variants| && variants[i] in variants => VariantNodeOf(i, variants[i]))
  }

  /** A variant's calls read back as its entry, whatever follows them. */
  lemma ReadVariantCalls(v: nat, variant: Variant, rest: seq<Call>)
    requires NewtypeHasField(variant.style, variant.fields)
    ensures ReadVariant(VariantCalls(v, variant) + rest) == Some((VariantNodeOf(v, variant), rest))
  {
    var calls := VariantCalls(v, variant) + rest;
    match variant.style {
      case Struct => ReadStructVariantCalls(v, variant.name, variant.fields, rest);
      case Tuple => ReadTupleVariantCalls(v, variant.name, variant.fields, rest);
      case Newtype => assert calls[1..] == rest;
      case Unit => assert calls[1..] == rest;
    }
  }

  /** A struct variant's calls read back as its name and its (field name, type id) pairs. */
  lemma ReadStructVariantCalls(v: nat, name: string, fields: seq<Field>, rest: seq<Call>)
    ensures ReadVariant(StructVariantCalls(name, v, fields) + rest) == Some((StructVariantNode(name, FieldPairs(v, fields)), rest))
  {
    var calls := StructVariantCalls(name, v, fields) + rest;
    var n := |fields|;
    assert calls[1..] == FieldCalls(v, fields) + ([End] + rest);
    ReadFieldsAll(calls[1..], n);
    assert ReadFields(calls[1..], n).value.0 == FieldPairs(v, fields);
    assert calls[1..][n..] == [End] + rest;
  }

  /** A tuple variant's calls read back as its name and its elements' type ids. */
  lemma ReadTupleVariantCalls(v: nat, name: string, fields: seq<Field>, rest: seq<Call>)
    ensures ReadVariant(TupleVariantCalls(name, v, fields) + rest) == Some((TupleVariantNode(name, ElementIds(v, fields)), rest))
  {
    var calls := TupleVariantCalls(name, v, fields) + rest;
    var n := |fields|;
    assert calls[1..] == ElementCalls(v, fields) + ([End] + rest);
    ReadElementsAll(calls[1..], n);
    assert ReadElements(calls[1..], n).value.0 == ElementIds(v, fields);
    assert calls[1..][n..] == [End] + rest;
  }

  /** Reading n + 1 entries is reading one, then n from where it stopped. */
  lemma ReadVariantsStep(calls: seq<Call>, tail: seq<Call>, node: VariantNode<string>, n: nat,
                         nodes: seq<VariantNode<string>>, rest: seq<Call>)
    requires ReadVariant(calls) == Some((node, tail)) && ReadVariants(tail, n) == Some((nodes, rest))
    ensures ReadVariants(calls, n + 1) == Some(([node] + nodes, rest))
  {
  }

  /** The blocks of variants k.. read back as their entries, whatever follows them. */
  lemma {:induction false} ReadVariantBlocks(variants: seq<Variant>, k: nat, rest: seq<Call>)
    requires WellFormedVariants(variants) && k <= |variants|
    ensures ReadVariants(Flatten(VariantBlocks(variants)[k..]) + rest, |variants| - k)
      == Some((VariantNodes(variants)[k..], rest))
    decreases |variants| - k
  {
    var blocks := VariantBlocks(variants);
    if k < |variants| {
      FlattenFrom(blocks, k);
      assert blocks[k..][1..] == blocks[k + 1..];
      assert variants[k] in variants;
      var tail := Flatten(blocks[k + 1..]) + rest;
      assert Flatten(blocks[k..]) + rest == VariantCalls(k, variants[k]) + tail;
      ReadVariantCalls(k, variants[k], tail);
      ReadVariantBlocks(variants, k + 1, rest);
      var nodes := VariantNodes(variants);
      ReadVariantsStep(VariantCalls(k, variants[k]) + tail, tail, nodes[k], |variants| - k - 1, nodes[k + 1..], rest);
      assert nodes[k..] == [nodes[k]] + nodes[k + 1..];
    } else {
      assert blocks[k..] == [];
      assert Flatten(blocks[k..]) + rest == rest;
      assert VariantNodes(variants)[k..] == [];
    }
  }

  /**
   * The registered enum is the one declared: its serialize name, one entry per
   * variant in order, each with its name, style and the type ids of its fields.
   */
  lemma EnumChainReads(name: string, variants: seq<Variant>)
    requires WellFormedVariants(variants)
    ensures ReadChain(EnumChain(name, variants)) == Some(EnumNode(name, VariantNodes(variants)))
  {
    var chain := EnumChain(name, variants);
    var blocks := VariantBlocks(variants);
    assert blocks[0..] == blocks;
    assert chain[1..] == Flatten(blocks[0..]) + [End];
    ReadVariantBlocks(variants, 0, [End]);
    assert VariantNodes(variants)[0..] == VariantNodes(variants);
  }

  /** The prelude of the first k variants binds exactly type_id_v_f for each field f of each such variant v. */
  lemma {:induction false} EnumPreludeBinds(variants: seq<Variant>, k: nat, x: string)
    requires k <= |variants|
    ensures Defines(EnumPrelude(variants, k), x) <==>
      exists v, f :: 0 <= v < k && 0 <= f < |variants[v].fields| && x == TypeIdVar(v, f)
  {
    if k == 0 {
    } else {
      EnumPreludeBinds(variants, k - 1, x);
      DefinesAppend(EnumPrelude(variants, k - 1), Registrations(k - 1, variants[k - 1].fields), x);
      RegistrationsBind(k - 1, variants[k - 1].fields, x);
      if exists v, f :: 0 <= v < k && 0 <= f < |variants[v].fields| && x == TypeIdVar(v, f) {
        var v, f :| 0 <= v < k && 0 <= f < |variants[v].fields| && x == TypeIdVar(v, f);
        if v < k - 1 {
          assert exists v', f' :: 0 <= v' < k - 1 && 0 <= f' < |variants[v'].fields| && x == TypeIdVar(v', f');
        }
      }
    }
  }

  /** Every binding of the prelude of the first k variants names a field of one of them. */
  lemma {:induction false} EnumPreludeParses(variants: seq<Variant>, k: nat)
    requires k <= |variants|
    ensures forall i :: 0 <= i < |EnumPrelude(variants, k)| ==>
      && EnumPrelude(variants, k)[i].LetTypeId?
      && ParseTypeIdVar(EnumPrelude(variants, k)[i].binding).Some?
      && ParseTypeIdVar(EnumPrelude(variants, k)[i].binding).value.0 < k
  {
    if k > 0 {
      EnumPreludeParses(variants, k - 1);
      var a: seq<Stmt>, r: seq<Stmt> := EnumPrelude(variants, k - 1), Registrations(k - 1, variants[k - 1].fields);
      forall i | 0 <= i < |a + r|
        ensures (a + r)[i].LetTypeId?
        ensures ParseTypeIdVar((a + r)[i].binding).Some? && ParseTypeIdVar((a + r)[i].binding).value.0 < k
      {
        if i >= |a| {
          TypeIdVarRoundTrip(k - 1, i - |a|);
        }
      }
    }
  }

  /** No variable is bound twice in the prelude of the first k variants. */
  lemma {:induction false} EnumPreludeDistinct(variants: seq<Variant>, k: nat)
    requires k <= |variants|
    ensures forall i, j :: 0 <= i < j < |EnumPrelude(variants, k)| ==>
      && EnumPrelude(variants, k)[i].LetTypeId? && EnumPrelude(variants, k)[j].LetTypeId?
      && EnumPrelude(variants, k)[i].binding != EnumPrelude(variants, k)[j].binding
  {
    if k > 0 {
      EnumPreludeDistinct(variants, k - 1);
      EnumPreludeParses(variants, k - 1);
      var fields := variants[k - 1].fields;
      var a: seq<Stmt>, r: seq<Stmt> := EnumPrelude(variants, k - 1), Registrations(k - 1, fields);
      RegistrationsDistinct(k - 1, fields);
      assert EnumPrelude(variants, k) == a + r;
      forall i, j | 0 <= i < j < |a + r|
        ensures (a + r)[i].LetTypeId? && (a + r)[j].LetTypeId?
        ensures (a + r)[i].binding != (a + r)[j].binding
      {
        if j < |a| {
          assert (a + r)[i] == a[i] && (a + r)[j] == a[j];
        } else if i >= |a| {
          assert (a + r)[i] == r[i - |a|] && (a + r)[j] == r[j - |a|];
        } else {
          assert (a + r)[i] == a[i] && (a + r)[j] == r[j - |a|];
          TypeIdVarRoundTrip(k - 1, j - |a|);
          assert ParseTypeIdVar(a[i].binding).value.0 < k - 1;
        }
      }
    } else {
      assert EnumPrelude(variants, k) == [];
    }
  }

  /** The variables a variant's calls use are among type_id_v_f for its fields f. */
  lemma VariantCallsRefs(v: nat, variant: Variant, x: string)
    requires NewtypeHasField(variant.style, variant.fields)
    requires References(VariantCalls(v, variant), x)
    ensures exists f :: 0 <= f < |variant.fields| && x == TypeIdVar(v, f)
  {
    var calls := VariantCalls(v, variant);
    var i :| 0 <= i < |calls| && RefOf(calls[i]) == Some(x);
    if variant.style.Struct? || variant.style.Tuple? {
      assert x == TypeIdVar(v, i - 1);
    } else {
      assert x == TypeIdVar(v, 0);
    }
  }

  /** The variables the blocks of variants k.. use are among the fields of those variants. */
  lemma {:induction false} VariantBlocksRefs(variants: seq<Variant>, k: nat, x: string)
    requires WellFormedVariants(variants) && k <= |variants|
    requires References(Flatten(VariantBlocks(variants)[k..]), x)
    ensures exists v, f :: k <= v < |variants| && 0 <= f < |variants[v].fields| && x == TypeIdVar(v, f)
    decreases |variants| - k
  {
    var blocks := VariantBlocks(variants);
    assert blocks[k..] != [];
    FlattenFrom(blocks, k);
    assert variants[k] in variants;
    ReferencesAppend(blocks[k], Flatten(blocks[k + 1..]), x);
    if References(blocks[k], x) {
      VariantCallsRefs(k, variants[k], x);
    } else {
      VariantBlocksRefs(variants, k + 1, x);
    }
  }

  /** The variables the enum chain uses are among type_id_v_f for the fields f of the variants v. */
  lemma EnumChainRefs(name: string, variants: seq<Variant>, x: string)
    requires WellFormedVariants(variants)
    requires References(EnumChain(name, variants), x)
    ensures exists v, f :: 0 <= v < |variants| && 0 <= f < |variants[v].fields| && x == TypeIdVar(v, f)
  {
    var blocks := VariantBlocks(variants);
    assert blocks[0..] == blocks;
    ReferencesAppend([EnumType(name, |variants|)] + Flatten(blocks), [End], x);
    ReferencesAppend([EnumType(name, |variants|)], Flatten(blocks), x);
    VariantBlocksRefs(variants, 0, x);
  }

  /**
   * The code `derive_enum` emits is a run of `let` bindings and one
   * `register_type` last, and every type id its chain uses is bound before it.
   */
  lemma EnumClosed(name: string, variants: seq<Variant>)
    requires WellFormedVariants(variants)
    ensures WellShaped(EnumCode(name, variants)) && Closed(EnumCode(name, variants))
  {
    var prelude := EnumPrelude(variants, |variants|);
    var chain := EnumChain(name, variants);
    var code := EnumCode(name, variants);
    EnumPreludeParses(variants, |variants|);
    assert code[..|code| - 1] == prelude;
    forall x | References(chain, x)
      ensures Defines(prelude, x)
    {
      EnumChainRefs(name, variants, x);
      EnumPreludeBinds(variants, |variants|, x);
    }
  }
}
