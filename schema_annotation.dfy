/**
 * Reading back the annotation the `SchemaSerialize` derive writes
 * (serde_schema_derive/src/lib.rs, derive_enum.rs): a reader for the
 * `| { "tag": name, "fields": payload, }` fragments, the proof that every
 * annotation reads back as the declared variants and fields, and the
 * agreement of the annotation with the registered type node.
 */
module SchemaAnnotation {

  import opened Wrappers
  import opened Tokens
  import opened Syntax
  import opened Builder
  import opened SchemaLib
  import opened SchemaEnum
  import opened SchemaStruct

  /** A payload: a bare type name, a bracketed list of them, or a braced record of `"name": type`. */
  datatype Payload = Bare(ty: string) | List(tys: seq<string>) | Record(entries: seq<(string, string)>)

  /** One variant fragment: its tag and, unless it is a unit variant, its payload. */
  datatype Fragment = Fragment(tag: string, payload: Option<Payload>)

  /** Reads `t , t , ... ]`, returning the type names and what follows the `]`. */
  function ReadListItems(ts: Tokens): (r: Option<(seq<string>, Tokens)>)
    ensures r.Some? ==> |r.value.1| < |ts|
    decreases |ts|
  {
    if ts == [] then None
    else if ts[0] == Punct("]") then Some(([], ts[1..]))
    else if |ts| >= 2 && ts[0].Ident? && ts[1] == Punct(",") then
      match ReadListItems(ts[2..])
      case None => None
      case Some(res) => Some(([ts[0].text] + res.0, res.1))
    else None
  }

  /** Reads `"n" : t , ... }`, returning the entries and what follows the `}`. */
  function ReadRecordItems(ts: Tokens): (r: Option<(seq<(string, string)>, Tokens)>)
    ensures r.Some? ==> |r.value.1| < |ts|
    decreases |ts|
  {
    if ts == [] then None
    else if ts[0] == Punct("}") then Some(([], ts[1..]))
    else if |ts| >= 4 && ts[0].Lit? && ts[1] == Punct(":") && ts[2].Ident? && ts[3] == Punct(",") then
      match ReadRecordItems(ts[4..])
      case None => None
      case Some(res) => Some(([(ts[0].text, ts[2].text)] + res.0, res.1))
    else None
  }

  /** Reads one payload off the front. */
  function ReadPayload(ts: Tokens): (r: Option<(Payload, Tokens)>)
    ensures r.Some? ==> |r.value.1| < |ts|
  {
    if ts == [] then None
    else if ts[0] == Punct("[") then
      match ReadListItems(ts[1..])
      case None => None
      case Some(res) => Some((List(res.0), res.1))
    else if ts[0] == Punct("{") then
      match ReadRecordItems(ts[1..])
      case None => None
      case Some(res) => Some((Record(res.0), res.1))
    else if ts[0].Ident? then Some((Bare(ts[0].text), ts[1..]))
    else None
  }

  /** Reads one `| { "tag": name, }` or `| { "tag": name, "fields": payload, }` fragment off the front. */
  function ReadFragment(ts: Tokens): (r: Option<(Fragment, Tokens)>)
    ensures r.Some? ==> |r.value.1| < |ts|
  {
    if |ts| < 7 then None
    else if !(ts[0] == Punct("|") && ts[1] == Punct("{") && ts[2] == Lit("tag") && ts[3] == Punct(":")
              && ts[4].Lit? && ts[5] == Punct(",")) then None
    else if ts[6] == Punct("}") then Some((Fragment(ts[4].text, None), ts[7..]))
    else if |ts| >= 8 && ts[6] == Lit("fields") && ts[7] == Punct(":") then
      match ReadPayload(ts[8..])
      case None => None
      case Some(res) =>
        if |res.1| >= 2 && res.1[0] == Punct(",") && res.1[1] == Punct("}")
        then Some((Fragment(ts[4].text, Some(res.0)), res.1[2..]))
        else None
    else None
  }

  /** Reads a whole enum annotation: fragments until the tokens run out. */
  function ReadFragments(ts: Tokens): Option<seq<Fragment>>
    decreases |ts|
  {
    if ts == [] then Some([])
    else match ReadFragment(ts)
      case None => None
      case Some(first) =>
        match ReadFragments(first.1)
        case None => None
        case Some(rest) => Some([first.0] + rest)
  }

  /** The annotation names of the fields' types, in order. */
  function TsNames(fields: seq<Field>): seq<string>
  {
    seq(|fields|, i requires 0 <= i < |fields| => TsName(fields[i].ty))
  }

  /** The `"name": type` entries of the fields, in order. */
  function TsEntries(fields: seq<Field>): seq<(string, string)>
  {
    seq(|fields|, i requires 0 <= i < |fields| => (fields[i].name, TsName(fields[i].ty)))
  }

  /** What a variant's fragment should say: its tag, and a payload shaped by its style. */
  function FragmentOf(variant: Variant): Fragment
    requires NewtypeHasField(variant.style, variant.fields)
  {
    var payload := match variant.style
      case Unit => None
      case Newtype => Some(Bare(TsName(variant.fields[0].ty)))
      case Tuple =>
        if |variant.fields| == 1 then Some(Bare(TsName(variant.fields[0].ty))) else Some(List(TsNames(variant.fields)))
      case Struct => Some(Record(TsEntries(variant.fields)));
    Fragment(variant.name, payload)
  }

  /** One more `t ,` in front of a list adds its name in front of what is read. */
  lemma ReadListStep(t: string, tail: Tokens, names: seq<string>, rest: Tokens)
    requires ReadListItems(tail) == Some((names, rest))
    ensures ReadListItems([Ident(t), Punct(",")] + tail) == Some(([t] + names, rest))
  {
    assert ([Ident(t), Punct(",")] + tail)[2..] == tail;
  }

  /** One more `"n" : t ,` in front of a record adds its entry in front of what is read. */
  lemma ReadRecordStep(n: string, t: string, tail: Tokens, entries: seq<(string, string)>, rest: Tokens)
    requires ReadRecordItems(tail) == Some((entries, rest))
    ensures ReadRecordItems([Lit(n), Punct(":"), Ident(t), Punct(",")] + tail) == Some(([(n, t)] + entries, rest))
  {
    assert ([Lit(n), Punct(":"), Ident(t), Punct(",")] + tail)[4..] == tail;
  }

  /** The element list of a bracketed payload reads back as the fields' type names. */
  lemma {:induction false} ReadElementList(fields: seq<Field>, rest: Tokens)
    ensures ReadListItems(CommaTerminated(ElementAnnotations(fields)) + [Punct("]")] + rest)
      == Some((TsNames(fields), rest))
  {
    if fields == [] {
      assert ElementAnnotations(fields) == [];
      assert TsNames(fields) == [];
      assert (CommaTerminated([]) + [Punct("]")] + rest)[1..] == rest;
    } else {
      ReadElementList(fields[1..], rest);
      var tail := CommaTerminated(ElementAnnotations(fields[1..])) + [Punct("]")] + rest;
      var t := TsName(fields[0].ty);
      ReadListStep(t, tail, TsNames(fields[1..]), rest);
      ElementListCons(fields);
      assert CommaTerminated(ElementAnnotations(fields)) + [Punct("]")] + rest == [Ident(t), Punct(",")] + tail;
    }
  }

  /** Unfolding the list by its first element: its name, then the rest's. */
  lemma ElementListCons(fields: seq<Field>)
    requires fields != []
    ensures var t := TsName(fields[0].ty);
      && CommaTerminated(ElementAnnotations(fields)) == [Ident(t), Punct(",")] + CommaTerminated(ElementAnnotations(fields[1..]))
      && TsNames(fields) == [t] + TsNames(fields[1..])
  {
    var parts := ElementAnnotations(fields);
    assert parts[1..] == ElementAnnotations(fields[1..]);
    assert parts[0] == [Ident(TsName(fields[0].ty))];
  }

  /** The entries of a braced record payload read back as the fields' names and type names. */
  lemma {:induction false} ReadFieldRecord(fields: seq<Field>, rest: Tokens)
    ensures ReadRecordItems(CommaTerminated(FieldAnnotations(fields)) + [Punct("}")] + rest)
      == Some((TsEntries(fields), rest))
  {
    if fields == [] {
      assert FieldAnnotations(fields) == [];
      assert TsEntries(fields) == [];
      assert (CommaTerminated([]) + [Punct("}")] + rest)[1..] == rest;
    } else {
      ReadFieldRecord(fields[1..], rest);
      var tail := CommaTerminated(FieldAnnotations(fields[1..])) + [Punct("}")] + rest;
      var n, t := fields[0].name, TsName(fields[0].ty);
      var head := [Lit(n), Punct(":"), Ident(t), Punct(",")];
      ReadRecordStep(n, t, tail, TsEntries(fields[1..]), rest);
      FieldRecordCons(fields);
      assert CommaTerminated(FieldAnnotations(fields)) + [Punct("}")] + rest == head + tail;
    }
  }

  /** Unfolding the record by its first field: its entry, then the rest's. */
  lemma FieldRecordCons(fields: seq<Field>)
    requires fields != []
    ensures var n, t := fields[0].name, TsName(fields[0].ty);
      && CommaTerminated(FieldAnnotations(fields))
         == [Lit(n), Punct(":"), Ident(t), Punct(",")] + CommaTerminated(FieldAnnotations(fields[1..]))
      && TsEntries(fields) == [(n, t)] + TsEntries(fields[1..])
  {
    var parts := FieldAnnotations(fields);
    FieldAnnotationsCons(fields);
    assert TypeToTs(fields[0].ty) == [Ident(TsName(fields[0].ty))];
    assert CommaTerminated(parts) == parts[0] + [Punct(",")] + CommaTerminated(parts[1..]);
    TsEntriesCons(fields);
  }

  /** The annotations of fields are the first field's, then the rest's. */
  lemma FieldAnnotationsCons(fields: seq<Field>)
    requires fields != []
    ensures FieldAnnotations(fields)[0] == FieldAnnotation(fields[0])
    ensures FieldAnnotations(fields)[1..] == FieldAnnotations(fields[1..])
  {
  }

  /** The entries of fields are the first field's, then the rest's. */
  lemma TsEntriesCons(fields: seq<Field>)
    requires fields != []
    ensures TsEntries(fields) == [(fields[0].name, TsName(fields[0].ty))] + TsEntries(fields[1..])
  {
  }

  /** A tuple payload reads back as one bare name when there is one field, else as the list of names. */
  lemma ReadTuplePayload(fields: seq<Field>, rest: Tokens)
    ensures ReadPayload(CollapseListBracket(ElementAnnotations(fields)) + rest)
      == Some((if |fields| == 1 then Bare(TsName(fields[0].ty)) else List(TsNames(fields)), rest))
  {
    var parts := ElementAnnotations(fields);
    if |fields| == 1 {
      assert parts[0] == [Ident(TsName(fields[0].ty))];
      assert (CollapseListBracket(parts) + rest)[1..] == rest;
    } else {
      ReadElementList(fields, rest);
      assert (CollapseListBracket(parts) + rest)[1..] == CommaTerminated(parts) + [Punct("]")] + rest;
    }
  }

  /** A struct payload reads back as the record of field names and type names. */
  lemma ReadStructPayload(fields: seq<Field>, rest: Tokens)
    ensures ReadPayload(CollapseListBrace(FieldAnnotations(fields)) + rest) == Some((Record(TsEntries(fields)), rest))
  {
    ReadFieldRecord(fields, rest);
    assert (CollapseListBrace(FieldAnnotations(fields)) + rest)[1..]
      == CommaTerminated(FieldAnnotations(fields)) + [Punct("}")] + rest;
  }

  /** A tagged fragment reads back as its tag and the payload read from the middle. */
  lemma ReadTagged(name: string, payload: Tokens, p: Payload, rest: Tokens)
    requires ReadPayload(payload + [Punct(","), Punct("}")] + rest) == Some((p, [Punct(","), Punct("}")] + rest))
    ensures ReadFragment(TaggedFragment(name, payload) + rest) == Some((Fragment(name, Some(p)), rest))
  {
    var ts := TaggedFragment(name, payload) + rest;
    assert ts[8..] == payload + [Punct(","), Punct("}")] + rest;
  }

  /** Each variant's fragment reads back as its tag and payload, whatever follows it. */
  lemma ReadVariantFragment(variant: Variant, rest: Tokens)
    requires NewtypeHasField(variant.style, variant.fields)
    ensures ReadFragment(VariantFragment(variant) + rest) == Some((FragmentOf(variant), rest))
  {
    var tail := [Punct(","), Punct("}")] + rest;
    match variant.style {
      case Unit =>
        assert (VariantFragment(variant) + rest)[7..] == rest;
      case Newtype =>
        var payload := TypeToTs(variant.fields[0].ty);
        assert payload == [Ident(TsName(variant.fields[0].ty))];
        assert payload + [Punct(","), Punct("}")] + rest == payload + tail;
        assert (payload + tail)[1..] == tail;
        ReadTagged(variant.name, payload, Bare(TsName(variant.fields[0].ty)), rest);
      case Tuple =>
        var payload := CollapseListBracket(ElementAnnotations(variant.fields));
        ReadTuplePayload(variant.fields, tail);
        assert payload + [Punct(","), Punct("}")] + rest == payload + tail;
        ReadTagged(variant.name, payload, FragmentOf(variant).payload.value, rest);
      case Struct =>
        var payload := CollapseListBrace(FieldAnnotations(variant.fields));
        ReadStructPayload(variant.fields, tail);
        assert payload + [Punct(","), Punct("}")] + rest == payload + tail;
        ReadTagged(variant.name, payload, FragmentOf(variant).payload.value, rest);
    }
  }

  /** The fragments every variant should produce, in declaration order. */
  function FragmentsOf(variants: seq<Variant>): seq<Fragment>
    requires WellFormedVariants(variants)
  {
    seq(|variants|, i requires 0 <= i < |variants| && variants[i] in variants => FragmentOf(variants[i]))
  }

  /** The enum annotation reads back as one fragment per variant, in declaration order. */
  lemma {:induction false} ReadEnumAnnotation(variants: seq<Variant>)
    requires WellFormedVariants(variants)
    ensures ReadFragments(EnumAnnotation(variants)) == Some(FragmentsOf(variants))
  {
    if variants != [] {
      assert variants[0] in variants;
      assert WellFormedVariants(variants[1..]) by {
        forall v | v in variants[1..] ensures NewtypeHasField(v.style, v.fields) {
          assert v in variants;
        }
      }
      var rest := EnumAnnotation(variants[1..]);
      ReadVariantFragment(variants[0], rest);
      ReadEnumAnnotation(variants[1..]);
      assert FragmentsOf(variants) == [FragmentOf(variants[0])] + FragmentsOf(variants[1..]);
    }
  }

  /**
   * A registered variant entry and an annotation fragment describe the same
   * variant: same name, a unit entry has no payload, a newtype one a bare
   * type, a struct entry a record with the same field names in the same
   * order, a tuple entry a list of as many types (or one bare type for one element).
   */
  predicate Mirrors(node: VariantNode<string>, fragment: Fragment)
  {
    && node.name == fragment.tag
    && match node
       case UnitVariantNode(_) => fragment.payload.None?
       case NewtypeVariantNode(_, _) => fragment.payload.Some? && fragment.payload.value.Bare?
       case TupleVariantNode(_, elements) =>
         if |elements| == 1 then fragment.payload.Some? && fragment.payload.value.Bare?
         else fragment.payload.Some? && fragment.payload.value.List? && |fragment.payload.value.tys| == |elements|
       case StructVariantNode(_, fields) =>
         && fragment.payload.Some? && fragment.payload.value.Record?
         && |fragment.payload.value.entries| == |fields|
         && forall k :: 0 <= k < |fields| ==> fragment.payload.value.entries[k].0 == fields[k].0
  }

  /**
   * The two outputs of `derive_enum` agree: the registered enum and the
   * annotation list the same variants in the same order, under the same
   * serialize names, with the same field names.
   */
  lemma EnumOutputsAgree(name: string, variants: seq<Variant>)
    requires WellFormedVariants(variants)
    ensures ReadChain(EnumChain(name, variants)).Some?
    ensures ReadFragments(EnumAnnotation(variants)).Some?
    ensures var nodes := ReadChain(EnumChain(name, variants)).value.variants;
      var fragments := ReadFragments(EnumAnnotation(variants)).value;
      |nodes| == |fragments| == |variants| && forall i :: 0 <= i < |nodes| ==> Mirrors(nodes[i], fragments[i])
  {
    EnumChainReads(name, variants);
    ReadEnumAnnotation(variants);
    var nodes, fragments := VariantNodes(variants), FragmentsOf(variants);
    forall i | 0 <= i < |nodes|
      ensures Mirrors(nodes[i], fragments[i])
    {
      assert variants[i] in variants;
    }
  }

  /** What a struct's annotation should say, by style (a unit struct is an empty record). */
  function StructPayloadOf(style: Style, fields: seq<Field>): Payload
    requires NewtypeHasField(style, fields)
  {
    match style
    case Unit => Record([])
    case Newtype => Bare(TsName(fields[0].ty))
    case Tuple => if |fields| == 1 then Bare(TsName(fields[0].ty)) else List(TsNames(fields))
    case Struct => Record(TsEntries(fields))
  }

  /** A struct annotation reads back as its payload, with nothing left over. */
  lemma ReadStructAnnotation(style: Style, fields: seq<Field>)
    requires NewtypeHasField(style, fields)
    ensures ReadPayload(StructAnnotation(style, fields)) == Some((StructPayloadOf(style, fields), []))
  {
    var ann := StructAnnotation(style, fields);
    assert ann + [] == ann;
    match style {
      case Unit =>
        assert ann == [Punct("{"), Punct("}")];
      case Newtype =>
        assert ann == [Ident(TsName(fields[0].ty))];
      case Tuple =>
        ReadTuplePayload(fields, []);
      case Struct =>
        ReadStructPayload(fields, []);
    }
  }

  /**
   * The two outputs for a named struct agree: the registered struct and the
   * annotation record list the same field names in the same order.
   */
  lemma StructOutputsAgree(name: string, fields: seq<Field>)
    ensures var code := StructCode(Struct, name, fields);
      && ReadChain(code[|code| - 1].chain).Some?
      && ReadPayload(StructAnnotation(Struct, fields)).Some?
      && var node := ReadChain(code[|code| - 1].chain).value;
         var entries := ReadPayload(StructAnnotation(Struct, fields)).value.0.entries;
         |node.fields| == |entries| == |fields|
         && forall k :: 0 <= k < |fields| ==> node.fields[k].0 == entries[k].0 == fields[k].name
  {
    StructCodeReads(Struct, name, fields);
    ReadStructAnnotation(Struct, fields);
  }
}
