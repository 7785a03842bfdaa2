/**
 * The registry of serde_schema_derive/tests/typescript.rs: `MockSchema`, a
 * vector of registered types that hands out positional ids, and the
 * `MockTypeId` table for the primitive type-id constants. The generated
 * `schema_register` body is run against it: the `let` statements bind the
 * type ids of the field types, then one `register_type` pushes the node the
 * builder chain describes.
 */
module Mock {

  import opened Wrappers
  import opened Syntax
  import opened Builder
  import opened SchemaLib
  import opened SchemaEnum
  import opened SchemaStruct

  datatype MockTypeId = Boolean | String | Uint64 | Int64 | Unknown | Custom(index: nat)

  /** The primitive type-id constants of the `TypeId` trait. */
  datatype Primitive = UnitType | Bool | I8 | I16 | I32 | I64 | U8 | U16 | U32 | U64 | F32 | F64 | Char | Str | Bytes

  /** `impl TypeId for MockTypeId`: four constants have their own id, the rest are `Unknown`. */
  function TypeIdOf(p: Primitive): (id: MockTypeId)
    ensures !id.Custom?
  {
    match p
    case Bool => Boolean
    case I64 => Int64
    case U64 => Uint64
    case Str => String
    case _ => Unknown
  }

  /** The table read both ways: each named id comes from exactly one constant. */
  lemma TypeIdTable(p: Primitive)
    ensures TypeIdOf(p) == Boolean <==> p == Bool
    ensures TypeIdOf(p) == Int64 <==> p == I64
    ensures TypeIdOf(p) == Uint64 <==> p == U64
    ensures TypeIdOf(p) == String <==> p == Str
    ensures TypeIdOf(p) == Unknown <==> p !in {Bool, I64, U64, Str}
  {
  }

  /** `MockSchema`: the registered types, in registration order. */
  class MockSchema {
    var types: seq<Node<MockTypeId>>

    constructor()
      ensures types == []
    {
      types := [];
    }

    /** `register_type`: push the node and return the id of its position. */
    method RegisterType(ty: Node<MockTypeId>) returns (id: MockTypeId)
      modifies this
      ensures types == old(types) + [ty]
      ensures id == Custom(|types| - 1) && types[id.index] == ty
    {
      types := types + [ty];
      id := Custom(|types| - 1);
    }
  }

  /**
   * Successive `register_type` calls: each grows the registry by its node,
   * earlier entries stay, and the k-th call returns the id of position k.
   */
  method RegisterInTurn(schema: MockSchema, nodes: seq<Node<MockTypeId>>) returns (ids: seq<MockTypeId>)
    modifies schema
    ensures schema.types == old(schema.types) + nodes
    ensures |ids| == |nodes|
    ensures forall k :: 0 <= k < |nodes| ==> ids[k] == Custom(|old(schema.types)| + k) && schema.types[ids[k].index] == nodes[k]
  {
    ids := [];
    var i := 0;
    while i < |nodes|
      invariant 0 <= i <= |nodes|
      invariant schema.types == old(schema.types) + nodes[..i]
      invariant |ids| == i
      invariant forall k :: 0 <= k < i ==> ids[k] == Custom(|old(schema.types)| + k)
    {
      var id := schema.RegisterType(nodes[i]);
      assert nodes[..i + 1] == nodes[..i] + [nodes[i]];
      ids := ids + [id];
      i := i + 1;
    }
    assert nodes[..i] == nodes;
  }

  /** The environment after running `let` statements from env: each binds its variable to its type's id. */
  function BindFrom(env: map<string, MockTypeId>, stmts: seq<Stmt>, fieldIds: Ty -> MockTypeId): map<string, MockTypeId>
    decreases |stmts|
  {
    if stmts == [] then env
    else
      var next := if stmts[0].LetTypeId? then env[stmts[0].binding := fieldIds(stmts[0].ty)] else env;
      BindFrom(next, stmts[1..], fieldIds)
  }

  /** Running a + b is running b after a. */
  lemma {:induction false} BindFromAppend(env: map<string, MockTypeId>, a: seq<Stmt>, b: seq<Stmt>, fieldIds: Ty -> MockTypeId)
    ensures BindFrom(env, a + b, fieldIds) == BindFrom(BindFrom(env, a, fieldIds), b, fieldIds)
    decreases |a|
  {
    if a != [] {
      var next := if a[0].LetTypeId? then env[a[0].binding := fieldIds(a[0].ty)] else env;
      assert (a + b)[1..] == a[1..] + b;
      BindFromAppend(next, a[1..], b, fieldIds);
    } else {
      assert a + b == b;
    }
  }

  /** A variable no statement binds keeps its value. */
  lemma {:induction false} BindFromKeeps(env: map<string, MockTypeId>, stmts: seq<Stmt>, fieldIds: Ty -> MockTypeId, x: string)
    requires x in env
    requires forall j :: 0 <= j < |stmts| && stmts[j].LetTypeId? ==> stmts[j].binding != x
    ensures x in BindFrom(env, stmts, fieldIds) && BindFrom(env, stmts, fieldIds)[x] == env[x]
    decreases |stmts|
  {
    if stmts != [] {
      var next := if stmts[0].LetTypeId? then env[stmts[0].binding := fieldIds(stmts[0].ty)] else env;
      forall j | 0 <= j < |stmts[1..]| && stmts[1..][j].LetTypeId?
        ensures stmts[1..][j].binding != x
      {
        assert stmts[1..][j] == stmts[j + 1];
      }
      BindFromKeeps(next, stmts[1..], fieldIds, x);
    }
  }

  /** The last statement binding a variable decides its value. */
  lemma {:induction false} LastBindingWins(env: map<string, MockTypeId>, stmts: seq<Stmt>, fieldIds: Ty -> MockTypeId, i: nat)
    requires i < |stmts| && stmts[i].LetTypeId?
    requires forall j :: i < j < |stmts| && stmts[j].LetTypeId? ==> stmts[j].binding != stmts[i].binding
    ensures stmts[i].binding in BindFrom(env, stmts, fieldIds)
    ensures BindFrom(env, stmts, fieldIds)[stmts[i].binding] == fieldIds(stmts[i].ty)
    decreases |stmts|
  {
    var next := if stmts[0].LetTypeId? then env[stmts[0].binding := fieldIds(stmts[0].ty)] else env;
    if i == 0 {
      forall j | 0 <= j < |stmts[1..]| && stmts[1..][j].LetTypeId?
        ensures stmts[1..][j].binding != stmts[0].binding
      {
        assert stmts[1..][j] == stmts[j + 1];
      }
      BindFromKeeps(next, stmts[1..], fieldIds, stmts[0].binding);
    } else {
      forall j | i - 1 < j < |stmts[1..]| && stmts[1..][j].LetTypeId?
        ensures stmts[1..][j].binding != stmts[1..][i - 1].binding
      {
        assert stmts[1..][j] == stmts[j + 1];
      }
      LastBindingWins(next, stmts[1..], fieldIds, i - 1);
    }
  }

  /** Looks every id up, or None when one is unbound. */
  function ResolveIds(ids: seq<string>, env: map<string, MockTypeId>): Option<seq<MockTypeId>>
  {
    if ids == [] then Some([])
    else if ids[0] !in env then None
    else
      match ResolveIds(ids[1..], env)
      case None => None
      case Some(rest) => Some([env[ids[0]]] + rest)
  }

  /** Looks the id of every (name, id) pair up, keeping the names. */
  function ResolvePairs(pairs: seq<(string, string)>, env: map<string, MockTypeId>): Option<seq<(string, MockTypeId)>>
  {
    if pairs == [] then Some([])
    else if pairs[0].1 !in env then None
    else
      match ResolvePairs(pairs[1..], env)
      case None => None
      case Some(rest) => Some([(pairs[0].0, env[pairs[0].1])] + rest)
  }

  function ResolveVariant(v: VariantNode<string>, env: map<string, MockTypeId>): Option<VariantNode<MockTypeId>>
  {
    match v
    case UnitVariantNode(n) => Some(UnitVariantNode(n))
    case NewtypeVariantNode(n, id) => if id in env then Some(NewtypeVariantNode(n, env[id])) else None
    case TupleVariantNode(n, ids) =>
      (match ResolveIds(ids, env)
       case None => None
       case Some(r) => Some(TupleVariantNode(n, r)))
    case StructVariantNode(n, pairs) =>
      (match ResolvePairs(pairs, env)
       case None => None
       case Some(r) => Some(StructVariantNode(n, r)))
  }

  function ResolveVariants(vs: seq<VariantNode<string>>, env: map<string, MockTypeId>): Option<seq<VariantNode<MockTypeId>>>
  {
    if vs == [] then Some([])
    else
      match ResolveVariant(vs[0], env)
      case None => None
      case Some(first) =>
        match ResolveVariants(vs[1..], env)
        case None => None
        case Some(rest) => Some([first] + rest)
  }

  /** The node with every type-id variable replaced by the id it is bound to. */
  function Resolve(node: Node<string>, env: map<string, MockTypeId>): Option<Node<MockTypeId>>
  {
    match node
    case UnitStructNode(n) => Some(UnitStructNode(n))
    case NewtypeStructNode(n, id) => if id in env then Some(NewtypeStructNode(n, env[id])) else None
    case TupleStructNode(n, ids) =>
      (match ResolveIds(ids, env)
       case None => None
       case Some(r) => Some(TupleStructNode(n, r)))
    case StructNode(n, pairs) =>
      (match ResolvePairs(pairs, env)
       case None => None
       case Some(r) => Some(StructNode(n, r)))
    case EnumNode(n, vs) =>
      (match ResolveVariants(vs, env)
       case None => None
       case Some(r) => Some(EnumNode(n, r)))
  }

  /** What running a generated body registers, given the ids its field types register as. */
  function Execute(code: seq<Stmt>, fieldIds: Ty -> MockTypeId): Option<Node<MockTypeId>>
  {
    if !WellShaped(code) then None
    else
      match ReadChain(code[|code| - 1].chain)
      case None => None
      case Some(node) => Resolve(node, BindFrom(map[], code[..|code| - 1], fieldIds))
  }

  /**
   * Runs a generated `schema_register` body against the registry: the `let`
   * statements one by one, then the one `register_type`. The field types'
   * own registrations are given by fieldIds and leave the registry alone.
   */
  method SchemaRegister(schema: MockSchema, code: seq<Stmt>, fieldIds: Ty -> MockTypeId) returns (r: Option<MockTypeId>)
    modifies schema
    ensures Execute(code, fieldIds).Some? ==>
      schema.types == old(schema.types) + [Execute(code, fieldIds).value] && r == Some(Custom(|old(schema.types)|))
    ensures Execute(code, fieldIds).None? ==> schema.types == old(schema.types) && r.None?
  {
    if !WellShaped(code) {
      return None;
    }
    var env: map<string, MockTypeId> := map[];
    var i := 0;
    while i < |code| - 1
      invariant 0 <= i <= |code| - 1
      invariant env == BindFrom(map[], code[..i], fieldIds)
      invariant schema.types == old(schema.types)
    {
      BindFromAppend(map[], code[..i], [code[i]], fieldIds);
      assert code[..i + 1] == code[..i] + [code[i]];
      env := env[code[i].binding := fieldIds(code[i].ty)];
      i := i + 1;
    }
    assert env == BindFrom(map[], code[..|code| - 1], fieldIds);
    match ReadChain(code[|code| - 1].chain) {
      case None =>
        r := None;
      case Some(node) =>
        match Resolve(node, env) {
          case None =>
            r := None;
          case Some(resolved) =>
            assert Execute(code, fieldIds) == Some(resolved);
            var id := schema.RegisterType(resolved);
            r := Some(id);
        }
    }
  }

  /** The ids of the fields' types, in order. */
  function FieldTypeIds(fields: seq<Field>, fieldIds: Ty -> MockTypeId): seq<MockTypeId>
  {
    seq(|fields|, i requires 0 <= i < |fields| => fieldIds(fields[i].ty))
  }

  /** The fields' serialize names with their types' ids, in order. */
  function FieldTypePairs(fields: seq<Field>, fieldIds: Ty -> MockTypeId): seq<(string, MockTypeId)>
  {
    seq(|fields|, i requires 0 <= i < |fields| => (fields[i].name, fieldIds(fields[i].ty)))
  }

  /** The node a struct should register: its serialize name, and its members' names and type ids in order. */
  function TypedStruct(style: Style, name: string, fields: seq<Field>, fieldIds: Ty -> MockTypeId): Node<MockTypeId>
    requires NewtypeHasField(style, fields)
  {
    match style
    case Unit => UnitStructNode(name)
    case Newtype => NewtypeStructNode(name, fieldIds(fields[0].ty))
    case Tuple => TupleStructNode(name, FieldTypeIds(fields, fieldIds))
    case Struct => StructNode(name, FieldTypePairs(fields, fieldIds))
  }

  /** The entry a variant should register: its serialize name, and its members' names and type ids in order. */
  function TypedVariant(variant: Variant, fieldIds: Ty -> MockTypeId): VariantNode<MockTypeId>
    requires NewtypeHasField(variant.style, variant.fields)
  {
    match variant.style
    case Unit => UnitVariantNode(variant.name)
    case Newtype => NewtypeVariantNode(variant.name, fieldIds(variant.fields[0].ty))
    case Tuple => TupleVariantNode(variant.name, FieldTypeIds(variant.fields, fieldIds))
    case Struct => StructVariantNode(variant.name, FieldTypePairs(variant.fields, fieldIds))
  }

  /** The entries an enum should register, one per variant in order. */
  function TypedVariants(variants: seq<Variant>, fieldIds: Ty -> MockTypeId): seq<VariantNode<MockTypeId>>
    requires WellFormedVariants(variants)
  {
    seq(|variants|, i requires 0 <= i < |variants| && variants[i] in variants => TypedVariant(variants[i], fieldIds))
  }

  /** Ids all bound resolve to their values, in order. */
  lemma {:induction false} ResolveIdsAll(ids: seq<string>, env: map<string, MockTypeId>, vals: seq<MockTypeId>)
    requires |ids| == |vals|
    requires forall i :: 0 <= i < |ids| ==> ids[i] in env && env[ids[i]] == vals[i]
    ensures ResolveIds(ids, env) == Some(vals)
  {
    if ids != [] {
      ResolveIdsAll(ids[1..], env, vals[1..]);
      assert vals == [vals[0]] + vals[1..];
    }
  }

  /** Pairs whose ids are all bound resolve to their names and values, in order. */
  lemma {:induction false} ResolvePairsAll(pairs: seq<(string, string)>, env: map<string, MockTypeId>, vals: seq<(string, MockTypeId)>)
    requires |pairs| == |vals|
    requires forall i :: 0 <= i < |pairs| ==> pairs[i].1 in env && (pairs[i].0, env[pairs[i].1]) == vals[i]
    ensures ResolvePairs(pairs, env) == Some(vals)
  {
    if pairs != [] {
      ResolvePairsAll(pairs[1..], env, vals[1..]);
      assert vals == [vals[0]] + vals[1..];
    }
  }

  /** Entries that all resolve give the resolved entries, in order. */
  lemma {:induction false} ResolveVariantsAll(vs: seq<VariantNode<string>>, env: map<string, MockTypeId>, ws: seq<VariantNode<MockTypeId>>)
    requires |vs| == |ws|
    requires forall i :: 0 <= i < |vs| ==> ResolveVariant(vs[i], env) == Some(ws[i])
    ensures ResolveVariants(vs, env) == Some(ws)
  {
    if vs != [] {
      ResolveVariantsAll(vs[1..], env, ws[1..]);
      assert ws == [ws[0]] + ws[1..];
    }
  }

  /**
   * Variant v's entry resolves to its typed entry in any environment that
   * binds type_id_v_f to the id of field f's type for each of its fields.
   */
  lemma ResolveVariantOf(v: nat, variant: Variant, env: map<string, MockTypeId>, fieldIds: Ty -> MockTypeId)
    requires NewtypeHasField(variant.style, variant.fields)
    requires forall f :: 0 <= f < |variant.fields| ==>
      TypeIdVar(v, f) in env && env[TypeIdVar(v, f)] == fieldIds(variant.fields[f].ty)
    ensures ResolveVariant(VariantNodeOf(v, variant), env) == Some(TypedVariant(variant, fieldIds))
  {
    var fields := variant.fields;
    match variant.style {
      case Tuple => ResolveIdsAll(ElementIds(v, fields), env, FieldTypeIds(fields, fieldIds));
      case Struct => ResolvePairsAll(FieldPairs(v, fields), env, FieldTypePairs(fields, fieldIds));
      case Newtype =>
      case Unit =>
    }
  }

  /**
   * Running the code `derive_struct` emits registers the declared struct:
   * its serialize name, and each member's name with its type's id, in order.
   */
  lemma StructExecutes(style: Style, name: string, fields: seq<Field>, fieldIds: Ty -> MockTypeId)
    requires NewtypeHasField(style, fields)
    ensures Execute(StructCode(style, name, fields), fieldIds) == Some(TypedStruct(style, name, fields, fieldIds))
  {
    var code := StructCode(style, name, fields);
    StructCodeReads(style, name, fields);
    var env := BindFrom(map[], code[..|code| - 1], fieldIds);
    assert Execute(code, fieldIds) == Resolve(StructNodeOf(style, name, fields), env);
    if style != Unit {
      assert code[..|code| - 1] == Registrations(0, fields);
      RegistrationsEnv(fields, fieldIds);
    }
    ResolveStructNode(style, name, fields, env, fieldIds);
  }

  /** After a struct's prelude, type_id_0_f holds the id of field f's type, for every field f. */
  lemma RegistrationsEnv(fields: seq<Field>, fieldIds: Ty -> MockTypeId)
    ensures var env := BindFrom(map[], Registrations(0, fields), fieldIds);
      forall f :: 0 <= f < |fields| ==> TypeIdVar(0, f) in env && env[TypeIdVar(0, f)] == fieldIds(fields[f].ty)
  {
    var prelude := Registrations(0, fields);
    RegistrationsDistinct(0, fields);
    forall f | 0 <= f < |fields|
      ensures TypeIdVar(0, f) in BindFrom(map[], prelude, fieldIds)
      ensures BindFrom(map[], prelude, fieldIds)[TypeIdVar(0, f)] == fieldIds(fields[f].ty)
    {
      LastBindingWins(map[], prelude, fieldIds, f);
    }
  }

  /** A struct's node resolves to its typed node where type_id_0_f holds the id of field f's type. */
  lemma ResolveStructNode(style: Style, name: string, fields: seq<Field>, env: map<string, MockTypeId>, fieldIds: Ty -> MockTypeId)
    requires NewtypeHasField(style, fields)
    requires style != Unit ==>
      forall f :: 0 <= f < |fields| ==> TypeIdVar(0, f) in env && env[TypeIdVar(0, f)] == fieldIds(fields[f].ty)
    ensures Resolve(StructNodeOf(style, name, fields), env) == Some(TypedStruct(style, name, fields, fieldIds))
  {
    match style {
      case Tuple => ResolveIdsAll(ElementIds(0, fields), env, FieldTypeIds(fields, fieldIds));
      case Struct => ResolvePairsAll(FieldPairs(0, fields), env, FieldTypePairs(fields, fieldIds));
      case Newtype =>
      case Unit =>
    }
  }

  /** The prelude of the first k variants holds the registration of field f of each such variant v. */
  lemma {:induction false} EnumPreludeHas(variants: seq<Variant>, k: nat, v: nat, f: nat)
    requires k <= |variants| && v < k && f < |variants[v].fields|
    ensures exists i :: (0 <= i < |EnumPrelude(variants, k)|
      && EnumPrelude(variants, k)[i] == LetTypeId(TypeIdVar(v, f), variants[v].fields[f].ty))
  {
    var a := EnumPrelude(variants, k - 1);
    var r := Registrations(k - 1, variants[k - 1].fields);
    assert EnumPrelude(variants, k) == a + r;
    if v == k - 1 {
      assert (a + r)[|a| + f] == r[f];
    } else {
      EnumPreludeHas(variants, k - 1, v, f);
      var i :| 0 <= i < |a| && a[i] == LetTypeId(TypeIdVar(v, f), variants[v].fields[f].ty);
      assert (a + r)[i] == a[i];
    }
  }

  /**
   * Running the code `derive_enum` emits registers the declared enum: its
   * serialize name and one entry per variant, in order, each with its name
   * and its members' names and type ids.
   */
  lemma EnumExecutes(name: string, variants: seq<Variant>, fieldIds: Ty -> MockTypeId)
    requires WellFormedVariants(variants)
    ensures Execute(EnumCode(name, variants), fieldIds) == Some(EnumNode(name, TypedVariants(variants, fieldIds)))
  {
    var code := EnumCode(name, variants);
    var prelude := EnumPrelude(variants, |variants|);
    assert code[..|code| - 1] == prelude;
    EnumClosed(name, variants);
    EnumChainReads(name, variants);
    EnumPreludeDistinct(variants, |variants|);
    var env := BindFrom(map[], prelude, fieldIds);
    var typed := TypedVariants(variants, fieldIds);
    forall v | 0 <= v < |variants|
      ensures ResolveVariant(VariantNodes(variants)[v], env) == Some(typed[v])
    {
      assert variants[v] in variants;
      forall f | 0 <= f < |variants[v].fields|
        ensures TypeIdVar(v, f) in env && env[TypeIdVar(v, f)] == fieldIds(variants[v].fields[f].ty)
      {
        EnumPreludeHas(variants, |variants|, v, f);
        var i :| 0 <= i < |prelude| && prelude[i] == LetTypeId(TypeIdVar(v, f), variants[v].fields[f].ty);
        LastBindingWins(map[], prelude, fieldIds, i);
      }
      ResolveVariantOf(v, variants[v], env, fieldIds);
    }
    ResolveVariantsAll(VariantNodes(variants), env, typed);
  }
}
