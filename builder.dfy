/**
 * The schema-building code the `SchemaSerialize` derive emits, as data: a
 * prelude of `let type_id_v_f = <T as SchemaSerialize>::schema_register(schema)?;`
 * statements and one `register_type(schema, Type::build() ...)` whose builder
 * chain is a sequence of calls. `ReadChain` reads such a chain the way the
 * builder protocol in the tests lays it out (a header naming the arity, that
 * many members, then `.end()`), giving the registered type node.
 */
module Builder {

  import opened Wrappers
  import opened Syntax

  /** One builder call of the chain. Ids are the names of `type_id_*` variables. */
  datatype Call =
    | StructType(name: string, len: nat)
    | TupleStructType(name: string, len: nat)
    | NewtypeStructType(name: string, id: string)
    | UnitStructType(name: string)
    | EnumType(name: string, len: nat)
    | FieldCall(name: string, id: string)
    | ElementCall(id: string)
    | UnitVariant(name: string)
    | NewtypeVariant(name: string, id: string)
    | StructVariant(name: string, len: nat)
    | TupleVariant(name: string, len: nat)
    | End

  /** One statement of the generated `schema_register` body. */
  datatype Stmt =
    | LetTypeId(binding: string, ty: Ty)
    | RegisterType(chain: seq<Call>)

  /** A registered type (`Type<Id>`), over whatever ids stand for member types. */
  datatype Node<Id> =
    | UnitStructNode(name: string)
    | NewtypeStructNode(name: string, inner: Id)
    | TupleStructNode(name: string, elements: seq<Id>)
    | StructNode(name: string, fields: seq<(string, Id)>)
    | EnumNode(name: string, variants: seq<VariantNode<Id>>)

  datatype VariantNode<Id> =
    | UnitVariantNode(name: string)
    | NewtypeVariantNode(name: string, inner: Id)
    | TupleVariantNode(name: string, elements: seq<Id>)
    | StructVariantNode(name: string, fields: seq<(string, Id)>)

  /** Reads exactly n `.field` calls off the front. */
  function ReadFields(calls: seq<Call>, n: nat): Option<(seq<(string, string)>, seq<Call>)>
    decreases n
  {
    if n == 0 then Some(([], calls))
    else if calls != [] && calls[0].FieldCall? then
      match ReadFields(calls[1..], n - 1)
      case None => None
      case Some(res) => Some(([(calls[0].name, calls[0].id)] + res.0, res.1))
    else None
  }

  /** Reads exactly n `.element` calls off the front. */
  function ReadElements(calls: seq<Call>, n: nat): Option<(seq<string>, seq<Call>)>
    decreases n
  {
    if n == 0 then Some(([], calls))
    else if calls != [] && calls[0].ElementCall? then
      match ReadElements(calls[1..], n - 1)
      case None => None
      case Some(res) => Some(([calls[0].id] + res.0, res.1))
    else None
  }

  /** Reads one variant: a unit or newtype call alone, or a struct/tuple header, its members and `.end()`. */
  function ReadVariant(calls: seq<Call>): Option<(VariantNode<string>, seq<Call>)>
  {
    if calls == [] then None
    else match calls[0]
      case UnitVariant(n) => Some((UnitVariantNode(n), calls[1..]))
      case NewtypeVariant(n, id) => Some((NewtypeVariantNode(n, id), calls[1..]))
      case StructVariant(n, k) =>
        (match ReadFields(calls[1..], k)
         case Some(res) =>
           if res.1 != [] && res.1[0] == End then Some((StructVariantNode(n, res.0), res.1[1..])) else None
         case None => None)
      case TupleVariant(n, k) =>
        (match ReadElements(calls[1..], k)
         case Some(res) =>
           if res.1 != [] && res.1[0] == End then Some((TupleVariantNode(n, res.0), res.1[1..])) else None
         case None => None)
      case _ => None
  }

  /** Reads exactly n variants off the front. */
  function ReadVariants(calls: seq<Call>, n: nat): Option<(seq<VariantNode<string>>, seq<Call>)>
    decreases n
  {
    if n == 0 then Some(([], calls))
    else match ReadVariant(calls)
      case None => None
      case Some(first) =>
        match ReadVariants(first.1, n - 1)
        case None => None
        case Some(res) => Some(([first.0] + res.0, res.1))
  }

  /** The node a whole chain builds, or None when the chain breaks the protocol. */
  function ReadChain(chain: seq<Call>): Option<Node<string>>
  {
    if chain == [] then None
    else match chain[0]
      case UnitStructType(n) => if |chain| == 1 then Some(UnitStructNode(n)) else None
      case NewtypeStructType(n, id) => if |chain| == 1 then Some(NewtypeStructNode(n, id)) else None
      case StructType(n, k) =>
        (match ReadFields(chain[1..], k)
         case Some(res) => if res.1 == [End] then Some(StructNode(n, res.0)) else None
         case None => None)
      case TupleStructType(n, k) =>
        (match ReadElements(chain[1..], k)
         case Some(res) => if res.1 == [End] then Some(TupleStructNode(n, res.0)) else None
         case None => None)
      case EnumType(n, k) =>
        (match ReadVariants(chain[1..], k)
         case Some(res) => if res.1 == [End] then Some(EnumNode(n, res.0)) else None
         case None => None)
      case _ => None
  }

  /** The type-id variable a call refers to, if any. */
  function RefOf(c: Call): Option<string>
  {
    match c
    case NewtypeStructType(_, id) => Some(id)
    case FieldCall(_, id) => Some(id)
    case ElementCall(id) => Some(id)
    case NewtypeVariant(_, id) => Some(id)
    case _ => None
  }

  predicate References(chain: seq<Call>, x: string)
  {
    exists i :: 0 <= i < |chain| && RefOf(chain[i]) == Some(x)
  }

  predicate Defines(prelude: seq<Stmt>, x: string)
  {
    exists i :: 0 <= i < |prelude| && prelude[i].LetTypeId? && prelude[i].binding == x
  }

  /** Generated code: `let` statements only, then exactly one `register_type` as the last statement. */
  predicate WellShaped(code: seq<Stmt>)
  {
    && code != []
    && code[|code| - 1].RegisterType?
    && forall i :: 0 <= i < |code| - 1 ==> code[i].LetTypeId?
  }

  /** Every type-id variable the chain uses is bound by the prelude. */
  ghost predicate Closed(code: seq<Stmt>)
    requires WellShaped(code)
  {
    var chain, prelude := code[|code| - 1].chain, code[..|code| - 1];
    forall x :: References(chain, x) ==> Defines(prelude, x)
  }

  /** References distribute over concatenation. */
  lemma ReferencesAppend(a: seq<Call>, b: seq<Call>, x: string)
    ensures References(a + b, x) <==> References(a, x) || References(b, x)
  {
    if References(a + b, x) {
      var i :| 0 <= i < |a + b| && RefOf((a + b)[i]) == Some(x);
      if i >= |a| {
        assert RefOf(b[i - |a|]) == Some(x);
      }
    }
    if References(a, x) {
      var i :| 0 <= i < |a| && RefOf(a[i]) == Some(x);
      assert RefOf((a + b)[i]) == Some(x);
    }
    if References(b, x) {
      var i :| 0 <= i < |b| && RefOf(b[i]) == Some(x);
      assert RefOf((a + b)[|a| + i]) == Some(x);
    }
  }

  /** Bindings distribute over concatenation. */
  lemma DefinesAppend(a: seq<Stmt>, b: seq<Stmt>, x: string)
    ensures Defines(a + b, x) <==> Defines(a, x) || Defines(b, x)
  {
    if Defines(a + b, x) {
      var i :| 0 <= i < |a + b| && (a + b)[i].LetTypeId? && (a + b)[i].binding == x;
      if i >= |a| {
        assert b[i - |a|] == (a + b)[i];
      }
    }
    if Defines(a, x) {
      var i :| 0 <= i < |a| && a[i].LetTypeId? && a[i].binding == x;
      assert (a + b)[i] == a[i];
    }
    if Defines(b, x) {
      var i :| 0 <= i < |b| && b[i].LetTypeId? && b[i].binding == x;
      assert (a + b)[|a| + i] == b[i];
    }
  }

  /** A run of n `.field` calls reads back as their (name, id) pairs in order, leaving the rest. */
  lemma {:induction false} ReadFieldsAll(calls: seq<Call>, n: nat)
    requires n <= |calls|
    requires forall i :: 0 <= i < n ==> calls[i].FieldCall?
    ensures ReadFields(calls, n).Some?
    ensures |ReadFields(calls, n).value.0| == n && ReadFields(calls, n).value.1 == calls[n..]
    ensures forall i :: 0 <= i < n ==> ReadFields(calls, n).value.0[i] == (calls[i].name, calls[i].id)
  {
    if n > 0 {
      ReadFieldsAll(calls[1..], n - 1);
      assert calls[1..][n - 1..] == calls[n..];
    }
  }

  /** A run of n `.element` calls reads back as their ids in order, leaving the rest. */
  lemma {:induction false} ReadElementsAll(calls: seq<Call>, n: nat)
    requires n <= |calls|
    requires forall i :: 0 <= i < n ==> calls[i].ElementCall?
    ensures ReadElements(calls, n).Some?
    ensures |ReadElements(calls, n).value.0| == n && ReadElements(calls, n).value.1 == calls[n..]
    ensures forall i :: 0 <= i < n ==> ReadElements(calls, n).value.0[i] == calls[i].id
  {
    if n > 0 {
      ReadElementsAll(calls[1..], n - 1);
      assert calls[1..][n - 1..] == calls[n..];
    }
  }
}
