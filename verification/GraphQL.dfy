/**
 GraphQL documents and what it means to execute them (GraphQL Specification, October 2021,
 sections 2.7, 2.8, 2.10, 5.8.3, 6.1 and 6.3).

 Execution is given in two stages. Elaboration replaces variables by their values and spreads by
 the fragments they name; it depends on the text of the document only. Executing an elaborated
 selection set against a resolver collects fields by response key and merges their selections.
 */
module GraphQL {
  import opened Options

  /** A response or argument value. `Absent` is the value of a variable that was not supplied. */
  datatype Json = Null | Absent | Scalar(text: string) | List(items: seq<Json>) | Object(fields: map<string, Json>)

  datatype Value =
    | Literal(json: Json)
    | Variable(name: string)
    | ListValue(items: seq<Value>)
    | ObjectValue(members: seq<Member>)

  datatype Member = Member(name: string, value: Value)

  datatype Selection =
    | Field(alias: Option<string>, name: string, args: seq<Member>, sels: seq<Selection>)
    | Spread(fragment: string)
    | Inline(on: string, sels: seq<Selection>)

  datatype Fragment = Fragment(on: string, sels: seq<Selection>)

  datatype VarDef = VarDef(name: string, typ: string)

  datatype Operation = Operation(name: string, varDefs: seq<VarDef>, sels: seq<Selection>)

  datatype Document = Document(op: Operation, frags: map<string, Fragment>)

  // ---------------------------------------------------------------------------------------
  // Elaboration
  // ---------------------------------------------------------------------------------------

  /** A value with its variables replaced. */
  datatype Ground = GLeaf(json: Json) | GList(items: seq<Ground>) | GObject(members: seq<GMember>)

  datatype GMember = GMember(name: string, value: Ground)

  datatype Query =
    | QField(key: string, name: string, args: seq<GMember>, sels: seq<Query>)
    | QInline(on: string, sels: seq<Query>)

  function Lookup(vars: map<string, Json>, name: string): Json {
    if name in vars then vars[name] else Absent
  }

  function Eval(v: Value, vars: map<string, Json>): Ground {
    match v
    case Literal(json) => GLeaf(json)
    case Variable(name) => GLeaf(Lookup(vars, name))
    case ListValue(items) => GList(seq(|items|, i requires 0 <= i < |items| => Eval(items[i], vars)))
    case ObjectValue(members) => GObject(EvalMembers(members, vars))
  }

  function EvalMembers(members: seq<Member>, vars: map<string, Json>): (r: seq<GMember>)
    ensures |r| == |members|
  {
    seq(|members|, i requires 0 <= i < |members| => GMember(members[i].name, Eval(members[i].value, vars)))
  }

  function ResponseKey(alias: Option<string>, name: string): string {
    match alias case None => name case Some(a) => a
  }

  /**
   The elaboration of a selection set. Spreads are followed only to fragments ranked below
   `bound`, which in a document without fragment cycles is no restriction (`SpreadsKnown`).
   */
  function Elab(sels: seq<Selection>, vars: map<string, Json>, frags: map<string, Fragment>,
                rank: string -> nat, bound: nat): (r: seq<Query>)
    ensures |r| == |sels|
    decreases bound, sels
  {
    seq(|sels|, i requires 0 <= i < |sels| => ElabOne(sels[i], vars, frags, rank, bound))
  }

  function ElabOne(sel: Selection, vars: map<string, Json>, frags: map<string, Fragment>,
                   rank: string -> nat, bound: nat): Query
    decreases bound, sel
  {
    match sel
    case Field(alias, name, args, sels) =>
      QField(ResponseKey(alias, name), name, EvalMembers(args, vars), Elab(sels, vars, frags, rank, bound))
    case Inline(on, sels) =>
      QInline(on, Elab(sels, vars, frags, rank, bound))
    case Spread(f) =>
      if f in frags && rank(f) < bound then QInline(frags[f].on, Elab(frags[f].sels, vars, frags, rank, rank(f)))
      else QInline(f, [])
  }

  /** Every spread names a fragment of the document, of lower rank than where it stands. */
  predicate SpreadsKnown(sels: seq<Selection>, frags: map<string, Fragment>, rank: string -> nat, bound: nat)
    decreases sels
  {
    forall i :: 0 <= i < |sels| ==> SpreadKnown(sels[i], frags, rank, bound)
  }

  predicate SpreadKnown(sel: Selection, frags: map<string, Fragment>, rank: string -> nat, bound: nat)
    decreases sel
  {
    match sel
    case Field(_, _, _, sels) => SpreadsKnown(sels, frags, rank, bound)
    case Inline(_, sels) => SpreadsKnown(sels, frags, rank, bound)
    case Spread(f) => f in frags && rank(f) < bound
  }

  /** Fragments only use known fragments of lower rank, so there are no cycles among them. */
  predicate Acyclic(frags: map<string, Fragment>, rank: string -> nat) {
    forall f :: f in frags ==> SpreadsKnown(frags[f].sels, frags, rank, rank(f))
  }

  // ---------------------------------------------------------------------------------------
  // Use of variables
  // ---------------------------------------------------------------------------------------

  function Names(varDefs: seq<VarDef>): set<string> {
    set d | d in varDefs :: d.name
  }

  /** Every variable of a value is among `names`. */
  ghost predicate ValueUses(v: Value, names: set<string>) {
    match v
    case Literal(_) => true
    case Variable(name) => name in names
    case ListValue(items) => forall i :: 0 <= i < |items| ==> ValueUses(items[i], names)
    case ObjectValue(members) => MembersUse(members, names)
  }

  ghost predicate MembersUse(members: seq<Member>, names: set<string>) {
    forall i :: 0 <= i < |members| ==> ValueUses(members[i].value, names)
  }

  /** Every variable of a selection set and of the fragments it reaches is among `names`. */
  ghost predicate Uses(sels: seq<Selection>, names: set<string>, frags: map<string, Fragment>, rank: string -> nat,
                       bound: nat)
    decreases bound, sels
  {
    forall i :: 0 <= i < |sels| ==> UsesOne(sels[i], names, frags, rank, bound)
  }

  ghost predicate UsesOne(sel: Selection, names: set<string>, frags: map<string, Fragment>, rank: string -> nat,
                          bound: nat)
    decreases bound, sel
  {
    match sel
    case Field(_, _, args, sels) => MembersUse(args, names) && Uses(sels, names, frags, rank, bound)
    case Inline(_, sels) => Uses(sels, names, frags, rank, bound)
    case Spread(f) => f in frags && rank(f) < bound ==> Uses(frags[f].sels, names, frags, rank, rank(f))
  }

  /** All variables used by the operation and the fragments it reaches are defined by it (section 5.8.3). */
  ghost predicate VariablesDefined(doc: Document, rank: string -> nat, bound: nat) {
    Uses(doc.op.sels, Names(doc.op.varDefs), doc.frags, rank, bound)
  }

  // ---------------------------------------------------------------------------------------
  // Renaming variables
  // ---------------------------------------------------------------------------------------

  function Renamed(renaming: map<string, string>, name: string): string {
    if name in renaming then renaming[name] else name
  }

  function RenameValue(v: Value, renaming: map<string, string>): Value {
    match v
    case Literal(_) => v
    case Variable(name) => Variable(Renamed(renaming, name))
    case ListValue(items) => ListValue(seq(|items|, i requires 0 <= i < |items| => RenameValue(items[i], renaming)))
    case ObjectValue(members) => ObjectValue(RenameMembers(members, renaming))
  }

  function RenameMembers(members: seq<Member>, renaming: map<string, string>): (r: seq<Member>)
    ensures |r| == |members|
  {
    seq(|members|, i requires 0 <= i < |members| => Member(members[i].name, RenameValue(members[i].value, renaming)))
  }

  /** Variables are renamed throughout a selection set, but not inside the fragments it spreads. */
  function Rename(sels: seq<Selection>, renaming: map<string, string>): (r: seq<Selection>)
    ensures |r| == |sels|
    decreases sels
  {
    seq(|sels|, i requires 0 <= i < |sels| => RenameOne(sels[i], renaming))
  }

  function RenameOne(sel: Selection, renaming: map<string, string>): Selection
    decreases sel
  {
    match sel
    case Field(alias, name, args, sels) => Field(alias, name, RenameMembers(args, renaming), Rename(sels, renaming))
    case Inline(on, sels) => Inline(on, Rename(sels, renaming))
    case Spread(_) => sel
  }

  /** The renamed variables of a value have, in `vars'`, the values the variables have in `vars`. */
  predicate ValueAgrees(v: Value, renaming: map<string, string>, vars: map<string, Json>, vars': map<string, Json>) {
    match v
    case Literal(_) => true
    case Variable(name) => Lookup(vars', Renamed(renaming, name)) == Lookup(vars, name)
    case ListValue(items) => forall i :: 0 <= i < |items| ==> ValueAgrees(items[i], renaming, vars, vars')
    case ObjectValue(members) => MembersAgree(members, renaming, vars, vars')
  }

  predicate MembersAgree(members: seq<Member>, renaming: map<string, string>, vars: map<string, Json>,
                         vars': map<string, Json>) {
    forall i :: 0 <= i < |members| ==> ValueAgrees(members[i].value, renaming, vars, vars')
  }

  /** So do all variables of a selection set, including, without renaming, those of the fragments it reaches. */
  predicate Agree(sels: seq<Selection>, renaming: map<string, string>, vars: map<string, Json>,
                  vars': map<string, Json>,
                  frags: map<string, Fragment>, rank: string -> nat, bound: nat)
    decreases bound, sels
  {
    forall i :: 0 <= i < |sels| ==> AgreesOne(sels[i], renaming, vars, vars', frags, rank, bound)
  }

  predicate AgreesOne(sel: Selection, renaming: map<string, string>, vars: map<string, Json>, vars': map<string, Json>,
                      frags: map<string, Fragment>, rank: string -> nat, bound: nat)
    decreases bound, sel
  {
    match sel
    case Field(_, _, args, sels) =>
      MembersAgree(args, renaming, vars, vars') && Agree(sels, renaming, vars, vars', frags, rank, bound)
    case Inline(_, sels) =>
      Agree(sels, renaming, vars, vars', frags, rank, bound)
    case Spread(f) =>
      f in frags && rank(f) < bound ==> Agree(frags[f].sels, map[], vars, vars', frags, rank, rank(f))
  }

  lemma {:induction false} EvalRenamed(v: Value, renaming: map<string, string>, vars: map<string, Json>,
                                       vars': map<string, Json>)
    ensures Eval(RenameValue(v, renaming), vars') == Eval(v, vars) <==> ValueAgrees(v, renaming, vars, vars')
    decreases v, 0
  {
    match v
    case Literal(_) =>
    case Variable(_) =>
    case ListValue(items) =>
      forall i | 0 <= i < |items|
        ensures Eval(RenameValue(items[i], renaming), vars') == Eval(items[i], vars) <==>
                  ValueAgrees(items[i], renaming, vars, vars')
      {
        EvalRenamed(items[i], renaming, vars, vars');
      }
      var a, b := Eval(RenameValue(v, renaming), vars'), Eval(v, vars);
      assert |a.items| == |b.items| == |items|;
      assert forall i :: 0 <= i < |items| ==>
               a.items[i] == Eval(RenameValue(items[i], renaming), vars') && b.items[i] == Eval(items[i], vars);
      assert a == b <==> forall i :: 0 <= i < |items| ==> a.items[i] == b.items[i];
    case ObjectValue(members) =>
      MembersRenamed(members, renaming, vars, vars');
  }

  lemma {:induction false} MembersRenamed(members: seq<Member>, renaming: map<string, string>, vars: map<string, Json>,
                                          vars': map<string, Json>)
    ensures EvalMembers(RenameMembers(members, renaming), vars') == EvalMembers(members, vars)
            <==> MembersAgree(members, renaming, vars, vars')
    decreases members, 1
  {
    var a, b := EvalMembers(RenameMembers(members, renaming), vars'), EvalMembers(members, vars);
    forall i | 0 <= i < |members|
      ensures a[i] == b[i] <==> ValueAgrees(members[i].value, renaming, vars, vars')
    {
      EvalRenamed(members[i].value, renaming, vars, vars');
    }
    assert a == b <==> forall i :: 0 <= i < |members| ==> a[i] == b[i];
  }

  lemma {:induction false} RenamingNothingInValue(v: Value)
    ensures RenameValue(v, map[]) == v
  {
    match v
    case Literal(_) =>
    case Variable(_) =>
    case ListValue(items) =>
      forall i | 0 <= i < |items| { RenamingNothingInValue(items[i]); }
      assert RenameValue(v, map[]).items == items;
    case ObjectValue(members) =>
      forall i | 0 <= i < |members| { RenamingNothingInValue(members[i].value); }
      assert RenameMembers(members, map[]) == members;
  }

  lemma {:induction false} RenamingNothing(sels: seq<Selection>)
    ensures Rename(sels, map[]) == sels
    decreases sels
  {
    forall i | 0 <= i < |sels|
      ensures RenameOne(sels[i], map[]) == sels[i]
    {
      match sels[i] {
        case Field(_, _, args, inner) =>
          forall k | 0 <= k < |args| { RenamingNothingInValue(args[k].value); }
          assert RenameMembers(args, map[]) == args;
          RenamingNothing(inner);
        case Inline(_, inner) =>
          RenamingNothing(inner);
        case Spread(_) =>
      }
    }
  }

  /** More fragments under the same names do not matter. */
  predicate Extends(frags': map<string, Fragment>, frags: map<string, Fragment>) {
    forall f :: f in frags ==> f in frags' && frags'[f] == frags[f]
  }

  /**
   A renamed selection set, evaluated with other variables and more fragments, elaborates to the
   same query exactly when every variable it reaches has the value it had.
   */
  lemma {:induction false} ElabRenamed(sels: seq<Selection>, renaming: map<string, string>, vars: map<string, Json>,
                                       vars': map<string, Json>,
                                       frags: map<string, Fragment>, frags': map<string, Fragment>, rank: string -> nat,
                                       bound: nat)
    requires SpreadsKnown(sels, frags, rank, bound) && Acyclic(frags, rank) && Extends(frags', frags)
    ensures Elab(Rename(sels, renaming), vars', frags', rank, bound) == Elab(sels, vars, frags, rank, bound)
            <==> Agree(sels, renaming, vars, vars', frags, rank, bound)
    decreases bound, sels
  {
    var a, b := Elab(Rename(sels, renaming), vars', frags', rank, bound), Elab(sels, vars, frags, rank, bound);
    forall i | 0 <= i < |sels|
      ensures a[i] == b[i] <==> AgreesOne(sels[i], renaming, vars, vars', frags, rank, bound)
    {
      ElabRenamedOne(sels[i], renaming, vars, vars', frags, frags', rank, bound);
    }
    assert a == b <==> forall i :: 0 <= i < |sels| ==> a[i] == b[i];
  }

  lemma {:induction false} ElabRenamedOne(sel: Selection, renaming: map<string, string>, vars: map<string, Json>,
                                          vars': map<string, Json>,
                                          frags: map<string, Fragment>, frags': map<string, Fragment>,
                                          rank: string -> nat, bound: nat)
    requires SpreadKnown(sel, frags, rank, bound) && Acyclic(frags, rank) && Extends(frags', frags)
    ensures ElabOne(RenameOne(sel, renaming), vars', frags', rank, bound) == ElabOne(sel, vars, frags, rank, bound)
            <==> AgreesOne(sel, renaming, vars, vars', frags, rank, bound)
    decreases bound, sel
  {
    match sel
    case Field(_, _, args, sels) =>
      MembersRenamed(args, renaming, vars, vars');
      ElabRenamed(sels, renaming, vars, vars', frags, frags', rank, bound);
    case Inline(_, sels) =>
      ElabRenamed(sels, renaming, vars, vars', frags, frags', rank, bound);
    case Spread(f) =>
      RenamingNothing(frags[f].sels);
      ElabRenamed(frags[f].sels, map[], vars, vars', frags, frags', rank, rank(f));
  }

  // ---------------------------------------------------------------------------------------
  // Execution
  // ---------------------------------------------------------------------------------------

  /** What resolving a field yields: nothing, a leaf, an object to select from, or a list. */
  datatype Node = NullNode | LeafNode(json: Json) | ObjectNode(obj: int) | ListNode(items: seq<Node>)

  /** The server: how it resolves a field of an object, and which objects a type condition admits. */
  datatype Server = Server(resolve: (int, string, seq<GMember>) -> Node, applies: (int, string) -> bool)

  function Size(sels: seq<Query>): nat {
    if sels == [] then 0 else 1 + Size(sels[0].sels) + Size(sels[1..])
  }

  lemma {:induction false} SizeOfConcat(a: seq<Query>, b: seq<Query>)
    ensures Size(a + b) == Size(a) + Size(b)
  {
    if a == [] {
      assert a + b == b;
    } else {
      assert (a + b)[1..] == a[1..] + b;
      SizeOfConcat(a[1..], b);
    }
  }

  /** The fields a selection set selects from an object, type conditions resolved. */
  function Collect(server: Server, obj: int, sels: seq<Query>): (fields: seq<Query>)
    ensures forall i :: 0 <= i < |fields| ==> fields[i].QField?
    ensures Size(fields) <= Size(sels)
  {
    if sels == [] then []
    else
      var rest := Collect(server, obj, sels[1..]);
      match sels[0]
      case QField(_, _, _, _) =>
        assert ([sels[0]] + rest)[1..] == rest;
        [sels[0]] + rest
      case QInline(on, inner) =>
        if server.applies(obj, on) then
          SizeOfConcat(Collect(server, obj, inner), rest);
          Collect(server, obj, inner) + rest
        else rest
  }

  /** The fields with a given response key. */
  function WithKey(fields: seq<Query>, key: string): (group: seq<Query>)
    requires forall i :: 0 <= i < |fields| ==> fields[i].QField?
    ensures forall i :: 0 <= i < |group| ==> group[i].QField?
    ensures Size(group) <= Size(fields)
    ensures (exists i :: 0 <= i < |fields| && fields[i].key == key) ==> group != []
  {
    if fields == [] then []
    else
      var rest := WithKey(fields[1..], key);
      assert ([fields[0]] + rest)[1..] == rest;
      assert forall i :: 0 < i < |fields| ==> fields[i] == fields[1..][i - 1];
      if fields[0].key == key then [fields[0]] + rest else rest
  }

  /** The selections of fields that share a response key are merged. */
  function MergedSelections(group: seq<Query>): (sels: seq<Query>)
    ensures Size(sels) + |group| == Size(group)
  {
    if group == [] then []
    else
      SizeOfConcat(group[0].sels, MergedSelections(group[1..]));
      group[0].sels + MergedSelections(group[1..])
  }

  ghost function Keys(fields: seq<Query>): set<string>
    requires forall i :: 0 <= i < |fields| ==> fields[i].QField?
  {
    set i | 0 <= i < |fields| :: fields[i].key
  }

  /** Executing a selection set on an object. */
  ghost function Execute(server: Server, obj: int, sels: seq<Query>): map<string, Json>
    decreases Size(sels), 1
  {
    var fields := Collect(server, obj, sels);
    map key | key in Keys(fields) :: ExecuteFields(server, obj, WithKey(fields, key))
  }

  ghost function ExecuteFields(server: Server, obj: int, group: seq<Query>): Json
    requires group != [] && group[0].QField?
    decreases Size(MergedSelections(group)), 3
  {
    Complete(server, server.resolve(obj, group[0].name, group[0].args), MergedSelections(group))
  }

  ghost function Complete(server: Server, node: Node, sels: seq<Query>): Json
    decreases Size(sels), 2, node
  {
    match node
    case NullNode => Null
    case LeafNode(json) => json
    case ObjectNode(obj) => Object(Execute(server, obj, sels))
    case ListNode(items) => List(seq(|items|, i requires 0 <= i < |items| => Complete(server, items[i], sels)))
  }

  /** The response to a document. A document that is not valid is not executed (section 6.1). */
  ghost function Respond(server: Server, root: int, doc: Document, vars: map<string, Json>,
                         rank: string -> nat, bound: nat): Option<map<string, Json>> {
    if VariablesDefined(doc, rank, bound) then
      Some(Execute(server, root, Elab(doc.op.sels, vars, doc.frags, rank, bound)))
    else None
  }

  /** The value of a field on its own. */
  ghost function FieldValue(server: Server, obj: int, field: Query): Json
    requires field.QField?
  {
    Complete(server, server.resolve(obj, field.name, field.args), field.sels)
  }

  ghost predicate DistinctKeys(fields: seq<Query>) {
    && (forall i :: 0 <= i < |fields| ==> fields[i].QField?)
    && (forall i, j :: 0 <= i < j < |fields| ==> fields[i].key != fields[j].key)
  }

  lemma {:induction false} FieldsAreCollected(server: Server, obj: int, fields: seq<Query>)
    requires forall i :: 0 <= i < |fields| ==> fields[i].QField?
    ensures Collect(server, obj, fields) == fields
  {
    if fields != [] { FieldsAreCollected(server, obj, fields[1..]); }
  }

  lemma {:induction false} NoFieldWithKey(fields: seq<Query>, key: string)
    requires forall i :: 0 <= i < |fields| ==> fields[i].QField? && fields[i].key != key
    ensures WithKey(fields, key) == []
  {
    if fields != [] { NoFieldWithKey(fields[1..], key); }
  }

  lemma {:induction false} OneFieldWithKey(fields: seq<Query>, k: nat)
    requires DistinctKeys(fields) && k < |fields|
    ensures WithKey(fields, fields[k].key) == [fields[k]]
  {
    if k == 0 {
      NoFieldWithKey(fields[1..], fields[0].key);
    } else {
      OneFieldWithKey(fields[1..], k - 1);
    }
  }

  /** Fields with distinct response keys do not influence each other. */
  lemma {:induction false} DistinctFieldsAreIndependent(server: Server, obj: int, fields: seq<Query>, k: nat)
    requires DistinctKeys(fields) && k < |fields|
    ensures fields[k].key in Execute(server, obj, fields)
    ensures Execute(server, obj, fields)[fields[k].key] == FieldValue(server, obj, fields[k])
  {
    FieldsAreCollected(server, obj, fields);
    OneFieldWithKey(fields, k);
    assert fields[k].key in Keys(fields);
    assert MergedSelections([fields[k]]) == fields[k].sels + MergedSelections([fields[k]][1..]);
    assert MergedSelections([fields[k]]) == fields[k].sels;
  }

  lemma {:induction false} ResponseHasTheKeys(server: Server, obj: int, fields: seq<Query>)
    requires forall i :: 0 <= i < |fields| ==> fields[i].QField?
    ensures Execute(server, obj, fields).Keys == Keys(fields)
  {
    FieldsAreCollected(server, obj, fields);
  }
}
