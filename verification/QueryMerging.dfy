/**
 Merging queries into one operation: variables are prefixed with a fresh id, the top-level field
 of each query is aliased with its id, and fragments are collected. The merged operation asks,
 under the alias of a query, what the query asks alone.
 */
module QueryMerging {
  import opened Options
  import opened GraphQL

  datatype Definition = FragmentDef(name: string, fragment: Fragment) | OperationDef(op: Operation)

  /** A query given to the builder: the id drawn for it, its parsed definitions and its variables. */
  datatype Entry = Entry(id: string, defs: seq<Definition>, vars: map<string, Json>)

  /** What the builder accumulates. */
  datatype Built = Built(op: Option<Operation>, fragments: set<string>, vars: map<string, Json>)

  function Ops(defs: seq<Definition>): seq<Operation> {
    if defs == [] then []
    else
      Ops(defs[..|defs| - 1]) + match defs[|defs| - 1] case OperationDef(op) => [op] case FragmentDef(_, _) => []
  }

  /** The fragments of a document; a name defined again keeps its first body. */
  function Frags(defs: seq<Definition>): map<string, Fragment> {
    if defs == [] then map[]
    else AddText(Frags(defs[..|defs| - 1]), defs[|defs| - 1])
  }

  /** Keep the body of a fragment unless one is known under its name. */
  function AddText(texts: map<string, Fragment>, def: Definition): map<string, Fragment> {
    match def
    case OperationDef(_) => texts
    case FragmentDef(name, fragment) => if name in texts then texts else texts[name := fragment]
  }

  function Texts(texts: map<string, Fragment>, defs: seq<Definition>): map<string, Fragment> {
    if defs == [] then texts
    else AddText(Texts(texts, defs[..|defs| - 1]), defs[|defs| - 1])
  }

  function AllTexts(texts: map<string, Fragment>, entries: seq<Entry>): map<string, Fragment> {
    if entries == [] then texts
    else Texts(AllTexts(texts, entries[..|entries| - 1]), entries[|entries| - 1].defs)
  }

  // ---------------------------------------------------------------------------------------
  // What `add` does to one query
  // ---------------------------------------------------------------------------------------

  function Prefixed(id: string, name: string): string {
    id + "_" + name
  }

  function Renaming(id: string, varDefs: seq<VarDef>): map<string, string> {
    map name | name in Names(varDefs) :: Prefixed(id, name)
  }

  function PrefixedDefs(id: string, varDefs: seq<VarDef>): (r: seq<VarDef>)
    ensures |r| == |varDefs|
  {
    seq(|varDefs|, i requires 0 <= i < |varDefs| => varDefs[i].(name := Prefixed(id, varDefs[i].name)))
  }

  /** A variable without a value is sent as null. */
  function Supplied(vars: map<string, Json>, name: string): Json {
    if name in vars then vars[name] else Null
  }

  function AddVars(all: map<string, Json>, id: string, varDefs: seq<VarDef>,
                   vars: map<string, Json>): map<string, Json> {
    if varDefs == [] then all
    else
      var d := varDefs[|varDefs| - 1];
      AddVars(all, id, varDefs[..|varDefs| - 1], vars)[Prefixed(id, d.name) := Supplied(vars, d.name)]
  }

  function Aliased(id: string, sel: Selection): Selection {
    match sel
    case Field(_, name, args, sels) => Field(Some(id), name, args, sels)
    case Spread(_) => sel
    case Inline(_, _) => sel
  }

  function Prepared(id: string, op: Operation): Operation {
    var sels := Rename(op.sels, Renaming(id, op.varDefs));
    Operation(op.name, PrefixedDefs(id, op.varDefs), seq(|sels|, i requires 0 <= i < |sels| => Aliased(id, sels[i])))
  }

  function AddOp(b: Built, id: string, op: Operation, vars: map<string, Json>): Built {
    var p := Prepared(id, op);
    var merged := match b.op
                  case None => p
                  case Some(first) => first.(sels := first.sels + p.sels, varDefs := first.varDefs + p.varDefs);
    Built(Some(merged), b.fragments, AddVars(b.vars, id, op.varDefs, vars))
  }

  function AddDef(b: Built, id: string, def: Definition, vars: map<string, Json>): Built {
    match def
    case FragmentDef(name, _) => b.(fragments := b.fragments + {name})
    case OperationDef(op) => AddOp(b, id, op, vars)
  }

  function AddDefs(b: Built, id: string, defs: seq<Definition>, vars: map<string, Json>): Built {
    if defs == [] then b
    else AddDef(AddDefs(b, id, defs[..|defs| - 1], vars), id, defs[|defs| - 1], vars)
  }

  const EMPTY := Built(None, {}, map[])

  function AddAll(entries: seq<Entry>): Built {
    if entries == [] then EMPTY
    else
      var e := entries[|entries| - 1];
      AddDefs(AddAll(entries[..|entries| - 1]), e.id, e.defs, e.vars)
  }

  /** The document the builder produces. */
  function BuildDocument(b: Built, texts: map<string, Fragment>): Document
    requires b.op.Some?
  {
    Document(b.op.value, map f | f in b.fragments && f in texts :: texts[f])
  }

  // ---------------------------------------------------------------------------------------
  // Queries that may be merged
  // ---------------------------------------------------------------------------------------

  /** One operation, with one top-level field and no alias on it, and distinct variables. */
  ghost predicate Simple(defs: seq<Definition>) {
    && |Ops(defs)| == 1
    && var op := Ops(defs)[0];
       && |op.sels| == 1 && op.sels[0].Field? && op.sels[0].alias == None
       && forall i, j :: 0 <= i < j < |op.varDefs| ==> op.varDefs[i].name != op.varDefs[j].name
  }

  ghost predicate AllSimple(entries: seq<Entry>) {
    forall i :: 0 <= i < |entries| ==> Simple(entries[i].defs)
  }

  function OpOf(e: Entry): Operation
    requires |Ops(e.defs)| == 1
  {
    Ops(e.defs)[0]
  }

  /** No fragment that the selection set reaches mentions a variable. */
  ghost predicate FragmentsVarFree(sels: seq<Selection>, frags: map<string, Fragment>, rank: string -> nat, bound: nat)
    decreases sels
  {
    forall i :: 0 <= i < |sels| ==> FragmentVarFree(sels[i], frags, rank, bound)
  }

  ghost predicate FragmentVarFree(sel: Selection, frags: map<string, Fragment>, rank: string -> nat, bound: nat)
    decreases sel
  {
    match sel
    case Field(_, _, _, sels) => FragmentsVarFree(sels, frags, rank, bound)
    case Inline(_, sels) => FragmentsVarFree(sels, frags, rank, bound)
    case Spread(f) => f in frags && rank(f) < bound ==> Uses(frags[f].sels, {}, frags, rank, rank(f))
  }

  /** No query has a fragment that mentions a variable. */
  ghost predicate AllVarFree(entries: seq<Entry>, rank: string -> nat, bound: nat) {
    forall i :: 0 <= i < |entries| ==>
      Simple(entries[i].defs) && FragmentsVarFree(OpOf(entries[i]).sels, Frags(entries[i].defs), rank, bound)
  }

  /** A valid query: its spreads are known, and it uses the variables it declares, all of which are supplied. */
  ghost predicate ValidEntry(e: Entry, rank: string -> nat, bound: nat) {
    && Simple(e.defs)
    && SpreadsKnown(OpOf(e).sels, Frags(e.defs), rank, bound)
    && Acyclic(Frags(e.defs), rank)
    && Uses(OpOf(e).sels, Names(OpOf(e).varDefs), Frags(e.defs), rank, bound)
    && forall name :: name in Names(OpOf(e).varDefs) ==> name in e.vars && e.vars[name] != Absent
  }

  /** The ids are eight characters long, distinct, and prefix no declared variable. */
  ghost predicate FreshIds(entries: seq<Entry>) {
    && AllSimple(entries)
    && (forall i :: 0 <= i < |entries| ==> |entries[i].id| == 8)
    && (forall i, j :: 0 <= i < j < |entries| ==> entries[i].id != entries[j].id)
    && (forall i, j, name, rest :: 0 <= i < |entries| && 0 <= j < |entries| && name in Names(OpOf(entries[j]).varDefs)
                                   ==> name != Prefixed(entries[i].id, rest))
  }

  /** A fragment name has one body, here and in the fragments printed before. */
  ghost predicate OneBodyPerName(texts: map<string, Fragment>, entries: seq<Entry>) {
    && (forall i, f :: 0 <= i < |entries| && f in Frags(entries[i].defs) && f in texts ==>
        texts[f] == Frags(entries[i].defs)[f])
    && (forall i, j, f ::
          (0 <= i < |entries| && 0 <= j < |entries| && f in Frags(entries[i].defs) && f in Frags(entries[j].defs))
          ==> Frags(entries[i].defs)[f] == Frags(entries[j].defs)[f])
  }

  ghost predicate Mergeable(texts: map<string, Fragment>, entries: seq<Entry>, rank: string -> nat, bound: nat) {
    && FreshIds(entries)
    && OneBodyPerName(texts, entries)
    && forall i :: 0 <= i < |entries| ==> ValidEntry(entries[i], rank, bound)
  }

  // ---------------------------------------------------------------------------------------
  // The shape of the merged operation
  // ---------------------------------------------------------------------------------------

  lemma {:induction false} AddingFragmentsOnly(b: Built, id: string, defs: seq<Definition>, vars: map<string, Json>)
    requires Ops(defs) == []
    ensures AddDefs(b, id, defs, vars) == b.(fragments := b.fragments + Frags(defs).Keys)
  {
    if defs == [] {
      assert b.fragments + Frags(defs).Keys == b.fragments;
    } else {
      AddingFragmentsOnly(b, id, defs[..|defs| - 1], vars);
    }
  }

  lemma {:induction false} AddingOneOperation(b: Built, id: string, defs: seq<Definition>, vars: map<string, Json>)
    requires |Ops(defs)| == 1
    ensures AddDefs(b, id, defs, vars) == AddOp(b.(fragments := b.fragments + Frags(defs).Keys), id, Ops(defs)[0], vars)
  {
    var front := defs[..|defs| - 1];
    match defs[|defs| - 1]
    case OperationDef(op) =>
      AddingFragmentsOnly(b, id, front, vars);
    case FragmentDef(name, _) =>
      AddingOneOperation(b, id, front, vars);
      assert Frags(defs).Keys == Frags(front).Keys + {name};
  }

  lemma BuiltNext(entries: seq<Entry>)
    requires entries != [] && |Ops(entries[|entries| - 1].defs)| == 1
    ensures var e := entries[|entries| - 1];
            var before := AddAll(entries[..|entries| - 1]);
            AddAll(entries) == AddOp(before.(fragments := before.fragments + Frags(e.defs).Keys), e.id, OpOf(e), e.vars)
  {
    var e := entries[|entries| - 1];
    AddingOneOperation(AddAll(entries[..|entries| - 1]), e.id, e.defs, e.vars);
  }

  /** The one top-level field of a query, as it stands in the merged operation. */
  ghost function MergedField(e: Entry): Selection
    requires Simple(e.defs)
  {
    Aliased(e.id, Rename(OpOf(e).sels, Renaming(e.id, OpOf(e).varDefs))[0])
  }

  /** The merged operation selects the aliased fields of the queries, in the order in which they were added. */
  lemma {:induction false} BuiltSelections(entries: seq<Entry>)
    requires entries != [] && AllSimple(entries)
    ensures AddAll(entries).op.Some?
    ensures |AddAll(entries).op.value.sels| == |entries|
    ensures forall i :: 0 <= i < |entries| ==> AddAll(entries).op.value.sels[i] == MergedField(entries[i])
  {
    var n := |entries| - 1;
    BuiltNext(entries);
    if n > 0 { BuiltSelections(entries[..n]); }
  }

  lemma {:induction false} BuiltFragments(entries: seq<Entry>, k: nat)
    requires k < |entries| && AllSimple(entries)
    ensures Frags(entries[k].defs).Keys <= AddAll(entries).fragments
  {
    BuiltNext(entries);
    if k < |entries| - 1 { BuiltFragments(entries[..|entries| - 1], k); }
  }

  // Variables ------------------------------------------------------------------------------

  lemma {:induction false} AddVarsAdds(all: map<string, Json>, id: string, varDefs: seq<VarDef>,
                                       vars: map<string, Json>)
    ensures forall name :: name in Names(varDefs) ==>
              Prefixed(id, name) in AddVars(all, id, varDefs, vars)
              && AddVars(all, id, varDefs, vars)[Prefixed(id, name)] == Supplied(vars, name)
    ensures forall key :: key in all && (forall name :: name in Names(varDefs) ==> key != Prefixed(id, name)) ==>
              key in AddVars(all, id, varDefs, vars) && AddVars(all, id, varDefs, vars)[key] == all[key]
    ensures forall key :: key in AddVars(all, id, varDefs, vars) ==>
              key in all || exists name :: name in Names(varDefs) && key == Prefixed(id, name)
  {
    if varDefs != [] {
      var front, d := varDefs[..|varDefs| - 1], varDefs[|varDefs| - 1];
      AddVarsAdds(all, id, front, vars);
      assert Names(varDefs) == Names(front) + {d.name};
      forall name | name in Names(varDefs)
        ensures Prefixed(id, name) == Prefixed(id, d.name) ==> name == d.name
      {
        PrefixedIsInjective(id, name, id, d.name);
      }
    }
  }

  lemma PrefixedIsInjective(id: string, name: string, id': string, name': string)
    requires |id| == |id'|
    ensures Prefixed(id, name) == Prefixed(id', name') ==> id == id' && name == name'
  {
    var p, p' := Prefixed(id, name), Prefixed(id', name');
    if p == p' {
      assert p[..|id|] == id && p'[..|id|] == id';
      assert p[|id| + 1..] == name && p'[|id| + 1..] == name';
    }
  }

  /** Every variable of the merged operation carries the prefix of one of the queries. */
  lemma {:induction false} BuiltVarsArePrefixed(entries: seq<Entry>, key: string)
    requires AllSimple(entries) && key in AddAll(entries).vars
    ensures exists i, rest :: 0 <= i < |entries| && key == Prefixed(entries[i].id, rest)
  {
    if entries != [] {
      var n := |entries| - 1;
      var e, before := entries[n], entries[..n];
      BuiltNext(entries);
      AddVarsAdds(AddAll(before).vars, e.id, OpOf(e).varDefs, e.vars);
      if key in AddAll(before).vars {
        BuiltVarsArePrefixed(before, key);
        var i, rest :| 0 <= i < |before| && key == Prefixed(before[i].id, rest);
        assert key == Prefixed(entries[i].id, rest);
      } else {
        var name :| name in Names(OpOf(e).varDefs) && key == Prefixed(e.id, name);
        assert key == Prefixed(entries[n].id, name);
      }
    }
  }

  /** A variable of a query has, under its prefixed name, the value it was supplied with. */
  lemma {:induction false} BuiltVars(entries: seq<Entry>, k: nat, name: string)
    requires FreshIds(entries) && k < |entries| && name in Names(OpOf(entries[k]).varDefs)
    ensures Prefixed(entries[k].id, name) in AddAll(entries).vars
    ensures AddAll(entries).vars[Prefixed(entries[k].id, name)] == Supplied(entries[k].vars, name)
  {
    var n := |entries| - 1;
    var e, before := entries[n], entries[..n];
    BuiltNext(entries);
    AddVarsAdds(AddAll(before).vars, e.id, OpOf(e).varDefs, e.vars);
    if k < n {
      BuiltVars(before, k, name);
      forall other | other in Names(OpOf(e).varDefs)
        ensures Prefixed(entries[k].id, name) != Prefixed(e.id, other)
      {
        PrefixedIsInjective(entries[k].id, name, e.id, other);
      }
    }
  }

  /** Under its own name it has no value. */
  lemma {:induction false} UnprefixedIsAbsent(entries: seq<Entry>, k: nat, name: string)
    requires FreshIds(entries) && k < |entries| && name in Names(OpOf(entries[k]).varDefs)
    ensures name !in AddAll(entries).vars
  {
    if name in AddAll(entries).vars {
      BuiltVarsArePrefixed(entries, name);
    }
  }

  ghost predicate DistinctNames(varDefs: seq<VarDef>) {
    forall i, j :: 0 <= i < j < |varDefs| ==> varDefs[i].name != varDefs[j].name
  }

  /** The variables declared by the merged operation. */
  ghost function Declared(entries: seq<Entry>): seq<VarDef> {
    var op := AddAll(entries).op;
    if op.Some? then op.value.varDefs else []
  }

  lemma DeclaredNext(entries: seq<Entry>)
    requires entries != [] && AllSimple(entries)
    ensures var e := entries[|entries| - 1];
            Declared(entries) == Declared(entries[..|entries| - 1]) + PrefixedDefs(e.id, OpOf(e).varDefs)
  {
    BuiltNext(entries);
  }

  lemma DeclaredAt(entries: seq<Entry>, d: nat)
    requires entries != [] && AllSimple(entries) && d < |Declared(entries)|
    ensures var n := |entries| - 1;
            var j := d - |Declared(entries[..n])|;
            if j < 0 then Declared(entries)[d] == Declared(entries[..n])[d]
            else j < |OpOf(entries[n]).varDefs|
                 && Declared(entries)[d].name == Prefixed(entries[n].id, OpOf(entries[n]).varDefs[j].name)
  {
    DeclaredNext(entries);
  }

  lemma {:induction false} DeclaredArePrefixed(entries: seq<Entry>, d: nat) returns (i: nat, name: string)
    requires AllSimple(entries) && d < |Declared(entries)|
    ensures i < |entries| && Declared(entries)[d].name == Prefixed(entries[i].id, name)
  {
    i := |entries| - 1;
    DeclaredAt(entries, d);
    var before := |Declared(entries[..i])|;
    if d < before {
      i, name := DeclaredArePrefixed(entries[..i], d);
    } else {
      name := OpOf(entries[i]).varDefs[d - before].name;
    }
  }

  lemma OwnDefsAreUnique(id: string, varDefs: seq<VarDef>)
    requires DistinctNames(varDefs)
    ensures DistinctNames(PrefixedDefs(id, varDefs))
  {
    var own := PrefixedDefs(id, varDefs);
    forall i, j | 0 <= i < j < |own|
      ensures own[i].name != own[j].name
    {
      PrefixedIsInjective(id, varDefs[i].name, id, varDefs[j].name);
    }
  }

  lemma OthersAreDistinct(before: seq<Entry>, id: string, varDefs: seq<VarDef>, i: nat, j: nat)
    requires AllSimple(before)
    requires forall q :: 0 <= q < |before| ==> |before[q].id| == |id| && before[q].id != id
    requires i < |Declared(before)| && j < |varDefs|
    ensures Declared(before)[i].name != PrefixedDefs(id, varDefs)[j].name
  {
    var q, name := DeclaredArePrefixed(before, i);
    PrefixedIsInjective(before[q].id, name, id, varDefs[j].name);
  }

  lemma DistinctTogether(a: seq<VarDef>, b: seq<VarDef>)
    requires DistinctNames(a) && DistinctNames(b)
    requires forall i, j :: 0 <= i < |a| && 0 <= j < |b| ==> a[i].name != b[j].name
    ensures DistinctNames(a + b)
  {
  }

  lemma FreshIdsBefore(entries: seq<Entry>)
    requires FreshIds(entries) && entries != []
    ensures FreshIds(entries[..|entries| - 1])
  {
  }

  /** One more query declares distinct variables, none of them declared before. */
  lemma DeclaredWithOne(before: seq<Entry>, id: string, varDefs: seq<VarDef>)
    requires AllSimple(before) && DistinctNames(Declared(before)) && DistinctNames(varDefs)
    requires forall q :: 0 <= q < |before| ==> |before[q].id| == |id| && before[q].id != id
    ensures DistinctNames(Declared(before) + PrefixedDefs(id, varDefs))
  {
    var first, own := Declared(before), PrefixedDefs(id, varDefs);
    OwnDefsAreUnique(id, varDefs);
    forall i, j | 0 <= i < |first| && 0 <= j < |own|
      ensures first[i].name != own[j].name
    {
      OthersAreDistinct(before, id, varDefs, i, j);
    }
    DistinctTogether(first, own);
  }

  lemma {:induction false} DeclaredOnce(entries: seq<Entry>)
    requires FreshIds(entries)
    ensures DistinctNames(Declared(entries))
  {
    if entries != [] {
      var n := |entries| - 1;
      FreshIdsBefore(entries);
      DeclaredNext(entries);
      DeclaredOnce(entries[..n]);
      DeclaredWithOne(entries[..n], entries[n].id, OpOf(entries[n]).varDefs);
    }
  }

  /** The merged operation declares every variable once (section 5.8.1). */
  lemma {:induction false} MergedVariablesAreUnique(entries: seq<Entry>)
    requires FreshIds(entries) && entries != []
    ensures AddAll(entries).op.Some? && DistinctNames(AddAll(entries).op.value.varDefs)
  {
    BuiltSelections(entries);
    DeclaredOnce(entries);
  }

  // Fragments ------------------------------------------------------------------------------

  lemma {:induction false} TextsKeep(texts: map<string, Fragment>, defs: seq<Definition>)
    ensures Extends(Texts(texts, defs), texts)
    ensures (forall f :: f in Frags(defs) && f in texts ==> texts[f] == Frags(defs)[f]) ==>
              Extends(Texts(texts, defs), Frags(defs))
    ensures forall f :: f in Frags(defs) ==> f in Texts(texts, defs)
    ensures forall f :: f in Texts(texts, defs) && f !in texts ==>
              f in Frags(defs) && Texts(texts, defs)[f] == Frags(defs)[f]
  {
    if defs != [] {
      TextsKeep(texts, defs[..|defs| - 1]);
    }
  }

  /** The printed fragments include those of every query, with the body they have there. */
  lemma {:induction false} AllTextsExtend(texts: map<string, Fragment>, entries: seq<Entry>, k: nat)
    requires OneBodyPerName(texts, entries) && k < |entries|
    ensures Extends(AllTexts(texts, entries), Frags(entries[k].defs))
  {
    var n := |entries| - 1;
    var before, defs := entries[..n], entries[n].defs;
    TextsKeep(AllTexts(texts, before), defs);
    if k < n {
      AllTextsExtend(texts, before, k);
    } else {
      forall f | f in Frags(defs) && f in AllTexts(texts, before)
        ensures AllTexts(texts, before)[f] == Frags(defs)[f]
      {
        TextOrigin(texts, before, f);
      }
    }
  }

  /** Where a printed body comes from. */
  lemma {:induction false} TextOrigin(texts: map<string, Fragment>, entries: seq<Entry>, f: string)
    requires f in AllTexts(texts, entries)
    ensures || (f in texts && AllTexts(texts, entries)[f] == texts[f])
            || exists i :: 0 <= i < |entries| && f in Frags(entries[i].defs)
                           && AllTexts(texts, entries)[f] == Frags(entries[i].defs)[f]
  {
    if entries != [] {
      var n := |entries| - 1;
      var before := AllTexts(texts, entries[..n]);
      TextsKeep(before, entries[n].defs);
      if f in before {
        TextOrigin(texts, entries[..n], f);
        if !(f in texts && before[f] == texts[f]) {
          var i :| 0 <= i < |entries[..n]| && f in Frags(entries[..n][i].defs)
              && before[f] == Frags(entries[..n][i].defs)[f];
          assert f in Frags(entries[i].defs);
        }
      } else {
        assert f in Frags(entries[n].defs);
      }
    }
  }

  // ---------------------------------------------------------------------------------------
  // Validity of the merged document
  // ---------------------------------------------------------------------------------------

  lemma {:induction false} UnrenamedValueUses(v: Value, own: set<string>, merged: set<string>)
    requires own !! merged && ValueUses(v, own)
    ensures ValueUses(v, merged) <==> ValueUses(v, {})
    decreases v, 0
  {
    match v
    case Literal(_) =>
    case Variable(_) =>
    case ListValue(items) =>
      forall i | 0 <= i < |items| { UnrenamedValueUses(items[i], own, merged); }
    case ObjectValue(members) =>
      UnrenamedMembersUse(members, own, merged);
  }

  lemma {:induction false} UnrenamedMembersUse(members: seq<Member>, own: set<string>, merged: set<string>)
    requires own !! merged && MembersUse(members, own)
    ensures MembersUse(members, merged) <==> MembersUse(members, {})
    decreases members, 1
  {
    forall i | 0 <= i < |members| { UnrenamedValueUses(members[i].value, own, merged); }
  }

  /** Unrenamed, a selection set uses variables of the merged operation only if it uses none. */
  lemma {:induction false} UnrenamedUses(sels: seq<Selection>, own: set<string>, merged: set<string>,
                                         frags: map<string, Fragment>, frags': map<string, Fragment>,
                                         rank: string -> nat, bound: nat)
    requires own !! merged && Uses(sels, own, frags, rank, bound)
    requires SpreadsKnown(sels, frags, rank, bound) && Acyclic(frags, rank) && Extends(frags', frags)
    ensures Uses(sels, merged, frags', rank, bound) <==> Uses(sels, {}, frags, rank, bound)
    decreases bound, sels
  {
    forall i | 0 <= i < |sels|
      ensures UsesOne(sels[i], merged, frags', rank, bound) <==> UsesOne(sels[i], {}, frags, rank, bound)
    {
      assert UsesOne(sels[i], own, frags, rank, bound) && SpreadKnown(sels[i], frags, rank, bound);
      match sels[i] {
        case Field(_, _, args, inner) =>
          UnrenamedMembersUse(args, own, merged);
          UnrenamedUses(inner, own, merged, frags, frags', rank, bound);
        case Inline(_, inner) =>
          UnrenamedUses(inner, own, merged, frags, frags', rank, bound);
        case Spread(f) =>
          UnrenamedUses(frags[f].sels, own, merged, frags, frags', rank, rank(f));
      }
    }
  }

  lemma {:induction false} RenamedValueUses(v: Value, renaming: map<string, string>, own: set<string>,
                                            merged: set<string>)
    requires renaming.Keys == own && renaming.Values <= merged && ValueUses(v, own)
    ensures ValueUses(RenameValue(v, renaming), merged)
    decreases v, 0
  {
    match v
    case Literal(_) =>
    case Variable(name) =>
      assert renaming[name] in renaming.Values;
    case ListValue(items) =>
      forall i | 0 <= i < |items| { RenamedValueUses(items[i], renaming, own, merged); }
    case ObjectValue(members) =>
      RenamedMembersUse(members, renaming, own, merged);
  }

  lemma {:induction false} RenamedMembersUse(members: seq<Member>, renaming: map<string, string>, own: set<string>,
                                             merged: set<string>)
    requires renaming.Keys == own && renaming.Values <= merged && MembersUse(members, own)
    ensures MembersUse(RenameMembers(members, renaming), merged)
    decreases members, 1
  {
    forall i | 0 <= i < |members| { RenamedValueUses(members[i].value, renaming, own, merged); }
  }

  /** Renamed, it does exactly if no fragment mentions a variable. */
  lemma {:induction false} RenamedUses(sels: seq<Selection>, renaming: map<string, string>, own: set<string>,
                                       merged: set<string>,
                                       frags: map<string, Fragment>, frags': map<string, Fragment>, rank: string -> nat,
                                       bound: nat)
    requires renaming.Keys == own && renaming.Values <= merged && own !! merged && Uses(sels, own, frags, rank, bound)
    requires SpreadsKnown(sels, frags, rank, bound) && Acyclic(frags, rank) && Extends(frags', frags)
    ensures Uses(Rename(sels, renaming), merged, frags', rank, bound) <==> FragmentsVarFree(sels, frags, rank, bound)
    decreases bound, sels
  {
    forall i | 0 <= i < |sels|
      ensures UsesOne(Rename(sels, renaming)[i], merged, frags', rank, bound) <==>
                FragmentVarFree(sels[i], frags, rank, bound)
    {
      assert UsesOne(sels[i], own, frags, rank, bound) && SpreadKnown(sels[i], frags, rank, bound);
      match sels[i] {
        case Field(_, _, args, inner) =>
          RenamedMembersUse(args, renaming, own, merged);
          RenamedUses(inner, renaming, own, merged, frags, frags', rank, bound);
        case Inline(_, inner) =>
          RenamedUses(inner, renaming, own, merged, frags, frags', rank, bound);
        case Spread(f) =>
          UnrenamedUses(frags[f].sels, own, merged, frags, frags', rank, rank(f));
      }
    }
  }

  lemma PrefixedNames(id: string, varDefs: seq<VarDef>, name: string)
    requires name in Names(varDefs)
    ensures Prefixed(id, name) in Names(PrefixedDefs(id, varDefs))
  {
    var own := PrefixedDefs(id, varDefs);
    var i :| 0 <= i < |varDefs| && varDefs[i].name == name;
    assert own[i] in own && own[i].name == Prefixed(id, name);
  }

  lemma NamesOfSum(a: seq<VarDef>, b: seq<VarDef>)
    ensures Names(a + b) == Names(a) + Names(b)
  {
  }

  /** The variables of a query are declared by the merged operation, under their new names. */
  lemma {:induction false} OwnAreDeclared(entries: seq<Entry>, k: nat, name: string)
    requires AllSimple(entries) && k < |entries| && name in Names(OpOf(entries[k]).varDefs)
    ensures Prefixed(entries[k].id, name) in Names(Declared(entries))
  {
    var n := |entries| - 1;
    var e := entries[n];
    DeclaredNext(entries);
    NamesOfSum(Declared(entries[..n]), PrefixedDefs(e.id, OpOf(e).varDefs));
    if k < n {
      OwnAreDeclared(entries[..n], k, name);
    } else {
      PrefixedNames(e.id, OpOf(e).varDefs, name);
    }
  }

  /** Under their own names they are not. */
  lemma {:induction false} NoneDeclared(entries: seq<Entry>, k: nat)
    requires FreshIds(entries) && k < |entries|
    ensures AddAll(entries).op.Some? && Names(OpOf(entries[k]).varDefs) !! Names(AddAll(entries).op.value.varDefs)
  {
    BuiltSelections(entries);
    forall name | name in Names(OpOf(entries[k]).varDefs)
      ensures name !in Names(Declared(entries))
    {
      forall d | 0 <= d < |Declared(entries)|
        ensures Declared(entries)[d].name != name
      {
        var i, prefixed := DeclaredArePrefixed(entries, d);
      }
    }
  }

  lemma {:induction false} RenamingIsDeclared(entries: seq<Entry>, k: nat)
    requires AllSimple(entries) && k < |entries|
    ensures AddAll(entries).op.Some?
    ensures Renaming(entries[k].id, OpOf(entries[k]).varDefs).Values <= Names(AddAll(entries).op.value.varDefs)
  {
    BuiltSelections(entries);
    var renaming := Renaming(entries[k].id, OpOf(entries[k]).varDefs);
    forall value | value in renaming.Values
      ensures value in Names(AddAll(entries).op.value.varDefs)
    {
      var name :| name in renaming && renaming[name] == value;
      OwnAreDeclared(entries, k, name);
    }
  }

  /** The document that is sent for the queries. */
  function MergedDocument(texts: map<string, Fragment>, entries: seq<Entry>): Document
    requires AddAll(entries).op.Some?
  {
    BuildDocument(AddAll(entries), AllTexts(texts, entries))
  }

  lemma {:induction false} MergedFieldUsesIff(texts: map<string, Fragment>, entries: seq<Entry>, rank: string -> nat,
                                              bound: nat, k: nat)
    requires Mergeable(texts, entries, rank, bound) && k < |entries|
    ensures AddAll(entries).op.Some?
    ensures var doc := MergedDocument(texts, entries);
            UsesOne(MergedField(entries[k]), Names(doc.op.varDefs), doc.frags, rank, bound)
            <==> FragmentsVarFree(OpOf(entries[k]).sels, Frags(entries[k].defs), rank, bound)
  {
    var e := entries[k];
    var sels, renaming := OpOf(e).sels, Renaming(e.id, OpOf(e).varDefs);
    BuiltSelections(entries);
    var doc := MergedDocument(texts, entries);
    assert Extends(doc.frags, Frags(e.defs)) by {
      BuiltFragments(entries, k);
      AllTextsExtend(texts, entries, k);
    }
    assert ValidEntry(e, rank, bound);
    NoneDeclared(entries, k);
    RenamingIsDeclared(entries, k);
    RenamedUses(sels, renaming, Names(OpOf(e).varDefs), Names(doc.op.varDefs), Frags(e.defs), doc.frags, rank, bound);
    AliasedUses(e, Names(doc.op.varDefs), doc.frags, rank, bound);
  }

  /** An alias is no use of a variable. */
  lemma {:induction false} AliasedUses(e: Entry, names: set<string>, frags: map<string, Fragment>, rank: string -> nat,
                                       bound: nat)
    requires Simple(e.defs)
    ensures UsesOne(MergedField(e), names, frags, rank, bound)
            <==> Uses(Rename(OpOf(e).sels, Renaming(e.id, OpOf(e).varDefs)), names, frags, rank, bound)
  {
    var renamed := Rename(OpOf(e).sels, Renaming(e.id, OpOf(e).varDefs));
    assert renamed[0] == RenameOne(OpOf(e).sels[0], Renaming(e.id, OpOf(e).varDefs));
    assert Uses(renamed, names, frags, rank, bound) <==> UsesOne(renamed[0], names, frags, rank, bound);
  }

  /**
   The merged operation defines every variable that is used (section 5.8.3) if and only if no
   query of the batch has a fragment that mentions a variable.
   */
  lemma {:induction false} VariablesDefinedIff(texts: map<string, Fragment>, entries: seq<Entry>, rank: string -> nat,
                                               bound: nat)
    requires Mergeable(texts, entries, rank, bound) && entries != []
    ensures AddAll(entries).op.Some?
    ensures VariablesDefined(MergedDocument(texts, entries), rank, bound) <==> AllVarFree(entries, rank, bound)
  {
    BuiltSelections(entries);
    var doc := MergedDocument(texts, entries);
    forall k | 0 <= k < |entries|
      ensures UsesOne(doc.op.sels[k], Names(doc.op.varDefs), doc.frags, rank, bound)
              <==> FragmentsVarFree(OpOf(entries[k]).sels, Frags(entries[k].defs), rank, bound)
    {
      MergedFieldUsesIff(texts, entries, rank, bound, k);
    }
  }

  // ---------------------------------------------------------------------------------------
  // Meaning
  // ---------------------------------------------------------------------------------------

  /** `vars'` has the values of `names` under their new names and nothing under their own. */
  ghost predicate Moves(renaming: map<string, string>, names: set<string>, vars: map<string, Json>,
                        vars': map<string, Json>) {
    && renaming.Keys == names
    && forall name :: name in names ==>
         && name in vars && vars[name] != Absent && name !in vars'
         && renaming[name] in vars' && vars'[renaming[name]] == vars[name]
  }

  lemma {:induction false} MovedValue(v: Value, renaming: map<string, string>, names: set<string>,
                                      vars: map<string, Json>, vars': map<string, Json>)
    requires Moves(renaming, names, vars, vars') && ValueUses(v, names)
    ensures ValueAgrees(v, renaming, vars, vars')
    ensures ValueAgrees(v, map[], vars, vars') <==> ValueUses(v, {})
    decreases v, 0
  {
    match v
    case Literal(_) =>
    case Variable(_) =>
    case ListValue(items) =>
      forall i | 0 <= i < |items| { MovedValue(items[i], renaming, names, vars, vars'); }
    case ObjectValue(members) =>
      MovedMembers(members, renaming, names, vars, vars');
  }

  lemma {:induction false} MovedMembers(members: seq<Member>, renaming: map<string, string>, names: set<string>,
                                        vars: map<string, Json>, vars': map<string, Json>)
    requires Moves(renaming, names, vars, vars') && MembersUse(members, names)
    ensures MembersAgree(members, renaming, vars, vars')
    ensures MembersAgree(members, map[], vars, vars') <==> MembersUse(members, {})
    decreases members, 1
  {
    forall i | 0 <= i < |members| { MovedValue(members[i].value, renaming, names, vars, vars'); }
  }

  /** Unrenamed, the variables of a selection set keep their values exactly when there are none. */
  lemma {:induction false} UnrenamedAgrees(sels: seq<Selection>, renaming: map<string, string>, names: set<string>,
                                           vars: map<string, Json>, vars': map<string, Json>,
                                           frags: map<string, Fragment>, rank: string -> nat, bound: nat)
    requires Moves(renaming, names, vars, vars') && Uses(sels, names, frags, rank, bound)
    ensures Agree(sels, map[], vars, vars', frags, rank, bound) <==> Uses(sels, {}, frags, rank, bound)
    decreases bound, sels
  {
    forall i | 0 <= i < |sels|
      ensures AgreesOne(sels[i], map[], vars, vars', frags, rank, bound) <==> UsesOne(sels[i], {}, frags, rank, bound)
    {
      assert UsesOne(sels[i], names, frags, rank, bound);
      match sels[i] {
        case Field(_, _, args, inner) =>
          MovedMembers(args, renaming, names, vars, vars');
          UnrenamedAgrees(inner, renaming, names, vars, vars', frags, rank, bound);
        case Inline(_, inner) =>
          UnrenamedAgrees(inner, renaming, names, vars, vars', frags, rank, bound);
        case Spread(f) =>
          if f in frags && rank(f) < bound {
            UnrenamedAgrees(frags[f].sels, renaming, names, vars, vars', frags, rank, rank(f));
          }
      }
    }
  }

  /** Renamed, they keep their values exactly when no fragment mentions one. */
  lemma {:induction false} RenamedAgrees(sels: seq<Selection>, renaming: map<string, string>, names: set<string>,
                                         vars: map<string, Json>, vars': map<string, Json>,
                                         frags: map<string, Fragment>, rank: string -> nat, bound: nat)
    requires Moves(renaming, names, vars, vars') && Uses(sels, names, frags, rank, bound)
    ensures Agree(sels, renaming, vars, vars', frags, rank, bound) <==> FragmentsVarFree(sels, frags, rank, bound)
    decreases bound, sels
  {
    forall i | 0 <= i < |sels|
      ensures AgreesOne(sels[i], renaming, vars, vars', frags, rank, bound) <==>
                FragmentVarFree(sels[i], frags, rank, bound)
    {
      assert UsesOne(sels[i], names, frags, rank, bound);
      match sels[i] {
        case Field(_, _, args, inner) =>
          MovedMembers(args, renaming, names, vars, vars');
          RenamedAgrees(inner, renaming, names, vars, vars', frags, rank, bound);
        case Inline(_, inner) =>
          RenamedAgrees(inner, renaming, names, vars, vars', frags, rank, bound);
        case Spread(f) =>
          if f in frags && rank(f) < bound {
            UnrenamedAgrees(frags[f].sels, renaming, names, vars, vars', frags, rank, rank(f));
          }
      }
    }
  }

  function FieldName(e: Entry): string
    requires |Ops(e.defs)| == 1 && |OpOf(e).sels| == 1 && OpOf(e).sels[0].Field?
  {
    OpOf(e).sels[0].name
  }

  /** The elaboration of the top-level field of a query on its own. */
  ghost function AloneField(e: Entry, rank: string -> nat, bound: nat): (field: Query)
    requires Simple(e.defs)
    ensures field.QField? && field.key == FieldName(e)
  {
    ElabOne(OpOf(e).sels[0], e.vars, Frags(e.defs), rank, bound)
  }

  /** The same field under another response key. */
  function Rekeyed(field: Query, key: string): Query {
    match field
    case QField(_, name, args, sels) => QField(key, name, args, sels)
    case QInline(_, _) => field
  }

  /** The elaboration of the merged document. */
  ghost function MergedQuery(texts: map<string, Fragment>, entries: seq<Entry>, rank: string -> nat,
                             bound: nat): (r: seq<Query>)
    requires entries != [] && AllSimple(entries)
    ensures |r| == |entries|
  {
    BuiltSelections(entries);
    var b := AddAll(entries);
    var doc := BuildDocument(b, AllTexts(texts, entries));
    Elab(doc.op.sels, b.vars, doc.frags, rank, bound)
  }

  lemma MergedFieldIsAliased(e: Entry)
    requires Simple(e.defs)
    ensures MergedField(e).Field? && MergedField(e).alias == Some(e.id)
  {
    var op := OpOf(e);
    assert Rename(op.sels, Renaming(e.id, op.varDefs))[0] == RenameOne(op.sels[0], Renaming(e.id, op.varDefs));
  }

  lemma {:induction false} MergedQueryAt(texts: map<string, Fragment>, entries: seq<Entry>, rank: string -> nat,
                                         bound: nat, k: nat)
    requires AllSimple(entries) && k < |entries|
    ensures AddAll(entries).op.Some?
    ensures var b := AddAll(entries);
            MergedQuery(texts, entries, rank, bound)[k] ==
            ElabOne(MergedField(entries[k]), b.vars, BuildDocument(b, AllTexts(texts, entries)).frags, rank, bound)
    ensures MergedQuery(texts, entries, rank, bound)[k].QField?
    ensures MergedQuery(texts, entries, rank, bound)[k].key == entries[k].id
  {
    BuiltSelections(entries);
    MergedFieldIsAliased(entries[k]);
  }

  /**
   What the merged operation asks under the alias of the k-th query is what that query asks
   alone, if and only if no fragment the query uses mentions a variable: variables are renamed
   in the operation and not in the fragments.
   */
  lemma {:induction false} MergedFieldIsAloneIff(texts: map<string, Fragment>, entries: seq<Entry>,
                                                 rank: string -> nat, bound: nat,
                                                 k: nat)
    requires Mergeable(texts, entries, rank, bound) && k < |entries|
    ensures MergedQuery(texts, entries, rank, bound)[k] == Rekeyed(AloneField(entries[k], rank, bound), entries[k].id)
            <==> FragmentsVarFree(OpOf(entries[k]).sels, Frags(entries[k].defs), rank, bound)
  {
    var e := entries[k];
    var op, frags, b := OpOf(e), Frags(e.defs), AddAll(entries);
    var renaming, names := Renaming(e.id, op.varDefs), Names(op.varDefs);
    BuiltSelections(entries);
    var doc := BuildDocument(b, AllTexts(texts, entries));
    assert Extends(doc.frags, frags) by {
      BuiltFragments(entries, k);
      AllTextsExtend(texts, entries, k);
    }
    assert Moves(renaming, names, e.vars, b.vars) by { VariablesMove(texts, entries, rank, bound, k); }
    assert ValidEntry(e, rank, bound);
    RenamedAgrees(op.sels, renaming, names, e.vars, b.vars, frags, rank, bound);
    ElabRenamed(op.sels, renaming, e.vars, b.vars, frags, doc.frags, rank, bound);
    var renamed := Elab(Rename(op.sels, renaming), b.vars, doc.frags, rank, bound);
    var alone := Elab(op.sels, e.vars, frags, rank, bound);
    assert renamed == alone <==> renamed[0] == alone[0];
    MergedQueryAt(texts, entries, rank, bound, k);
    assert renamed[0].QField? && renamed[0].key == alone[0].key;
    assert MergedQuery(texts, entries, rank, bound)[k] == Rekeyed(renamed[0], e.id);
  }

  lemma {:induction false} VariablesMove(texts: map<string, Fragment>, entries: seq<Entry>, rank: string -> nat,
                                         bound: nat, k: nat)
    requires Mergeable(texts, entries, rank, bound) && k < |entries|
    ensures var e := entries[k];
            Moves(Renaming(e.id, OpOf(e).varDefs), Names(OpOf(e).varDefs), e.vars, AddAll(entries).vars)
  {
    var e := entries[k];
    assert ValidEntry(e, rank, bound);
    forall name | name in Names(OpOf(e).varDefs)
      ensures name !in AddAll(entries).vars && Prefixed(e.id, name) in AddAll(entries).vars
      ensures AddAll(entries).vars[Prefixed(e.id, name)] == e.vars[name]
    {
      BuiltVars(entries, k, name);
      UnprefixedIsAbsent(entries, k, name);
    }
  }

  /** The response of the server to one query on its own. */
  ghost function AloneResponse(server: Server, root: int, e: Entry, rank: string -> nat,
                               bound: nat): Option<map<string, Json>>
    requires Simple(e.defs)
  {
    Respond(server, root, Document(OpOf(e), Frags(e.defs)), e.vars, rank, bound)
  }

  /** Alone, a query is answered with its one field. */
  lemma AloneResponseIs(server: Server, root: int, e: Entry, rank: string -> nat, bound: nat)
    requires ValidEntry(e, rank, bound)
    ensures AloneResponse(server, root, e, rank, bound) ==
            Some(map[FieldName(e) := FieldValue(server, root, AloneField(e, rank, bound))])
  {
    assert VariablesDefined(Document(OpOf(e), Frags(e.defs)), rank, bound);
    assert Elab(OpOf(e).sels, e.vars, Frags(e.defs), rank, bound) == [AloneField(e, rank, bound)];
    OneFieldIsAnswered(server, root, AloneField(e, rank, bound));
  }

  lemma {:induction false} OneFieldIsAnswered(server: Server, obj: int, field: Query)
    requires field.QField?
    ensures Execute(server, obj, [field]) == map[field.key := FieldValue(server, obj, field)]
  {
    ResponseHasTheKeys(server, obj, [field]);
    DistinctFieldsAreIndependent(server, obj, [field], 0);
    assert Keys([field]) == {field.key};
  }

  /** The top-level fields of the merged operation have distinct response keys (section 5.3.2). */
  lemma MergedKeysAreTheIds(texts: map<string, Fragment>, entries: seq<Entry>, rank: string -> nat, bound: nat)
    requires Mergeable(texts, entries, rank, bound) && entries != []
    ensures DistinctKeys(MergedQuery(texts, entries, rank, bound))
    ensures forall i {:trigger entries[i]} :: 0 <= i < |entries| ==>
              MergedQuery(texts, entries, rank, bound)[i].key == entries[i].id
  {
    forall i | 0 <= i < |entries|
      ensures MergedQuery(texts, entries, rank, bound)[i].QField?
      ensures MergedQuery(texts, entries, rank, bound)[i].key == entries[i].id
    {
      MergedQueryAt(texts, entries, rank, bound, i);
    }
  }

  /** The response of a server to the merged document. */
  ghost function MergedResponse(server: Server, root: int, texts: map<string, Fragment>, entries: seq<Entry>,
                                rank: string -> nat, bound: nat): Option<map<string, Json>>
    requires AddAll(entries).op.Some?
  {
    Respond(server, root, MergedDocument(texts, entries), AddAll(entries).vars, rank, bound)
  }

  lemma {:induction false} MergedFieldAt(server: Server, root: int, texts: map<string, Fragment>, entries: seq<Entry>,
                                         rank: string -> nat, bound: nat, k: nat)
    requires Mergeable(texts, entries, rank, bound) && k < |entries|
    requires FragmentsVarFree(OpOf(entries[k]).sels, Frags(entries[k].defs), rank, bound)
    ensures var data := Execute(server, root, MergedQuery(texts, entries, rank, bound));
            entries[k].id in data
              && data[entries[k].id] == FieldValue(server, root, AloneField(entries[k], rank, bound))
  {
    MergedKeysAreTheIds(texts, entries, rank, bound);
    MergedFieldIsAloneIff(texts, entries, rank, bound, k);
    DistinctFieldsAreIndependent(server, root, MergedQuery(texts, entries, rank, bound), k);
  }

  lemma {:induction false} MergedKeys(server: Server, root: int, texts: map<string, Fragment>, entries: seq<Entry>,
                                      rank: string -> nat,
                                      bound: nat)
    requires Mergeable(texts, entries, rank, bound) && entries != []
    ensures Execute(server, root, MergedQuery(texts, entries, rank, bound)).Keys ==
              set i | 0 <= i < |entries| :: entries[i].id
  {
    var query := MergedQuery(texts, entries, rank, bound);
    MergedKeysAreTheIds(texts, entries, rank, bound);
    ResponseHasTheKeys(server, root, query);
    assert forall i :: 0 <= i < |entries| ==> query[i].key == entries[i].id;
  }

  /** The merged response answers the k-th query as it is answered alone. */
  ghost predicate AnswersAlike(server: Server, root: int, texts: map<string, Fragment>, entries: seq<Entry>,
                               rank: string -> nat, bound: nat, k: nat)
    requires AllSimple(entries) && AddAll(entries).op.Some? && k < |entries|
  {
    var merged := MergedResponse(server, root, texts, entries, rank, bound);
    && merged.Some? && entries[k].id in merged.value
    && AloneResponse(server, root, entries[k], rank, bound) ==
         Some(map[FieldName(entries[k]) := merged.value[entries[k].id]])
  }

  lemma {:induction false} VarFreeAnswersAlike(server: Server, root: int, texts: map<string, Fragment>,
                                               entries: seq<Entry>,
                                               rank: string -> nat, bound: nat, k: nat)
    requires Mergeable(texts, entries, rank, bound) && AllVarFree(entries, rank, bound) && k < |entries|
    ensures AddAll(entries).op.Some? && AnswersAlike(server, root, texts, entries, rank, bound, k)
  {
    VariablesDefinedIff(texts, entries, rank, bound);
    MergedFieldAt(server, root, texts, entries, rank, bound, k);
    AloneResponseIs(server, root, entries[k], rank, bound);
  }

  /**
   Merging preserves meaning, exactly: for any mergeable queries and any server, every query of the
   batch is answered as it is answered alone if and only if no query of the batch has a fragment
   that mentions a variable. Otherwise the merged document is not valid, and no query is answered.
   */
  lemma {:induction false} MergingPreservesMeaningIff(server: Server, root: int, texts: map<string, Fragment>,
                                                      entries: seq<Entry>,
                                                      rank: string -> nat, bound: nat)
    requires Mergeable(texts, entries, rank, bound) && entries != []
    ensures AddAll(entries).op.Some?
    ensures (forall k :: 0 <= k < |entries| ==> AnswersAlike(server, root, texts, entries, rank, bound, k))
            <==> AllVarFree(entries, rank, bound)
    ensures MergedResponse(server, root, texts, entries, rank, bound).Some? <==> AllVarFree(entries, rank, bound)
  {
    VariablesDefinedIff(texts, entries, rank, bound);
    if AllVarFree(entries, rank, bound) {
      forall k | 0 <= k < |entries| {
        VarFreeAnswersAlike(server, root, texts, entries, rank, bound, k);
      }
    } else {
      assert !AnswersAlike(server, root, texts, entries, rank, bound, 0);
    }
  }

  /** And the merged response holds nothing else. */
  lemma {:induction false} MergedResponseHasTheIds(server: Server, root: int, texts: map<string, Fragment>,
                                                   entries: seq<Entry>,
                                                   rank: string -> nat, bound: nat)
    requires Mergeable(texts, entries, rank, bound) && AllVarFree(entries, rank, bound) && entries != []
    ensures AddAll(entries).op.Some? && MergedResponse(server, root, texts, entries, rank, bound).Some?
    ensures MergedResponse(server, root, texts, entries, rank, bound).value.Keys ==
              set i | 0 <= i < |entries| :: entries[i].id
  {
    VariablesDefinedIff(texts, entries, rank, bound);
    MergedKeys(server, root, texts, entries, rank, bound);
  }

  // ---------------------------------------------------------------------------------------
  // A query for which merging goes wrong
  // ---------------------------------------------------------------------------------------

  /** The body of a fragment that mentions a variable. */
  function LeakyFragment(): Fragment {
    Fragment("T", [Field(None, "g", [Member("x", Variable("v"))], [])])
  }

  /** `query Q($v: Int) { f { ...F } }` with that fragment. */
  function LeakyEntry(): Entry {
    Entry("abcdefgh",
          [OperationDef(Operation("Q", [VarDef("v", "Int")], [Field(None, "f", [], [Spread("F")])])),
           FragmentDef("F", LeakyFragment())],
          map["v" := Scalar("1")])
  }

  lemma LeakyDefinitions()
    ensures Ops(LeakyEntry().defs) == [Operation("Q", [VarDef("v", "Int")], [Field(None, "f", [], [Spread("F")])])]
    ensures Frags(LeakyEntry().defs) == map["F" := LeakyFragment()]
    ensures Simple(LeakyEntry().defs) && "v" in Names(OpOf(LeakyEntry()).varDefs)
  {
    var defs := LeakyEntry().defs;
    assert defs[..1][..0] == [] && defs[..1] == [defs[0]];
    assert Ops(defs[..0]) == [] && Frags(defs[..0]) == map[];
    assert Ops(defs[..1]) == [defs[0].op] && Frags(defs[..1]) == map[];
    assert VarDef("v", "Int") in OpOf(LeakyEntry()).varDefs;
  }

  lemma {:induction false} LeakyFragmentUses(names: set<string>, frags: map<string, Fragment>, rank: string -> nat)
    ensures Uses(LeakyFragment().sels, names, frags, rank, 0) <==> "v" in names
  {
    var g := LeakyFragment().sels;
    assert MembersUse([Member("x", Variable("v"))], names) <==> ValueUses([Member("x", Variable("v"))][0].value, names);
    assert UsesOne(g[0], names, frags, rank, 0) <==> "v" in names;
  }

  lemma LeakyEntryIsValid()
    ensures ValidEntry(LeakyEntry(), (f: string) => 0, 1)
    ensures !FragmentsVarFree(OpOf(LeakyEntry()).sels, Frags(LeakyEntry().defs), (f: string) => 0, 1)
  {
    LeakyDefinitions();
    var frags, rank := Frags(LeakyEntry().defs), (f: string) => 0;
    var inner, names := [Spread("F")], Names(OpOf(LeakyEntry()).varDefs);
    LeakyFragmentUses(names, frags, rank);
    LeakyFragmentUses({}, frags, rank);
    assert UsesOne(inner[0], names, frags, rank, 1) && !FragmentVarFree(inner[0], frags, rank, 1);
  }

  lemma LeakyEntryIsMergeable()
    ensures Mergeable(map[], [LeakyEntry()], (f: string) => 0, 1)
  {
    var e := LeakyEntry();
    LeakyDefinitions();
    LeakyEntryIsValid();
    forall name, rest | name in Names(OpOf(e).varDefs)
      ensures name != Prefixed(e.id, rest)
    {
      assert name == "v" && |Prefixed(e.id, rest)| >= 9;
    }
  }

  /** Merged, even alone, it asks something else than it asks unmerged. */
  lemma FragmentVariablesAreLost()
    ensures var e, rank := LeakyEntry(), (f: string) => 0;
            && Mergeable(map[], [e], rank, 1)
            && MergedQuery(map[], [e], rank, 1)[0] != Rekeyed(AloneField(e, rank, 1), e.id)
  {
    LeakyEntryIsMergeable();
    LeakyEntryIsValid();
    MergedFieldIsAloneIff(map[], [LeakyEntry()], (f: string) => 0, 1, 0);
  }

  /** A server on which `f` is an object whose `g` answers exactly when its argument is 1. */
  function PickyServer(): Server {
    Server((obj: int, name: string, args: seq<GMember>) =>
             if name == "f" then ObjectNode(1)
             else if args == [GMember("x", GLeaf(Scalar("1")))] then LeafNode(Scalar("yes")) else NullNode,
           (obj: int, on: string) => true)
  }

  /** The leaky field under its spread, with the argument the variable was replaced by. */
  function LeakyField(key: string, x: Json): Query {
    QField(key, "f", [], [QInline("T", [QField("g", "g", [GMember("x", GLeaf(x))], [])])])
  }

  lemma LeakyAnswer(key: string, x: Json)
    ensures FieldValue(PickyServer(), 0, LeakyField(key, x)) ==
            Object(map["g" := if x == Scalar("1") then Scalar("yes") else Null])
  {
    var g := QField("g", "g", [GMember("x", GLeaf(x))], []);
    var inner := [QInline("T", [g])];
    assert inner[1..] == [] && Collect(PickyServer(), 1, inner) == Collect(PickyServer(), 1, [g]) + [];
    assert Execute(PickyServer(), 1, inner) == Execute(PickyServer(), 1, [g]);
    OneFieldIsAnswered(PickyServer(), 1, g);
  }

  lemma {:induction false} LeakyElaboration(alias: Option<string>, vars: map<string, Json>,
                                            frags: map<string, Fragment>)
    requires "F" in frags && frags["F"] == LeakyFragment()
    ensures ElabOne(Field(alias, "f", [], [Spread("F")]), vars, frags, (f: string) => 0, 1)
            == LeakyField(ResponseKey(alias, "f"), Lookup(vars, "v"))
  {
    var rank, sels := (f: string) => 0, LeakyFragment().sels;
    var body := Elab(sels, vars, frags, rank, 0);
    assert body == [ElabOne(sels[0], vars, frags, rank, 0)];
    assert EvalMembers([Member("x", Variable("v"))], vars) == [GMember("x", GLeaf(Lookup(vars, "v")))];
    assert body == [QField("g", "g", [GMember("x", GLeaf(Lookup(vars, "v")))], [])];
    assert Elab([Spread("F")], vars, frags, rank, 1) == [QInline("T", body)];
  }

  lemma LeakyAlone()
    ensures Simple(LeakyEntry().defs) && AloneField(LeakyEntry(), (f: string) => 0, 1) == LeakyField("f", Scalar("1"))
  {
    LeakyDefinitions();
    LeakyEntryIsValid();
    LeakyElaboration(None, LeakyEntry().vars, Frags(LeakyEntry().defs));
  }

  lemma LeakyIsLost()
    ensures AllSimple([LeakyEntry()]) && AddAll([LeakyEntry()]).op.Some?
    ensures Lookup(AddAll([LeakyEntry()]).vars, "v") == Absent
    ensures "F" in MergedDocument(map[], [LeakyEntry()]).frags
    ensures MergedDocument(map[], [LeakyEntry()]).frags["F"] == LeakyFragment()
  {
    var entries := [LeakyEntry()];
    LeakyDefinitions();
    LeakyEntryIsMergeable();
    BuiltSelections(entries);
    BuiltFragments(entries, 0);
    AllTextsExtend(map[], entries, 0);
    UnprefixedIsAbsent(entries, 0, "v");
  }

  lemma LeakyMergedField()
    ensures Simple(LeakyEntry().defs) && MergedField(LeakyEntry()) == Field(Some("abcdefgh"), "f", [], [Spread("F")])
  {
    LeakyDefinitions();
    var renaming := Renaming("abcdefgh", OpOf(LeakyEntry()).varDefs);
    assert Rename([Spread("F")], renaming) == [Spread("F")];
  }

  lemma LeakyMerged()
    ensures AllSimple([LeakyEntry()]) && AddAll([LeakyEntry()]).op.Some?
    ensures MergedQuery(map[], [LeakyEntry()], (f: string) => 0, 1)[0] == LeakyField("abcdefgh", Absent)
  {
    var entries := [LeakyEntry()];
    LeakyIsLost();
    LeakyMergedField();
    MergedQueryAt(map[], entries, (f: string) => 0, 1, 0);
    LeakyElaboration(Some("abcdefgh"), AddAll(entries).vars, MergedDocument(map[], entries).frags);
  }

  /**
   Servers reject the merged document of that query. One that executed it nevertheless could answer
   it differently from the query alone.
   */
  lemma LostVariablesChangeTheAnswer(server: Server, root: int)
    ensures var e, rank := LeakyEntry(), (f: string) => 0;
            && Simple(e.defs) && AllSimple([e]) && AddAll([e]).op.Some?
            && AloneResponse(server, root, e, rank, 1).Some?
            && MergedResponse(server, root, map[], [e], rank, 1) == None
            && FieldValue(PickyServer(), 0, MergedQuery(map[], [e], rank, 1)[0])
               != FieldValue(PickyServer(), 0, AloneField(e, rank, 1))
  {
    var e, rank := LeakyEntry(), (f: string) => 0;
    LeakyEntryIsValid();
    LeakyEntryIsMergeable();
    AloneResponseIs(server, root, e, rank, 1);
    VariablesDefinedIff(map[], [e], rank, 1);
    LeakyAlone();
    LeakyMerged();
    LeakyAnswer("f", Scalar("1"));
    LeakyAnswer("abcdefgh", Absent);
    assert map["g" := Scalar("yes")]["g"] != map["g" := Null]["g"];
  }
}
