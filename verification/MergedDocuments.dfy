/**
 What a merged document consists of: exactly the fragments, variable declarations and values of its
 queries, under the name of the first.
 */
module MergedDocuments {
  import opened Options
  import opened GraphQL
  import opened QueryMerging

  // ---------------------------------------------------------------------------------------
  // Fragments
  // ---------------------------------------------------------------------------------------

  /** The definitions define a fragment with the name. */
  ghost predicate Defines(defs: seq<Definition>, f: string) {
    exists d :: 0 <= d < |defs| && defs[d].FragmentDef? && defs[d].name == f
  }

  /** The fragments of a document are those it defines, each with the first body given for it. */
  lemma {:induction false} FragsAre(defs: seq<Definition>, f: string)
    ensures f in Frags(defs) <==> Defines(defs, f)
    ensures forall d ::
              (0 <= d < |defs| && defs[d].FragmentDef? && defs[d].name == f
               && forall c :: 0 <= c < d ==> !(defs[c].FragmentDef? && defs[c].name == f))
              ==> f in Frags(defs) && Frags(defs)[f] == defs[d].fragment
  {
    if defs != [] {
      var n := |defs| - 1;
      var front := defs[..n];
      FragsAre(front, f);
      assert forall d :: 0 <= d < n ==> front[d] == defs[d];
      if d :| 0 <= d < |front| && front[d].FragmentDef? && front[d].name == f {
        assert defs[d].FragmentDef? && defs[d].name == f;
      }
    }
  }

  /** The builder notes the fragments of every query, and no others. */
  lemma {:induction false} NotedFragmentsAre(entries: seq<Entry>, f: string)
    requires AllSimple(entries)
    ensures f in AddAll(entries).fragments <==> exists k :: 0 <= k < |entries| && Defines(entries[k].defs, f)
  {
    if entries != [] {
      var n := |entries| - 1;
      BuiltNext(entries);
      NotedFragmentsAre(entries[..n], f);
      FragsAre(entries[n].defs, f);
      assert forall k :: 0 <= k < n ==> entries[..n][k] == entries[k];
    }
  }

  /** Their bodies have been printed. */
  lemma {:induction false} NotedIsPrinted(texts: map<string, Fragment>, entries: seq<Entry>, k: nat, f: string)
    requires k < |entries| && Defines(entries[k].defs, f)
    ensures f in AllTexts(texts, entries)
  {
    var n := |entries| - 1;
    var known := AllTexts(texts, entries[..n]);
    TextsKeep(known, entries[n].defs);
    if k < n {
      NotedIsPrinted(texts, entries[..n], k, f);
    } else {
      FragsAre(entries[n].defs, f);
    }
  }

  /** The merged document carries exactly the fragments that its queries define, whatever else was printed before. */
  lemma {:induction false} FragmentsAreThose(texts: map<string, Fragment>, entries: seq<Entry>, f: string)
    requires AllSimple(entries) && entries != []
    ensures AddAll(entries).op.Some?
    ensures f in MergedDocument(texts, entries).frags <==>
            exists k, d :: 0 <= k < |entries| && 0 <= d < |entries[k].defs|
                           && entries[k].defs[d].FragmentDef? && entries[k].defs[d].name == f
  {
    BuiltSelections(entries);
    NotedFragmentsAre(entries, f);
    if k :| 0 <= k < |entries| && Defines(entries[k].defs, f) {
      NotedIsPrinted(texts, entries, k, f);
      var d :| 0 <= d < |entries[k].defs| && entries[k].defs[d].FragmentDef? && entries[k].defs[d].name == f;
    }
    if k, d :| 0 <= k < |entries| && 0 <= d < |entries[k].defs|
               && entries[k].defs[d].FragmentDef? && entries[k].defs[d].name == f {
      assert Defines(entries[k].defs, f);
    }
  }

  lemma {:induction false} PrintedStays(texts: map<string, Fragment>, entries: seq<Entry>)
    ensures Extends(AllTexts(texts, entries), texts)
  {
    if entries != [] {
      PrintedStays(texts, entries[..|entries| - 1]);
      TextsKeep(AllTexts(texts, entries[..|entries| - 1]), entries[|entries| - 1].defs);
    }
  }

  /** A body once printed is the one that is sent from then on. */
  lemma {:induction false} FirstPrintedIsSent(texts: map<string, Fragment>, entries: seq<Entry>, f: string)
    requires AllSimple(entries) && entries != [] && f in texts
    ensures AddAll(entries).op.Some?
    ensures f in MergedDocument(texts, entries).frags ==> MergedDocument(texts, entries).frags[f] == texts[f]
  {
    BuiltSelections(entries);
    PrintedStays(texts, entries);
  }

  // ---------------------------------------------------------------------------------------
  // Variables
  // ---------------------------------------------------------------------------------------

  /** The values that are sent are those supplied for the variables of the queries, or null, and no others. */
  lemma {:induction false} ValuesAreThose(entries: seq<Entry>)
    requires FreshIds(entries)
    ensures forall k, v :: 0 <= k < |entries| && v in Ops(entries[k].defs)[0].varDefs ==>
              && entries[k].id + "_" + v.name in AddAll(entries).vars
              && AddAll(entries).vars[entries[k].id + "_" + v.name] ==
                 if v.name in entries[k].vars then entries[k].vars[v.name] else Null
    ensures forall key :: key in AddAll(entries).vars ==>
              exists k, v :: 0 <= k < |entries| && v in Ops(entries[k].defs)[0].varDefs
                             && key == entries[k].id + "_" + v.name
  {
    forall k, v | 0 <= k < |entries| && v in Ops(entries[k].defs)[0].varDefs
      ensures entries[k].id + "_" + v.name in AddAll(entries).vars
      ensures AddAll(entries).vars[entries[k].id + "_" + v.name] ==
              if v.name in entries[k].vars then entries[k].vars[v.name] else Null
    {
      assert v.name in Names(OpOf(entries[k]).varDefs);
      BuiltVars(entries, k, v.name);
      assert Prefixed(entries[k].id, v.name) == entries[k].id + "_" + v.name;
    }
    forall key | key in AddAll(entries).vars
      ensures exists k, v :: 0 <= k < |entries| && v in Ops(entries[k].defs)[0].varDefs
                             && key == entries[k].id + "_" + v.name
    {
      var k, v := ValueOf(entries, key);
    }
  }

  lemma {:induction false} ValueOf(entries: seq<Entry>, key: string) returns (k: nat, v: VarDef)
    requires AllSimple(entries) && key in AddAll(entries).vars
    ensures k < |entries| && v in Ops(entries[k].defs)[0].varDefs && key == entries[k].id + "_" + v.name
  {
    k := |entries| - 1;
    var e, before := entries[k], entries[..k];
    BuiltNext(entries);
    AddVarsAdds(AddAll(before).vars, e.id, OpOf(e).varDefs, e.vars);
    if key in AddAll(before).vars {
      k, v := ValueOf(before, key);
    } else {
      var name :| name in Names(OpOf(e).varDefs) && key == Prefixed(e.id, name);
      v :| v in OpOf(e).varDefs && v.name == name;
    }
  }

  /** The variables declared are those of the queries, prefixed, each with its own type, and no others. */
  lemma {:induction false} DeclarationsAreThose(entries: seq<Entry>, d: VarDef)
    requires AllSimple(entries) && entries != []
    ensures AddAll(entries).op.Some?
    ensures d in AddAll(entries).op.value.varDefs <==>
            exists k, v :: 0 <= k < |entries| && v in Ops(entries[k].defs)[0].varDefs
                           && d == VarDef(entries[k].id + "_" + v.name, v.typ)
  {
    BuiltSelections(entries);
    if d in Declared(entries) { var k, v := DeclarationOf(entries, d); }
    if k, v :| 0 <= k < |entries| && v in Ops(entries[k].defs)[0].varDefs
               && d == VarDef(entries[k].id + "_" + v.name, v.typ) {
      DeclarationIsThere(entries, k, v);
    }
  }

  lemma OwnDeclaration(id: string, varDefs: seq<VarDef>, d: VarDef) returns (v: VarDef)
    requires d in PrefixedDefs(id, varDefs)
    ensures v in varDefs && d == VarDef(id + "_" + v.name, v.typ)
  {
    var own := PrefixedDefs(id, varDefs);
    var i :| 0 <= i < |own| && own[i] == d;
    v := varDefs[i];
  }

  lemma DeclaredEarlierOrLast(entries: seq<Entry>, d: VarDef)
    requires AllSimple(entries) && entries != [] && d in Declared(entries)
    ensures var n := |entries| - 1;
            d in Declared(entries[..n]) || d in PrefixedDefs(entries[n].id, OpOf(entries[n]).varDefs)
  {
    DeclaredNext(entries);
  }

  lemma {:induction false} DeclarationOf(entries: seq<Entry>, d: VarDef) returns (k: nat, v: VarDef)
    requires AllSimple(entries) && d in Declared(entries)
    ensures k < |entries| && v in Ops(entries[k].defs)[0].varDefs
    ensures d == VarDef(entries[k].id + "_" + v.name, v.typ)
  {
    k := |entries| - 1;
    DeclaredEarlierOrLast(entries, d);
    if d in PrefixedDefs(entries[k].id, OpOf(entries[k]).varDefs) {
      v := OwnDeclaration(entries[k].id, OpOf(entries[k]).varDefs, d);
    } else {
      k, v := DeclarationOf(entries[..k], d);
    }
  }

  lemma {:induction false} DeclarationIsThere(entries: seq<Entry>, k: nat, v: VarDef)
    requires AllSimple(entries) && k < |entries| && v in Ops(entries[k].defs)[0].varDefs
    ensures VarDef(entries[k].id + "_" + v.name, v.typ) in Declared(entries)
  {
    var n := |entries| - 1;
    DeclaredNext(entries);
    if k < n {
      DeclarationIsThere(entries[..n], k, v);
    } else {
      var own := PrefixedDefs(entries[k].id, OpOf(entries[k]).varDefs);
      var i :| 0 <= i < |OpOf(entries[k]).varDefs| && OpOf(entries[k]).varDefs[i] == v;
      assert own[i] == VarDef(entries[k].id + "_" + v.name, v.typ);
    }
  }

  // ---------------------------------------------------------------------------------------
  // The operation
  // ---------------------------------------------------------------------------------------

  /** The merged operation goes by the name of the first query. */
  lemma {:induction false} NameIsTheFirst(entries: seq<Entry>)
    requires AllSimple(entries) && entries != []
    ensures AddAll(entries).op.Some? && AddAll(entries).op.value.name == Ops(entries[0].defs)[0].name
  {
    var n := |entries| - 1;
    BuiltSelections(entries);
    BuiltNext(entries);
    if n > 0 { NameIsTheFirst(entries[..n]); }
  }

  /**
   It selects, in the order of the queries, the one field of each, under the id of the query as alias.
   */
  lemma {:induction false} FieldsAreThose(entries: seq<Entry>, k: nat)
    requires AllSimple(entries) && k < |entries|
    ensures AddAll(entries).op.Some? && |AddAll(entries).op.value.sels| == |entries|
    ensures var sel := AddAll(entries).op.value.sels[k];
            && sel.Field? && sel.alias == Some(entries[k].id) && sel.name == Ops(entries[k].defs)[0].sels[0].name
  {
    BuiltSelections(entries);
    MergedFieldIsAliased(entries[k]);
    var op := OpOf(entries[k]);
    assert Rename(op.sels, Renaming(entries[k].id, op.varDefs))[0]
        == RenameOne(op.sels[0], Renaming(entries[k].id, op.varDefs));
  }
}
