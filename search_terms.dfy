/**
 * Search terms of emmaa/priors/__init__.py: the `SearchTerm` value with its
 * JSON form, equality, hash key and text form, and `get_drugs_for_gene`.
 */
module SearchTerms {
  import opened Wrappers
  import opened Strings
  import opened JsonValues
  import opened Indra

  /**
   * A search term: its type (`gene`, `drug`, `other`, ...), its name, its
   * database references and the text used for literature search (`None`
   * for terms that are not searched by text).
   */
  datatype SearchTerm = SearchTerm(stype: string, name: string, dbRefs: map<string, string>, searchTerm: Option<string>)

  /** The four keys of a search term's JSON form. */
  const JsonKeys: set<string> := {"type", "name", "db_refs", "search_term"}

  function RefsToJson(refs: map<string, string>): (j: Json)
    ensures j.JObj? && j.fields.Keys == refs.Keys
    ensures forall k :: k in refs ==> j.fields[k] == JStr(refs[k])
  {
    JObj(map k | k in refs :: JStr(refs[k]))
  }

  /** `to_json`: a dictionary with exactly the keys `type`, `name`, `db_refs`, `search_term`. */
  function ToJson(t: SearchTerm): (j: Json)
    ensures j.JObj? && j.fields.Keys == JsonKeys
    ensures j.fields["type"] == JStr(t.stype) && j.fields["name"] == JStr(t.name)
    ensures j.fields["search_term"] == OptStr(t.searchTerm)
  {
    JObj(map["type" := JStr(t.stype), "name" := JStr(t.name),
             "db_refs" := RefsToJson(t.dbRefs), "search_term" := OptStr(t.searchTerm)])
  }

  predicate AllStrings(fields: map<string, Json>)
  {
    forall k :: k in fields ==> fields[k].JStr?
  }

  /**
   * `from_json`: `SearchTerm(**jd)`. A dictionary whose keys are not exactly
   * the four constructor parameters raises `TypeError`.
   */
  function FromJson(j: Json): (r: Result<SearchTerm>)
    ensures !j.JObj? || j.fields.Keys != JsonKeys ==> r == Err(TypeError)
    ensures r.Ok? ==> j.fields["type"] == JStr(r.value.stype) && j.fields["name"] == JStr(r.value.name)
                      && j.fields["search_term"] == OptStr(r.value.searchTerm)
    ensures r.Err? ==> r.error == TypeError
  {
    if !j.JObj? || j.fields.Keys != JsonKeys then Err(TypeError)
    else
      var f := j.fields;
      if !f["type"].JStr? || !f["name"].JStr? || !f["db_refs"].JObj? || !AllStrings(f["db_refs"].fields)
        || !(f["search_term"].JStr? || f["search_term"].JNull?)
      then Err(TypeError)
      else
        var refs := map k | k in f["db_refs"].fields :: f["db_refs"].fields[k].s;
        var st := if f["search_term"].JStr? then Some(f["search_term"].s) else None;
        Ok(SearchTerm(f["type"].s, f["name"].s, refs, st))
  }

  /** Reading back the JSON form of a term gives the term. */
  lemma FromJsonToJson(t: SearchTerm)
    ensures FromJson(ToJson(t)) == Ok(t)
  {
    var f := ToJson(t).fields;
    var refs := map k | k in f["db_refs"].fields :: f["db_refs"].fields[k].s;
    assert refs == t.dbRefs;
  }

  /** Whatever `from_json` accepts is the JSON form of the term it returns. */
  lemma ToJsonFromJson(j: Json)
    requires FromJson(j).Ok?
    ensures ToJson(FromJson(j).value) == j
  {
    var t := FromJson(j).value;
    var f := j.fields;
    assert RefsToJson(t.dbRefs) == f["db_refs"];
    assert OptStr(t.searchTerm) == f["search_term"];
    assert ToJson(t).fields == f;
  }

  /** A dictionary missing one of the four keys is refused. */
  lemma FromJsonMissingKey(fields: map<string, Json>, k: string)
    requires k in JsonKeys && k !in fields
    ensures FromJson(JObj(fields)) == Err(TypeError)
  {
  }

  /** `__eq__`: the four fields are compared. */
  predicate Equal(a: SearchTerm, b: SearchTerm)
  {
    a.stype == b.stype && a.name == b.name && a.dbRefs == b.dbRefs && a.searchTerm == b.searchTerm
  }

  /** `__str__`: `SearchTerm({type}, {name})`. */
  function Str(t: SearchTerm): string
  {
    "SearchTerm(" + t.stype + ", " + t.name + ")"
  }

  /** The text form shows only the type and the name. */
  lemma StrIgnoresRefsAndText(a: SearchTerm, b: SearchTerm)
    requires a.stype == b.stype && a.name == b.name
    ensures Str(a) == Str(b)
  {
  }

  // ---------------------------------------------------------------------
  // The hash key: (type, name, tuple(sorted(db_refs.items())), search_term)
  // ---------------------------------------------------------------------

  lemma LeastKeyExists(keys: set<string>)
    requires keys != {}
    ensures exists k :: k in keys && forall k' :: k' in keys ==> LexLeq(k, k')
    decreases |keys|
  {
    var x :| x in keys;
    if keys != {x} {
      var rest := keys - {x};
      LeastKeyExists(rest);
      var m :| m in rest && forall k' :: k' in rest ==> LexLeq(m, k');
      LexTrichotomy(x, m);
      if LexLess(x, m) {
        forall k' | k' in keys ensures LexLeq(x, k') {
          if k' != x && k' != m {
            assert k' in rest && LexLess(m, k');
            LexTransitive(x, m, k');
          }
        }
      } else {
        assert LexLeq(m, x);
      }
    } else {
      LexLessIrreflexive(x);
    }
  }

  /** The least key of a non-empty dictionary in code-point order. */
  ghost function LeastKey(m: map<string, string>): (k: string)
    requires |m| > 0
    ensures k in m && forall k' :: k' in m ==> LexLeq(k, k')
  {
    assert m.Keys != {} by { var x :| x in m; }
    LeastKeyExists(m.Keys);
    var k :| k in m && forall k' :: k' in m ==> LexLeq(k, k');
    k
  }

  /** `sorted(d.items())`: the items in increasing key order. */
  ghost function SortedItems(m: map<string, string>): (items: seq<(string, string)>)
    decreases |m|
  {
    if |m| == 0 then []
    else
      var k := LeastKey(m);
      [(k, m[k])] + SortedItems(m - {k})
  }

  /** The sorted items are exactly the dictionary's items. */
  lemma {:induction false} SortedItemsAreItems(m: map<string, string>)
    ensures var items := SortedItems(m);
      (forall i :: 0 <= i < |items| ==> items[i].0 in m && m[items[i].0] == items[i].1)
      && (forall k :: k in m ==> (k, m[k]) in items)
    decreases |m|
  {
    if |m| > 0 {
      var k := LeastKey(m);
      var m' := m - {k};
      var rest := SortedItems(m');
      SortedItemsAreItems(m');
      var items := SortedItems(m);
      assert items == [(k, m[k])] + rest;
      forall i | 0 <= i < |items| ensures items[i].0 in m && m[items[i].0] == items[i].1 {
        if i > 0 { assert items[i] == rest[i - 1]; }
      }
      forall k' | k' in m ensures (k', m[k']) in items {
        if k' != k {
          assert k' in m' && m'[k'] == m[k'];
          assert (k', m[k']) in rest;
        }
      }
    }
  }

  predicate KeysIncreasing(items: seq<(string, string)>)
  {
    forall i, j :: 0 <= i < j < |items| ==> LexLess(items[i].0, items[j].0)
  }

  lemma ConsIncreasing(x: (string, string), rest: seq<(string, string)>)
    requires KeysIncreasing(rest)
    requires forall j :: 0 <= j < |rest| ==> LexLess(x.0, rest[j].0)
    ensures KeysIncreasing([x] + rest)
  {
    var items := [x] + rest;
    forall i, j | 0 <= i < j < |items| ensures LexLess(items[i].0, items[j].0) {
      assert items[j] == rest[j - 1];
      if i > 0 {
        assert items[i] == rest[i - 1];
      }
    }
  }

  /** The sorted items come in strictly increasing key order. */
  lemma {:induction false} SortedItemsIncreasing(m: map<string, string>)
    ensures KeysIncreasing(SortedItems(m))
    decreases |m|
  {
    if |m| > 0 {
      var k := LeastKey(m);
      var m' := m - {k};
      var rest := SortedItems(m');
      SortedItemsIncreasing(m');
      SortedItemsAreItems(m');
      forall j | 0 <= j < |rest| ensures LexLess(k, rest[j].0) {
        var kj := rest[j].0;
        assert kj in m' && kj in m && kj != k;
        assert LexLeq(k, kj);
      }
      ConsIncreasing((k, m[k]), rest);
      assert SortedItems(m) == [(k, m[k])] + rest;
    }
  }

  /** The tuple `__hash__` hashes. */
  datatype HashKey = HashKey(stype: string, name: string, items: seq<(string, string)>, searchTerm: Option<string>)

  ghost function HashKeyOf(t: SearchTerm): HashKey
  {
    HashKey(t.stype, t.name, SortedItems(t.dbRefs), t.searchTerm)
  }

  /**
   * Terms that are equal under `__eq__` have the same hash key, and terms with
   * the same hash key are equal: the hash is consistent with equality and
   * the key loses no information.
   */
  lemma SortedItemsInjective(m1: map<string, string>, m2: map<string, string>)
    requires SortedItems(m1) == SortedItems(m2)
    ensures m1 == m2
  {
    var items := SortedItems(m1);
    SortedItemsAreItems(m1);
    SortedItemsAreItems(m2);
    forall k | k in m1 ensures k in m2 && m2[k] == m1[k] {
      assert (k, m1[k]) in items;
      var i :| 0 <= i < |items| && items[i] == (k, m1[k]);
    }
    forall k | k in m2 ensures k in m1 {
      assert (k, m2[k]) in items;
      var i :| 0 <= i < |items| && items[i] == (k, m2[k]);
    }
  }

  lemma HashKeyMatchesEquality(a: SearchTerm, b: SearchTerm)
    ensures Equal(a, b) <==> HashKeyOf(a) == HashKeyOf(b)
    ensures Equal(a, b) <==> a == b
  {
    if HashKeyOf(a) == HashKeyOf(b) {
      SortedItemsInjective(a.dbRefs, b.dbRefs);
    }
  }

  // ---------------------------------------------------------------------
  // get_drugs_for_gene
  // ---------------------------------------------------------------------

  /** The drug term made from a drug-target statement's subject. */
  function DrugTerm(drug: Agent): SearchTerm
  {
    SearchTerm("drug", drug.name, drug.dbRefs, Some("\"" + drug.name + "\""))
  }

  /** `stmt.obj.db_refs.get('HGNC') == hgnc_id`. */
  function TargetsGene(s: Statement, hgncId: Option<string>): Result<bool>
  {
    var obj := Obj(s);
    if obj.Err? then Err(obj.error)
    else Ok((if "HGNC" in obj.value.dbRefs then Some(obj.value.dbRefs["HGNC"]) else None) == hgncId)
  }

  /** The terms `get_drugs_for_gene` lists, one per matching statement in order. */
  function DrugsForGene(stmts: seq<Statement>, hgncId: Option<string>): Result<seq<SearchTerm>>
  {
    if |stmts| == 0 then Ok([])
    else
      var m := TargetsGene(stmts[0], hgncId);
      if m.Err? then Err(m.error)
      else if !m.value then DrugsForGene(stmts[1..], hgncId)
      else
        var subj := Subj(stmts[0]);
        if subj.Err? then Err(subj.error)
        else
          var rest := DrugsForGene(stmts[1..], hgncId);
          if rest.Err? then rest else Ok([DrugTerm(subj.value)] + rest.value)
  }

  /** A result with `prefix` put in front of its list; an error stays the error. */
  function Prepend(prefix: seq<SearchTerm>, r: Result<seq<SearchTerm>>): Result<seq<SearchTerm>>
  {
    if r.Err? then r else Ok(prefix + r.value)
  }

  /**
   * `get_drugs_for_gene(stmts, hgnc_id)`: one `drug` term per statement
   * whose object carries the HGNC id, in statement order, without
   * de-duplication.
   */
  method GetDrugsForGene(stmts: seq<Statement>, hgncId: Option<string>) returns (r: Result<seq<SearchTerm>>)
    ensures r == DrugsForGene(stmts, hgncId)
  {
    var drugs: seq<SearchTerm> := [];
    var i := 0;
    assert stmts[0..] == stmts;
    ghost var all := DrugsForGene(stmts, hgncId);
    if all.Ok? { assert drugs + all.value == all.value; }
    while i < |stmts|
      invariant 0 <= i <= |stmts|
      invariant DrugsForGene(stmts, hgncId) == Prepend(drugs, DrugsForGene(stmts[i..], hgncId))
    {
      assert stmts[i..][1..] == stmts[i + 1..];
      ghost var rest := DrugsForGene(stmts[i + 1..], hgncId);
      var m := TargetsGene(stmts[i], hgncId);
      if m.Err? {
        return Err(m.error);
      }
      if m.value {
        var subj := Subj(stmts[i]);
        if subj.Err? {
          return Err(subj.error);
        }
        if rest.Ok? {
          assert drugs + ([DrugTerm(subj.value)] + rest.value) == (drugs + [DrugTerm(subj.value)]) + rest.value;
        }
        drugs := drugs + [DrugTerm(subj.value)];
      }
      i := i + 1;
    }
    assert stmts[i..] == [];
    assert drugs + [] == drugs;
    r := Ok(drugs);
  }

  /** Every listed term is a `drug` term searched by its quoted name. */
  lemma {:induction false} DrugsForGeneShape(stmts: seq<Statement>, hgncId: Option<string>)
    requires DrugsForGene(stmts, hgncId).Ok?
    ensures var ts := DrugsForGene(stmts, hgncId).value;
      |ts| <= |stmts| &&
      forall i :: 0 <= i < |ts| ==> ts[i].stype == "drug" && ts[i].searchTerm == Some("\"" + ts[i].name + "\"")
  {
    if |stmts| > 0 { DrugsForGeneShape(stmts[1..], hgncId); }
  }

  /**
   * The listed terms are exactly the drug terms of the subjects of the
   * statements that target the gene.
   */
  lemma {:induction false} DrugsForGeneMembers(stmts: seq<Statement>, hgncId: Option<string>)
    requires DrugsForGene(stmts, hgncId).Ok?
    ensures forall j :: 0 <= j < |stmts| && TargetsGene(stmts[j], hgncId) == Ok(true) ==>
      Subj(stmts[j]).Ok? && DrugTerm(Subj(stmts[j]).value) in DrugsForGene(stmts, hgncId).value
    ensures forall t :: t in DrugsForGene(stmts, hgncId).value ==>
      exists j :: (0 <= j < |stmts| && TargetsGene(stmts[j], hgncId) == Ok(true) && Subj(stmts[j]).Ok?
                   && t == DrugTerm(Subj(stmts[j]).value))
  {
    if |stmts| > 0 {
      var rest := stmts[1..];
      DrugsForGeneMembers(rest, hgncId);
      forall j | 0 < j < |stmts| ensures stmts[j] == rest[j - 1] { }
      var ts := DrugsForGene(stmts, hgncId).value;
      var tsRest := DrugsForGene(rest, hgncId).value;
      forall t | t in ts
        ensures exists j :: (0 <= j < |stmts| && TargetsGene(stmts[j], hgncId) == Ok(true) && Subj(stmts[j]).Ok?
                               && t == DrugTerm(Subj(stmts[j]).value))
      {
        if t in tsRest {
          var k :| 0 <= k < |rest| && TargetsGene(rest[k], hgncId) == Ok(true) && Subj(rest[k]).Ok?
            && t == DrugTerm(Subj(rest[k]).value);
          assert stmts[k + 1] == rest[k];
        } else {
          assert TargetsGene(stmts[0], hgncId) == Ok(true);
        }
      }
    }
  }

  /** Two statements with the same drug and target yield the same term twice. */
  lemma DrugsForGeneKeepsDuplicates(s: Statement, hgncId: string)
    requires Obj(s).Ok? && Subj(s).Ok?
    requires "HGNC" in Obj(s).value.dbRefs && Obj(s).value.dbRefs["HGNC"] == hgncId
    ensures DrugsForGene([s, s], Some(hgncId)) == Ok([DrugTerm(Subj(s).value), DrugTerm(Subj(s).value)])
  {
    assert [s, s][1..] == [s];
    assert [s][1..] == [];
    assert TargetsGene(s, Some(hgncId)) == Ok(true);
    assert [DrugTerm(Subj(s).value)] + [] == [DrugTerm(Subj(s).value)];
    var t := DrugTerm(Subj(s).value);
    assert DrugsForGene([s], Some(hgncId)) == Ok([t]);
    assert [t] + [t] == [t, t];
  }
}
