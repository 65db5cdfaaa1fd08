/**
 * emmaa/priors/reactome_prior.py: a prior made of every gene that shares a
 * human Reactome pathway with one of the given genes, the drugs that target
 * a list of genes, and the parse of Reactome's reference-entity answer. The
 * HGNC, UniProt and Reactome services, and the TAS statements, are
 * parameters.
 */
module ReactomePriors {
  import opened Wrappers
  import opened Strings
  import opened Indra
  import opened SearchTerms

  // ---------------------------------------------------------------------
  // sorted(..., key=lambda x: x.name)
  // ---------------------------------------------------------------------

  /** The names never decrease along the list. */
  predicate SortedByName(ts: seq<SearchTerm>)
  {
    forall i, j :: 0 <= i < j < |ts| ==> !LexLess(ts[j].name, ts[i].name)
  }

  /** `t` placed before the first term whose name is greater, so that equal names keep their order. */
  function InsertByName(t: SearchTerm, ts: seq<SearchTerm>): (r: seq<SearchTerm>)
    ensures multiset(r) == multiset(ts) + multiset{t}
  {
    if |ts| == 0 then [t]
    else if LexLess(t.name, ts[0].name) then [t] + ts
    else
      assert ts == [ts[0]] + ts[1..];
      [ts[0]] + InsertByName(t, ts[1..])
  }

  /** A stable insertion sort on names, as Python's `sorted` with a name key. */
  function SortByName(ts: seq<SearchTerm>): (r: seq<SearchTerm>)
    ensures multiset(r) == multiset(ts)
  {
    if |ts| == 0 then []
    else
      assert ts == ts[..|ts| - 1] + [ts[|ts| - 1]];
      InsertByName(ts[|ts| - 1], SortByName(ts[..|ts| - 1]))
  }

  lemma {:induction false} InsertSorted(t: SearchTerm, ts: seq<SearchTerm>)
    requires SortedByName(ts)
    ensures SortedByName(InsertByName(t, ts))
    decreases |ts|
  {
    if |ts| == 0 {
    } else if LexLess(t.name, ts[0].name) {
      var r := [t] + ts;
      forall j | 1 <= j < |r| ensures !LexLess(r[j].name, t.name) {
        if r[j].name != ts[0].name {
          LexTrichotomy(r[j].name, ts[0].name);
          LexTransitive(t.name, ts[0].name, r[j].name);
        }
        LexTrichotomy(t.name, r[j].name);
      }
    } else {
      var rest := InsertByName(t, ts[1..]);
      InsertSorted(t, ts[1..]);
      var r := [ts[0]] + rest;
      forall j | 1 <= j < |r| ensures !LexLess(r[j].name, ts[0].name) {
        assert r[j] in multiset(rest);
        if r[j] != t {
          assert r[j] in multiset(ts[1..]);
          var k :| 0 <= k < |ts[1..]| && ts[1..][k] == r[j];
          assert ts[k + 1] == r[j];
        }
      }
    }
  }

  /** The result of `SortByName` is sorted by name (and, by its contract, a permutation of its input). */
  lemma {:induction false} SortByNameSorted(ts: seq<SearchTerm>)
    ensures SortedByName(SortByName(ts))
    decreases |ts|
  {
    if |ts| > 0 {
      SortByNameSorted(ts[..|ts| - 1]);
      InsertSorted(ts[|ts| - 1], SortByName(ts[..|ts| - 1]));
    }
  }

  // ---------------------------------------------------------------------
  // find_drugs_for_genes
  // ---------------------------------------------------------------------

  /** The names of a list of terms. */
  function NameSet(ts: seq<SearchTerm>): set<string>
  {
    set i | 0 <= i < |ts| :: ts[i].name
  }

  lemma NameSetSnoc(ts: seq<SearchTerm>, t: SearchTerm)
    ensures NameSet(ts + [t]) == NameSet(ts) + {t.name}
  {
    var s := ts + [t];
    forall n | n in NameSet(s) ensures n in NameSet(ts) + {n} {
    }
    forall n | n in NameSet(ts) ensures n in NameSet(s) {
      var i :| 0 <= i < |ts| && ts[i].name == n;
      assert s[i] == ts[i];
    }
    assert s[|ts|].name == t.name;
  }

  /** The terms kept by `already_added`: each name's first term, in order. */
  function FirstByName(ts: seq<SearchTerm>): seq<SearchTerm>
  {
    if |ts| == 0 then []
    else
      var init := ts[..|ts| - 1];
      var t := ts[|ts| - 1];
      FirstByName(init) + (if t.name in NameSet(init) then [] else [t])
  }

  /**
   * The candidate drugs, in loop order: the drugs of every `gene` term, in
   * term order; other terms are passed over. A gene term without an HGNC
   * reference raises `KeyError`, and a statement without an object raises
   * while listing the drugs.
   */
  function Candidates(terms: seq<SearchTerm>, stmts: seq<Statement>): Result<seq<SearchTerm>>
  {
    if |terms| == 0 then Ok([])
    else
      var before := Candidates(terms[..|terms| - 1], stmts);
      var t := terms[|terms| - 1];
      if before.Err? || t.stype != "gene" then before
      else if "HGNC" !in t.dbRefs then Err(KeyError)
      else
        var drugs := DrugsForGene(stmts, Some(t.dbRefs["HGNC"]));
        if drugs.Err? then Err(drugs.error) else Ok(before.value + drugs.value)
  }

  lemma {:induction false} CandidatesStop(terms: seq<SearchTerm>, stmts: seq<Statement>, i: nat)
    requires i <= |terms| && Candidates(terms[..i], stmts).Err?
    ensures Candidates(terms, stmts) == Candidates(terms[..i], stmts)
    decreases |terms|
  {
    if i < |terms| {
      var init := terms[..|terms| - 1];
      assert init[..i] == terms[..i];
      CandidatesStop(init, stmts, i);
    } else {
      assert terms[..i] == terms;
    }
  }

  /** A term that is not a gene adds no candidates. */
  lemma NonGeneIgnored(terms: seq<SearchTerm>, t: SearchTerm, stmts: seq<Statement>)
    requires t.stype != "gene"
    ensures Candidates(terms + [t], stmts) == Candidates(terms, stmts)
  {
    assert (terms + [t])[..|terms|] == terms;
  }

  /**
   * `find_drugs_for_genes(search_terms, drug_gene_stmts)`: without
   * statements (`None` or empty) the TAS statements are used. The drugs of
   * the gene terms are kept once per name, the first one seen winning, and
   * returned sorted by name.
   */
  method FindDrugsForGenes(searchTerms: seq<SearchTerm>, drugGeneStmts: seq<Statement>, tasStatements: seq<Statement>)
    returns (r: Result<seq<SearchTerm>>)
    ensures var stmts := if |drugGeneStmts| == 0 then tasStatements else drugGeneStmts;
            var c := Candidates(searchTerms, stmts);
            && (r.Err? <==> c.Err?)
            && (r.Err? ==> r.error == c.error)
            && (r.Ok? ==> r.value == SortByName(FirstByName(c.value)))
  {
    var stmts := if |drugGeneStmts| == 0 then tasStatements else drugGeneStmts;
    var drugTerms: seq<SearchTerm> := [];
    var alreadyAdded: set<string> := {};
    ghost var seen: seq<SearchTerm> := [];
    for i := 0 to |searchTerms|
      invariant Candidates(searchTerms[..i], stmts) == Ok(seen)
      invariant drugTerms == FirstByName(seen) && alreadyAdded == NameSet(seen)
    {
      assert searchTerms[..i + 1][..i] == searchTerms[..i];
      var t := searchTerms[i];
      if t.stype == "gene" {
        if "HGNC" !in t.dbRefs {
          CandidatesStop(searchTerms, stmts, i + 1);
          return Err(KeyError);
        }
        var drugs := GetDrugsForGene(stmts, Some(t.dbRefs["HGNC"]));
        if drugs.Err? {
          CandidatesStop(searchTerms, stmts, i + 1);
          return Err(drugs.error);
        }
        drugTerms, alreadyAdded := AddDrugTerms(seen, drugs.value, drugTerms, alreadyAdded);
        seen := seen + drugs.value;
      }
    }
    assert searchTerms[..|searchTerms|] == searchTerms;
    return Ok(SortByName(drugTerms));
  }

  /** The inner loop of `find_drugs_for_genes`: each drug term is added unless its name already was. */
  method AddDrugTerms(ghost seen: seq<SearchTerm>, drugs: seq<SearchTerm>, drugTerms: seq<SearchTerm>, alreadyAdded: set<string>)
    returns (drugTerms': seq<SearchTerm>, alreadyAdded': set<string>)
    requires drugTerms == FirstByName(seen) && alreadyAdded == NameSet(seen)
    ensures drugTerms' == FirstByName(seen + drugs) && alreadyAdded' == NameSet(seen + drugs)
  {
    drugTerms', alreadyAdded' := drugTerms, alreadyAdded;
    assert seen + drugs[..0] == seen;
    for k := 0 to |drugs|
      invariant drugTerms' == FirstByName(seen + drugs[..k])
      invariant alreadyAdded' == NameSet(seen + drugs[..k])
    {
      var drug := drugs[k];
      ghost var upTo := seen + drugs[..k];
      assert seen + drugs[..k + 1] == upTo + [drug];
      assert (upTo + [drug])[..|upTo|] == upTo;
      NameSetSnoc(upTo, drug);
      if drug.name !in alreadyAdded' {
        drugTerms' := drugTerms' + [drug];
        alreadyAdded' := alreadyAdded' + {drug.name};
      }
    }
    assert drugs[..|drugs|] == drugs;
  }

  /** Each name appears at most once among the kept terms. */
  lemma {:induction false} FirstByNameDistinct(ts: seq<SearchTerm>)
    ensures NameSet(FirstByName(ts)) == NameSet(ts)
    ensures forall i, j :: 0 <= i < j < |FirstByName(ts)| ==> FirstByName(ts)[i].name != FirstByName(ts)[j].name
    decreases |ts|
  {
    if |ts| > 0 {
      var init := ts[..|ts| - 1];
      var t := ts[|ts| - 1];
      FirstByNameDistinct(init);
      assert ts == init + [t];
      NameSetSnoc(init, t);
      if t.name in NameSet(init) {
        assert FirstByName(ts) == FirstByName(init);
      } else {
        assert FirstByName(ts) == FirstByName(init) + [t];
        NameSetSnoc(FirstByName(init), t);
        var r := FirstByName(ts);
        forall i | 0 <= i < |r| - 1 ensures r[i].name != t.name {
          assert r[i].name in NameSet(FirstByName(init));
        }
      }
    }
  }

  /** Each kept term is the first term of the input with its name. */
  lemma {:induction false} FirstByNameFirst(ts: seq<SearchTerm>, k: nat)
    requires k < |FirstByName(ts)|
    ensures exists i :: 0 <= i < |ts| && ts[i] == FirstByName(ts)[k] && FirstBefore(ts, i)
    decreases |ts|
  {
    var init := ts[..|ts| - 1];
    var t := ts[|ts| - 1];
    if k < |FirstByName(init)| {
      FirstByNameFirst(init, k);
      var i :| 0 <= i < |init| && init[i] == FirstByName(init)[k] && FirstBefore(init, i);
      assert ts[i] == init[i];
      assert FirstBefore(ts, i) by {
        forall j | 0 <= j < i ensures ts[j].name != ts[i].name {
          assert ts[j] == init[j];
        }
      }
    } else {
      var i := |ts| - 1;
      assert FirstBefore(ts, i) by {
        forall j | 0 <= j < i ensures ts[j].name != ts[i].name {
          assert ts[j] == init[j];
        }
      }
    }
  }

  /** No term before index `i` has the name of the term at `i`. */
  predicate FirstBefore(ts: seq<SearchTerm>, i: nat)
    requires i < |ts|
  {
    forall j :: 0 <= j < i ==> ts[j].name != ts[i].name
  }

  /**
   * The drugs found are sorted by name, every candidate's name appears
   * exactly once, and the drug kept for a name is the first candidate with
   * that name.
   */
  lemma DrugsFound(candidates: seq<SearchTerm>, k: nat)
    requires k < |SortByName(FirstByName(candidates))|
    ensures var r := SortByName(FirstByName(candidates));
            && SortedByName(r)
            && NameSet(r) == NameSet(candidates)
            && (forall i, j :: 0 <= i < j < |r| ==> r[i].name != r[j].name)
            && exists i :: 0 <= i < |candidates| && candidates[i] == r[k] && FirstBefore(candidates, i)
  {
    var kept := FirstByName(candidates);
    var r := SortByName(kept);
    SortByNameSorted(kept);
    FirstByNameDistinct(candidates);
    assert multiset(r) == multiset(kept);
    assert r[k] in multiset(kept);
    var m :| 0 <= m < |kept| && kept[m] == r[k];
    FirstByNameFirst(candidates, m);
    PermutationNames(r, kept);
  }

  /** Two lists with the same elements have the same names; distinct names stay distinct. */
  lemma PermutationNames(a: seq<SearchTerm>, b: seq<SearchTerm>)
    requires multiset(a) == multiset(b)
    requires forall i, j :: 0 <= i < j < |b| ==> b[i].name != b[j].name
    ensures NameSet(a) == NameSet(b)
    ensures forall i, j :: 0 <= i < j < |a| ==> a[i].name != a[j].name
  {
    forall n | n in NameSet(a) ensures n in NameSet(b) {
      var i :| 0 <= i < |a| && a[i].name == n;
      assert a[i] in multiset(b);
      var k :| 0 <= k < |b| && b[k] == a[i];
    }
    forall n | n in NameSet(b) ensures n in NameSet(a) {
      var i :| 0 <= i < |b| && b[i].name == n;
      assert b[i] in multiset(a);
      var k :| 0 <= k < |a| && a[k] == b[i];
    }
    forall i, j | 0 <= i < j < |a| ensures a[i].name != a[j].name {
      assert a[i] in multiset(b) && a[j] in multiset(b);
      var p :| 0 <= p < |b| && b[p] == a[i];
      var q :| 0 <= q < |b| && b[q] == a[j];
      if p == q {
        MultiplicityTwo(a, i, j);
        MultiplicityOne(b, p);
      } else if p < q {
        assert b[p].name != b[q].name;
      } else {
        assert b[q].name != b[p].name;
      }
    }
  }

  lemma MultiplicityTwo(a: seq<SearchTerm>, i: nat, j: nat)
    requires i < j < |a| && a[i] == a[j]
    ensures multiset(a)[a[i]] >= 2
  {
    assert a == a[..i] + [a[i]] + a[i + 1..j] + [a[j]] + a[j + 1..];
  }

  lemma MultiplicityOne(b: seq<SearchTerm>, p: nat)
    requires p < |b|
    requires forall i, j :: 0 <= i < j < |b| ==> b[i].name != b[j].name
    ensures multiset(b)[b[p]] == 1
  {
    assert b == b[..p] + [b[p]] + b[p + 1..];
    forall k | 0 <= k < |b| && k != p ensures b[k] != b[p] {
      if k < p { assert b[k].name != b[p].name; } else { assert b[p].name != b[k].name; }
    }
    assert b[p] !in b[..p];
    assert b[p] !in b[p + 1..];
  }

  // ---------------------------------------------------------------------
  // make_prior_from_genes
  // ---------------------------------------------------------------------

  /** The lookups `make_prior_from_genes` makes, each `None` when it finds nothing. */
  datatype Services = Services(
    hgncId: string -> Option<string>,
    uniprotId: Option<string> -> Option<string>,
    reactomeIds: string -> Option<seq<string>>,
    pathwaysContaining: string -> Option<seq<string>>,
    genesInPathway: string -> Option<seq<string>>,
    geneName: string -> Option<string>)

  /** `re.match('^R-HSA-[0-9]', id)`: a human Reactome id. */
  predicate HumanId(id: string)
  {
    |id| >= 7 && id[..6] == "R-HSA-" && IsDigit(id[6])
  }

  lemma HumanIdExamples()
    ensures HumanId("R-HSA-69278") && !HumanId("R-MMU-69278") && !HumanId("R-HSA-") && !HumanId("R-HSA-X1")
  {
    assert "R-HSA-69278"[..6] == "R-HSA-";
    assert "R-MMU-69278"[2] != "R-HSA-"[2];
  }

  /** The UniProt id of an HGNC symbol, when it is found and not empty. */
  function UniprotOf(svc: Services, gene: string): Option<string>
  {
    var up := svc.uniprotId(svc.hgncId(gene));
    if up.Some? && up.value != "" then up else None
  }

  /** A lookup that found nothing counts as an empty list. */
  function Found(xs: Option<seq<string>>): seq<string>
  {
    if xs.Some? then xs.value else []
  }

  /** The Reactome ids of the genes that have a UniProt id. */
  function ReactomeIdsOf(svc: Services, genes: seq<string>): set<string>
  {
    if |genes| == 0 then {}
    else
      var up := UniprotOf(svc, genes[|genes| - 1]);
      ReactomeIdsOf(svc, genes[..|genes| - 1])
      + (if up.Some? then set id | id in Found(svc.reactomeIds(up.value)) else {})
  }

  /** The pathways of the human ids among `ids`. */
  function PathwaysOf(svc: Services, ids: set<string>): set<string>
  {
    set id, p | id in ids && HumanId(id) && p in Found(svc.pathwaysContaining(id)) :: p
  }

  /** The genes of the pathways. */
  function GenesOf(svc: Services, pathways: set<string>): set<string>
  {
    set p, g | p in pathways && g in Found(svc.genesInPathway(p)) :: g
  }

  /** A gene term: its HGNC name, searched in double quotes, with its HGNC and UniProt ids. */
  function GeneTerm(up: string, name: string, hgnc: string): SearchTerm
  {
    SearchTerm("gene", name, map["HGNC" := hgnc, "UP" := up], Some("\"" + name + "\""))
  }

  /** The term of a UniProt id, unless it has no gene name or that name no HGNC id. */
  function TermOf(svc: Services, up: string): Option<SearchTerm>
  {
    var name := svc.geneName(up);
    if name.None? then None
    else
      var hgnc := svc.hgncId(name.value);
      if hgnc.None? || hgnc.value == "" then None else Some(GeneTerm(up, name.value, hgnc.value))
  }

  /** The terms of the genes that have one. */
  function TermsOf(svc: Services, ups: set<string>): set<SearchTerm>
  {
    set up | up in ups && TermOf(svc, up).Some? :: TermOf(svc, up).value
  }

  /** Every term the prior is made of. */
  function PriorTerms(svc: Services, genes: seq<string>): set<SearchTerm>
  {
    TermsOf(svc, GenesOf(svc, PathwaysOf(svc, ReactomeIdsOf(svc, genes))))
  }

  lemma PathwaysOfAdd(svc: Services, done: set<string>, id: string)
    ensures PathwaysOf(svc, done + {id})
            == PathwaysOf(svc, done) + (if HumanId(id) then set p | p in Found(svc.pathwaysContaining(id)) else {})
  {
  }

  lemma GenesOfAdd(svc: Services, done: set<string>, p: string)
    ensures GenesOf(svc, done + {p}) == GenesOf(svc, done) + set g | g in Found(svc.genesInPathway(p))
  {
  }

  lemma TermsOfAdd(svc: Services, done: set<string>, up: string)
    requires up !in done
    ensures TermOf(svc, up).None? ==> TermsOf(svc, done + {up}) == TermsOf(svc, done)
    ensures TermOf(svc, up).Some? ==> TermsOf(svc, done + {up}) == TermsOf(svc, done) + {TermOf(svc, up).value}
    ensures TermOf(svc, up).Some? ==> TermOf(svc, up).value !in TermsOf(svc, done)
  {
    if TermOf(svc, up).Some? {
      forall other | other in done && TermOf(svc, other).Some? ensures TermOf(svc, other).value != TermOf(svc, up).value {
        assert TermOf(svc, other).value.dbRefs["UP"] == other;
      }
    }
  }

  /** The first loop of `make_prior_from_genes`: the Reactome ids of the genes with a UniProt id. */
  method CollectReactomeIds(svc: Services, geneList: seq<string>) returns (allReactomeIds: set<string>)
    ensures allReactomeIds == ReactomeIdsOf(svc, geneList)
  {
    allReactomeIds := {};
    for i := 0 to |geneList|
      invariant allReactomeIds == ReactomeIdsOf(svc, geneList[..i])
    {
      assert geneList[..i + 1][..i] == geneList[..i];
      var uniprotId := svc.uniprotId(svc.hgncId(geneList[i]));
      if uniprotId.None? || uniprotId.value == "" {
        continue;
      }
      var reactomeIds := svc.reactomeIds(uniprotId.value);
      if reactomeIds.None? || |reactomeIds.value| == 0 {
        continue;
      }
      allReactomeIds := allReactomeIds + set id | id in reactomeIds.value;
    }
    assert geneList[..|geneList|] == geneList;
  }

  /** The second loop: the pathways of the human ids, skipping the others. */
  method CollectPathways(svc: Services, allReactomeIds: set<string>) returns (allPathways: set<string>)
    ensures allPathways == PathwaysOf(svc, allReactomeIds)
  {
    allPathways := {};
    var remaining := allReactomeIds;
    while remaining != {}
      invariant remaining <= allReactomeIds
      invariant allPathways == PathwaysOf(svc, allReactomeIds - remaining)
      decreases remaining
    {
      var reactomeId :| reactomeId in remaining;
      PathwaysOfAdd(svc, allReactomeIds - remaining, reactomeId);
      assert allReactomeIds - (remaining - {reactomeId}) == (allReactomeIds - remaining) + {reactomeId};
      remaining := remaining - {reactomeId};
      if !(|reactomeId| >= 7 && reactomeId[..6] == "R-HSA-" && '0' <= reactomeId[6] <= '9') {
        continue;
      }
      var additional := svc.pathwaysContaining(reactomeId);
      if additional.Some? {
        allPathways := allPathways + set p | p in additional.value;
      }
    }
    assert allReactomeIds - remaining == allReactomeIds;
  }

  /** The third loop: the genes of the pathways. */
  method CollectGenes(svc: Services, allPathways: set<string>) returns (allGenes: set<string>)
    ensures allGenes == GenesOf(svc, allPathways)
  {
    allGenes := {};
    var remaining := allPathways;
    while remaining != {}
      invariant remaining <= allPathways
      invariant allGenes == GenesOf(svc, allPathways - remaining)
      decreases remaining
    {
      var pathway :| pathway in remaining;
      GenesOfAdd(svc, allPathways - remaining, pathway);
      assert allPathways - (remaining - {pathway}) == (allPathways - remaining) + {pathway};
      remaining := remaining - {pathway};
      var additional := svc.genesInPathway(pathway);
      if additional.Some? {
        allGenes := allGenes + set g | g in additional.value;
      }
    }
    assert allPathways - remaining == allPathways;
  }

  /** The fourth loop: one term per gene with a name and an HGNC id, in visiting order. */
  method CollectGeneTerms(svc: Services, allGenes: set<string>) returns (geneTerms: seq<SearchTerm>)
    ensures multiset(geneTerms) == multiset(TermsOf(svc, allGenes))
  {
    geneTerms := [];
    var remaining := allGenes;
    while remaining != {}
      invariant remaining <= allGenes
      invariant multiset(geneTerms) == multiset(TermsOf(svc, allGenes - remaining))
      decreases remaining
    {
      var uniprotId :| uniprotId in remaining;
      ghost var done := allGenes - remaining;
      TermsOfAdd(svc, done, uniprotId);
      assert allGenes - (remaining - {uniprotId}) == done + {uniprotId};
      remaining := remaining - {uniprotId};
      var hgncName := svc.geneName(uniprotId);
      if hgncName.None? {
        continue;
      }
      var hgncId := svc.hgncId(hgncName.value);
      if hgncId.None? || hgncId.value == "" {
        continue;
      }
      var term := SearchTerm("gene", hgncName.value, map["HGNC" := hgncId.value, "UP" := uniprotId],
                             Some("\"" + hgncName.value + "\""));
      assert multiset(TermsOf(svc, done) + {term}) == multiset(TermsOf(svc, done)) + multiset{term};
      geneTerms := geneTerms + [term];
    }
    assert allGenes - remaining == allGenes;
  }

  /**
   * `make_prior_from_genes(gene_list)`: the Reactome ids of the genes, the
   * pathways of the human ones, the genes of those pathways, and a term for
   * every gene with a name and an HGNC id, sorted by name. Sets are visited
   * in an unspecified order.
   */
  method MakePriorFromGenes(svc: Services, geneList: seq<string>) returns (r: seq<SearchTerm>)
    ensures multiset(r) == multiset(PriorTerms(svc, geneList))
    ensures SortedByName(r)
  {
    var allReactomeIds := CollectReactomeIds(svc, geneList);
    var allPathways := CollectPathways(svc, allReactomeIds);
    var allGenes := CollectGenes(svc, allPathways);
    var geneTerms := CollectGeneTerms(svc, allGenes);
    r := SortByName(geneTerms);
    SortByNameSorted(geneTerms);
  }

  /**
   * Every term of the prior is a gene term for a UniProt id found in a
   * pathway of a human Reactome id of some input gene, named by that id's
   * HGNC name and carrying that name's HGNC id.
   */
  lemma PriorTermOrigin(svc: Services, genes: seq<string>, t: SearchTerm)
    requires t in PriorTerms(svc, genes)
    ensures t.stype == "gene" && "UP" in t.dbRefs && "HGNC" in t.dbRefs
    ensures svc.geneName(t.dbRefs["UP"]) == Some(t.name)
    ensures svc.hgncId(t.name) == Some(t.dbRefs["HGNC"]) && t.dbRefs["HGNC"] != ""
    ensures t.searchTerm == Some("\"" + t.name + "\"")
    ensures exists id, p :: id in ReactomeIdsOf(svc, genes) && HumanId(id)
                            && p in Found(svc.pathwaysContaining(id)) && t.dbRefs["UP"] in Found(svc.genesInPathway(p))
  {
    var up :| up in GenesOf(svc, PathwaysOf(svc, ReactomeIdsOf(svc, genes))) && TermOf(svc, up).Some? && TermOf(svc, up).value == t;
    assert t.dbRefs["UP"] == up;
    var p :| p in PathwaysOf(svc, ReactomeIdsOf(svc, genes)) && up in Found(svc.genesInPathway(p));
    var id :| id in ReactomeIdsOf(svc, genes) && HumanId(id) && p in Found(svc.pathwaysContaining(id));
  }

  /** An id that is not human contributes no pathway, whatever the service answers for it. */
  lemma NonHumanIdsIgnored(svc: Services, ids: set<string>)
    ensures PathwaysOf(svc, ids) == PathwaysOf(svc, set id | id in ids && HumanId(id))
  {
  }

  // ---------------------------------------------------------------------
  // up_id_from_rx_id
  // ---------------------------------------------------------------------

  /**
   * The parse in `up_id_from_rx_id`: `None` for a failed request; the answer
   * must have exactly three tab-separated fields and its first word exactly
   * two `:`-separated parts, or unpacking raises `ValueError`; `None` unless
   * the third field is `ReferenceGeneProduct` and the namespace `UniProt`.
   */
  function UpIdFromRxId(status: int, text: string): (r: Result<Option<string>>)
    ensures r.Ok? && r.value.Some? ==>
              var fields := Split(text, '\t');
              && status == 200 && |fields| == 3 && fields[2] == "ReferenceGeneProduct"
              && Split(Split(fields[1], ' ')[0], ':') == ["UniProt", r.value.value]
  {
    if status != 200 then Ok(None)
    else
      var fields := Split(text, '\t');
      if |fields| != 3 then Err(ValueError)
      else if fields[2] != "ReferenceGeneProduct" then Ok(None)
      else
        var parts := Split(Split(fields[1], ' ')[0], ':');
        if |parts| != 2 then Err(ValueError)
        else if parts[0] != "UniProt" then Ok(None)
        else Ok(Some(parts[1]))
  }

  /**
   * An answer in the expected shape, `{name}\tUniProt:{id} {description}\tReferenceGeneProduct`,
   * gives back the id.
   */
  lemma UpIdRoundTrip(name: string, id: string, description: string)
    requires '\t' !in name && '\t' !in id && '\t' !in description
    requires ' ' !in id && ':' !in id
    ensures UpIdFromRxId(200, Join([name, "UniProt:" + id + " " + description, "ReferenceGeneProduct"], '\t'))
            == Ok(Some(id))
  {
    var entry := "UniProt:" + id + " " + description;
    var fields := [name, entry, "ReferenceGeneProduct"];
    var idEntry := "UniProt:" + id;
    assert entry == idEntry + [' '] + description;
    assert '\t' !in entry;
    JoinSplit(fields, '\t');
    assert ' ' !in idEntry;
    SplitCons(idEntry, description, ' ');
    assert "UniProt:" + id == "UniProt" + [':'] + id;
    SplitCons("UniProt", id, ':');
    SplitNoSep(id, ':');
  }

  /** A failed request, or an answer about something other than a gene product, gives `None`. */
  lemma UpIdNone(status: int, text: string)
    requires status != 200 || (|Split(text, '\t')| == 3 && Split(text, '\t')[2] != "ReferenceGeneProduct")
    ensures UpIdFromRxId(status, text) == Ok(None)
  {
  }
}
