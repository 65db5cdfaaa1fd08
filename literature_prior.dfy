/**
 * emmaa/priors/literature_prior.py: a model prior built around literature
 * searches. Its search terms come from free-text search strings and MeSH
 * ids, its statements from the papers those searches find, and its model
 * configuration from fixed defaults. MeSH names, the PubMed search, the
 * INDRA database and the template model's stored configuration are
 * parameters.
 */
module LiteraturePriors {
  import opened Wrappers
  import opened Strings
  import opened JsonValues
  import opened Indra
  import opened SearchTerms
  import opened DateStamps
  import opened EmmaaStatements
  import opened EmmaaModels

  // ---------------------------------------------------------------------
  // make_search_terms
  // ---------------------------------------------------------------------

  /** The term for a free-text search string: type `other`, searched by the string itself. */
  function StringTerm(s: string): SearchTerm
  {
    SearchTerm("other", s, map[], Some(s))
  }

  /** `mh` (MeSH heading) for a descriptor id, which starts with `D`; `nm` (substance name) otherwise. */
  function MeshSuffix(meshId: string): string
  {
    if StartsWith(meshId, "D") then "mh" else "nm"
  }

  /** The term for a MeSH id: type `mesh`, its MeSH name, its id under `MESH`, searched as `{name} [{suffix}]`. */
  function MeshTerm(meshId: string, meshName: string -> string): SearchTerm
  {
    SearchTerm("mesh", meshName(meshId), map["MESH" := meshId], Some(meshName(meshId) + " [" + MeshSuffix(meshId) + "]"))
  }

  /** The terms `make_search_terms` returns: one per search string, then one per MeSH id, in input order. */
  function SearchTermsOf(searchStrings: seq<string>, meshIds: seq<string>, meshName: string -> string): (r: seq<SearchTerm>)
    ensures |r| == |searchStrings| + |meshIds|
  {
    seq(|searchStrings|, i requires 0 <= i < |searchStrings| => StringTerm(searchStrings[i]))
    + seq(|meshIds|, j requires 0 <= j < |meshIds| => MeshTerm(meshIds[j], meshName))
  }

  /**
   * `make_search_terms(search_strings, mesh_ids)`: `ValueError` when both
   * lists are empty; `meshName` is `mesh_client.get_mesh_name`.
   */
  method MakeSearchTerms(searchStrings: seq<string>, meshIds: seq<string>, meshName: string -> string)
    returns (r: Result<seq<SearchTerm>>)
    ensures r.Err? <==> |searchStrings| == 0 && |meshIds| == 0
    ensures r.Err? ==> r.error == ValueError
    ensures r.Ok? ==> r.value == SearchTermsOf(searchStrings, meshIds, meshName)
  {
    if |searchStrings| == 0 && |meshIds| == 0 {
      return Err(ValueError);
    }
    var terms: seq<SearchTerm> := [];
    for i := 0 to |searchStrings|
      invariant |terms| == i && forall k :: 0 <= k < i ==> terms[k] == StringTerm(searchStrings[k])
    {
      terms := terms + [StringTerm(searchStrings[i])];
    }
    for j := 0 to |meshIds|
      invariant |terms| == |searchStrings| + j
      invariant forall k :: 0 <= k < |searchStrings| ==> terms[k] == StringTerm(searchStrings[k])
      invariant forall k :: 0 <= k < j ==> terms[|searchStrings| + k] == MeshTerm(meshIds[k], meshName)
    {
      var suffix := if StartsWith(meshIds[j], "D") then "mh" else "nm";
      var name := meshName(meshIds[j]);
      terms := terms + [SearchTerm("mesh", name, map["MESH" := meshIds[j]], Some(name + " [" + suffix + "]"))];
    }
    return Ok(terms);
  }

  /** The search strings a list of terms was made from: the names of its `other` terms, in order. */
  function SearchStringsIn(terms: seq<SearchTerm>): seq<string>
  {
    if |terms| == 0 then []
    else
      var last := terms[|terms| - 1];
      SearchStringsIn(terms[..|terms| - 1]) + (if last.stype == "other" then [last.name] else [])
  }

  /** The MeSH ids a list of terms was made from: the `MESH` references of its `mesh` terms, in order. */
  function MeshIdsIn(terms: seq<SearchTerm>): seq<string>
  {
    if |terms| == 0 then []
    else
      var last := terms[|terms| - 1];
      MeshIdsIn(terms[..|terms| - 1]) + (if last.stype == "mesh" && "MESH" in last.dbRefs then [last.dbRefs["MESH"]] else [])
  }

  lemma {:induction false} SourcesAppend(a: seq<SearchTerm>, b: seq<SearchTerm>)
    ensures SearchStringsIn(a + b) == SearchStringsIn(a) + SearchStringsIn(b)
    ensures MeshIdsIn(a + b) == MeshIdsIn(a) + MeshIdsIn(b)
    decreases |b|
  {
    if |b| == 0 {
      assert a + b == a;
    } else {
      var init := b[..|b| - 1];
      assert (a + b)[..|a + b| - 1] == a + init;
      SourcesAppend(a, init);
    }
  }

  lemma {:induction false} StringTermsSources(searchStrings: seq<string>)
    ensures var terms := seq(|searchStrings|, i requires 0 <= i < |searchStrings| => StringTerm(searchStrings[i]));
            SearchStringsIn(terms) == searchStrings && MeshIdsIn(terms) == []
    decreases |searchStrings|
  {
    if |searchStrings| > 0 {
      var n := |searchStrings|;
      var terms := seq(n, i requires 0 <= i < n => StringTerm(searchStrings[i]));
      var init := searchStrings[..n - 1];
      StringTermsSources(init);
      assert terms[..n - 1] == seq(n - 1, i requires 0 <= i < n - 1 => StringTerm(init[i]));
      assert searchStrings == init + [searchStrings[n - 1]];
    }
  }

  lemma MeshTermsSources(meshIds: seq<string>, meshName: string -> string)
    ensures var terms := seq(|meshIds|, j requires 0 <= j < |meshIds| => MeshTerm(meshIds[j], meshName));
            SearchStringsIn(terms) == [] && MeshIdsIn(terms) == meshIds
  {
    var terms := seq(|meshIds|, j requires 0 <= j < |meshIds| => MeshTerm(meshIds[j], meshName));
    MeshTermsRead(terms, meshIds);
  }

  /** `mesh` terms hold no search string and give back their MeSH ids. */
  lemma {:induction false} MeshTermsRead(terms: seq<SearchTerm>, meshIds: seq<string>)
    requires |terms| == |meshIds|
    requires forall k :: 0 <= k < |terms| ==> terms[k].stype == "mesh" && terms[k].dbRefs == map["MESH" := meshIds[k]]
    ensures SearchStringsIn(terms) == [] && MeshIdsIn(terms) == meshIds
    decreases |terms|
  {
    if |terms| > 0 {
      var n := |terms| - 1;
      MeshTermsRead(terms[..n], meshIds[..n]);
      assert "mesh" != "other";
      assert meshIds == meshIds[..n] + [meshIds[n]];
    }
  }

  /** The search strings and the MeSH ids can be read back from the terms made from them. */
  lemma SearchTermsSources(searchStrings: seq<string>, meshIds: seq<string>, meshName: string -> string)
    ensures SearchStringsIn(SearchTermsOf(searchStrings, meshIds, meshName)) == searchStrings
    ensures MeshIdsIn(SearchTermsOf(searchStrings, meshIds, meshName)) == meshIds
  {
    var a := seq(|searchStrings|, i requires 0 <= i < |searchStrings| => StringTerm(searchStrings[i]));
    var b := seq(|meshIds|, j requires 0 <= j < |meshIds| => MeshTerm(meshIds[j], meshName));
    SourcesAppend(a, b);
    StringTermsSources(searchStrings);
    MeshTermsSources(meshIds, meshName);
  }

  /**
   * Each MeSH term is searched by its name followed by ` [mh]` exactly when
   * its id starts with `D`, and by its name followed by ` [nm]` otherwise.
   */
  lemma MeshTermText(meshId: string, meshName: string -> string)
    ensures var t := MeshTerm(meshId, meshName);
            && t.searchTerm.Some? && StartsWith(t.searchTerm.value, t.name)
            && (EndsWith(t.searchTerm.value, " [mh]") <==> StartsWith(meshId, "D"))
            && (EndsWith(t.searchTerm.value, " [nm]") <==> !StartsWith(meshId, "D"))
  {
    var t := MeshTerm(meshId, meshName);
    var text := t.searchTerm.value;
    assert text[|text| - 5..] == " [" + MeshSuffix(meshId) + "]";
    assert text[|text| - 3] == MeshSuffix(meshId)[0];
  }

  // ---------------------------------------------------------------------
  // Configuration
  // ---------------------------------------------------------------------

  /** The keys every configuration made by a literature prior has. */
  const BaseConfigKeys: set<string> :=
    {"name", "human_readable_name", "description", "make_tests", "run_daily_update", "dev_only", "search_terms"}

  /** The large-corpus test settings a prior configures when it is to be tested. */
  const LargeCorpusTests: Json := JObj(map[
    "statement_checking" := JObj(map["max_path_length" := JInt(10), "max_paths" := JInt(1)]),
    "mc_types" := JArr([JStr("signed_graph"), JStr("unsigned_graph")]),
    "make_links" := JBool(true),
    "test_corpus" := JArr([JStr("large_corpus_tests")]),
    "default_test_corpus" := JStr("large_corpus_tests"),
    "filters" := JObj(map["large_corpus_tests" := JStr("filter_chem_mesh_go")])])

  /** `[st.to_json() for st in search_terms]`. */
  function TermsJson(terms: seq<SearchTerm>): (j: Json)
    ensures j.JArr? && |j.items| == |terms|
    ensures forall i :: 0 <= i < |terms| ==> j.items[i] == ToJson(terms[i])
  {
    JArr(seq(|terms|, i requires 0 <= i < |terms| => ToJson(terms[i])))
  }

  /**
   * The configuration `make_config` builds: the user's names and
   * description, no tests made, daily updates, shown on dev only, the search
   * terms, the template's assembly section when it is truthy, and the
   * large-corpus tests when the prior is to be tested.
   */
  function PriorConfig(name: string, humanReadableName: string, description: string, terms: seq<SearchTerm>,
                       assemblyConfig: Json, test: bool): (config: map<string, Json>)
    ensures config.Keys == BaseConfigKeys + (if Truthy(assemblyConfig) then {"assembly"} else {})
                           + (if test then {"test"} else {})
    ensures config["make_tests"] == JBool(false) && config["run_daily_update"] == JBool(true)
    ensures config["dev_only"] == JBool(true)
  {
    var base := map["name" := JStr(name), "human_readable_name" := JStr(humanReadableName),
                    "description" := JStr(description), "make_tests" := JBool(false),
                    "run_daily_update" := JBool(true), "dev_only" := JBool(true),
                    "search_terms" := TermsJson(terms)];
    var withAssembly := if Truthy(assemblyConfig) then base["assembly" := assemblyConfig] else base;
    if test then withAssembly["test" := LargeCorpusTests] else withAssembly
  }

  /** Reading a list of search terms back from its JSON form gives the terms. */
  lemma {:induction false} TermsJsonRoundTrip(terms: seq<SearchTerm>)
    ensures SearchTermsFromJson(TermsJson(terms)) == Ok(terms)
  {
    var items := TermsJson(terms).items;
    forall i | 0 <= i < |items| ensures FromJson(items[i]) == Ok(terms[i]) {
      FromJsonToJson(terms[i]);
    }
    var r := MapAll(items, FromJson);
    assert r.Ok?;
    assert r.value == terms;
  }

  /**
   * A prior's configuration loads into a model: the model gets the prior's
   * search terms, its human-readable name, the assembly section (a list
   * wrapped as `{'main': list}`, absent as `{}`), and the large-corpus tests
   * exactly when the prior is tested.
   */
  lemma PriorConfigLoads(name: string, humanReadableName: string, description: string, terms: seq<SearchTerm>,
                         assemblyConfig: Json, test: bool)
    ensures var config := PriorConfig(name, humanReadableName, description, terms, assemblyConfig, test);
            var settings := LoadConfig(JObj(config));
            && settings.Ok?
            && settings.value.searchTerms == terms
            && settings.value.humanReadableName == JStr(humanReadableName)
            && settings.value.assemblyConfig == (if !Truthy(assemblyConfig) then EmptyDict
                                                 else if assemblyConfig.JArr? then JObj(map["main" := assemblyConfig])
                                                 else assemblyConfig)
            && settings.value.testConfig == (if test then LargeCorpusTests else EmptyDict)
  {
    var config := PriorConfig(name, humanReadableName, description, terms, assemblyConfig, test);
    TermsJsonRoundTrip(terms);
    PriorConfigFields(name, humanReadableName, description, terms, assemblyConfig, test);
    LoadConfigSections(config, terms);
  }

  /** The entries of a prior's configuration that loading it reads. */
  lemma PriorConfigFields(name: string, humanReadableName: string, description: string, terms: seq<SearchTerm>,
                          assemblyConfig: Json, test: bool)
    ensures var config := PriorConfig(name, humanReadableName, description, terms, assemblyConfig, test);
            && config["search_terms"] == TermsJson(terms)
            && config["human_readable_name"] == JStr(humanReadableName)
            && (if Truthy(assemblyConfig) then "assembly" in config && config["assembly"] == assemblyConfig
                else "assembly" !in config)
            && (if test then "test" in config && config["test"] == LargeCorpusTests else "test" !in config)
            && "ndex" !in config && "export_formats" !in config && "reading" !in config && "query" !in config
  {
  }

  // ---------------------------------------------------------------------
  // Statements
  // ---------------------------------------------------------------------

  /** The metadata every statement of a literature prior carries. */
  const InternalMetadata: map<string, Json> := map["internal" := JBool(true)]

  /** The statements of one paper, each wrapped with the timestamp and the paper's search terms. */
  function WrapPaper(stmts: seq<Statement>, terms: seq<SearchTerm>, timestamp: DateTime): (r: seq<EmmaaStatement>)
    ensures |r| == |stmts|
    ensures forall k :: 0 <= k < |stmts| ==> r[k] == EmmaaStatement(stmts[k], timestamp, terms, InternalMetadata)
  {
    seq(|stmts|, k requires 0 <= k < |stmts| => EmmaaStatement(stmts[k], timestamp, terms, InternalMetadata))
  }

  /**
   * What the loop over the papers' statements appends, and whether it
   * raised: a paper with statements that is not a key of `pmidTerms`
   * raises `KeyError`, and nothing after it is appended.
   */
  function WrapPapers(papers: seq<(string, seq<Statement>)>, pmidTerms: map<string, seq<SearchTerm>>, timestamp: DateTime)
    : (seq<EmmaaStatement>, bool)
  {
    if |papers| == 0 then ([], false)
    else
      var before := WrapPapers(papers[..|papers| - 1], pmidTerms, timestamp);
      var (pmid, stmts) := papers[|papers| - 1];
      if before.1 || |stmts| == 0 then before
      else if pmid !in pmidTerms then (before.0, true)
      else (before.0 + WrapPaper(stmts, pmidTerms[pmid], timestamp), false)
  }

  /**
   * Without a failure, every wrapped statement is one of some paper's
   * statements and carries that paper's terms.
   */
  lemma {:induction false} WrapPapersOrigin(papers: seq<(string, seq<Statement>)>, pmidTerms: map<string, seq<SearchTerm>>,
                                            timestamp: DateTime, k: nat)
    requires !WrapPapers(papers, pmidTerms, timestamp).1
    requires k < |WrapPapers(papers, pmidTerms, timestamp).0|
    ensures exists i :: 0 <= i < |papers| && papers[i].0 in pmidTerms
                        && WrapPapers(papers, pmidTerms, timestamp).0[k].stmt in papers[i].1
                        && WrapPapers(papers, pmidTerms, timestamp).0[k].searchTerms == pmidTerms[papers[i].0]
    decreases |papers|
  {
    var init := papers[..|papers| - 1];
    var (pmid, stmts) := papers[|papers| - 1];
    var before := WrapPapers(init, pmidTerms, timestamp);
    if k < |before.0| {
      WrapPapersOrigin(init, pmidTerms, timestamp, k);
      var i :| 0 <= i < |init| && init[i].0 in pmidTerms && before.0[k].stmt in init[i].1
               && before.0[k].searchTerms == pmidTerms[init[i].0];
      assert papers[i] == init[i];
    } else {
      var out := WrapPapers(papers, pmidTerms, timestamp).0;
      assert out[k] == WrapPaper(stmts, pmidTerms[pmid], timestamp)[k - |before.0|];
      assert out[k].stmt == stmts[k - |before.0|];
    }
  }

  /**
   * Each statement of the prior carries every search term that found its
   * paper, once per time the search returned the paper.
   */
  lemma StatementsCarryTheirTerms(termsToPmids: TermsToIds, papers: seq<(string, seq<Statement>)>, timestamp: DateTime, k: nat)
    requires !WrapPapers(papers, Inverted(Hits(termsToPmids)), timestamp).1
    requires k < |WrapPapers(papers, Inverted(Hits(termsToPmids)), timestamp).0|
    ensures exists i :: 0 <= i < |papers|
                        && WrapPapers(papers, Inverted(Hits(termsToPmids)), timestamp).0[k].stmt in papers[i].1
                        && WrapPapers(papers, Inverted(Hits(termsToPmids)), timestamp).0[k].searchTerms
                           == TermsFor(Hits(termsToPmids), papers[i].0)
                        && |TermsFor(Hits(termsToPmids), papers[i].0)| > 0
  {
    var pmidTerms := Inverted(Hits(termsToPmids));
    var out := WrapPapers(papers, pmidTerms, timestamp).0;
    WrapPapersOrigin(papers, pmidTerms, timestamp, k);
    var i :| 0 <= i < |papers| && papers[i].0 in pmidTerms && out[k].stmt in papers[i].1
             && out[k].searchTerms == pmidTerms[papers[i].0];
    InvertedMeaning(Hits(termsToPmids), papers[i].0);
    TermsForNonEmpty(Hits(termsToPmids), papers[i].0);
  }

  lemma {:induction false} TermsForNonEmpty(hits: seq<(SearchTerm, string)>, id: string)
    requires exists k :: 0 <= k < |hits| && hits[k].1 == id
    ensures |TermsFor(hits, id)| > 0
    decreases |hits|
  {
    var init := hits[..|hits| - 1];
    if hits[|hits| - 1].1 != id {
      var k :| 0 <= k < |hits| && hits[k].1 == id;
      assert init[k] == hits[k];
      TermsForNonEmpty(init, id);
    }
  }

  // ---------------------------------------------------------------------
  // LiteraturePrior
  // ---------------------------------------------------------------------

  class LiteraturePrior {
    var name: string
    var humanReadableName: string
    var description: string
    var searchTerms: seq<SearchTerm>
    var assemblyConfig: Json
    var test: bool
    var stmts: seq<EmmaaStatement>

    constructor(name: string, humanReadableName: string, description: string, searchTerms: seq<SearchTerm>,
                assemblyConfig: Json, test: bool)
      ensures this.name == name && this.humanReadableName == humanReadableName && this.description == description
      ensures this.searchTerms == searchTerms && this.assemblyConfig == assemblyConfig && this.test == test
      ensures this.stmts == []
    {
      this.name := name;
      this.humanReadableName := humanReadableName;
      this.description := description;
      this.searchTerms := searchTerms;
      this.assemblyConfig := assemblyConfig;
      this.test := test;
      this.stmts := [];
    }

    /**
     * `LiteraturePrior(name, human_readable_name, description,
     * search_strings, mesh_ids, assembly_config_template, test)`. A missing
     * list counts as empty, so without search strings and MeSH ids it raises
     * `ValueError`. With a template model, the assembly section of that
     * model's stored configuration (`loadConfig`) is adopted, `None` when it
     * has none.
     */
    static method Create(name: string, humanReadableName: string, description: string,
                         searchStrings: Option<seq<string>>, meshIds: Option<seq<string>>,
                         assemblyConfigTemplate: Option<string>, test: bool,
                         meshName: string -> string, loadConfig: string -> map<string, Json>)
      returns (r: Result<LiteraturePrior>)
      ensures var strings := if searchStrings.Some? then searchStrings.value else [];
              var ids := if meshIds.Some? then meshIds.value else [];
              && (r.Err? <==> |strings| == 0 && |ids| == 0)
              && (r.Err? ==> r.error == ValueError)
              && (r.Ok? ==> fresh(r.value) && r.value.stmts == [] && r.value.test == test
                            && r.value.name == name && r.value.humanReadableName == humanReadableName
                            && r.value.description == description
                            && r.value.searchTerms == SearchTermsOf(strings, ids, meshName))
      ensures r.Ok? ==> r.value.assemblyConfig
                        == (if assemblyConfigTemplate.Some? && assemblyConfigTemplate.value != ""
                            then Get(loadConfig(assemblyConfigTemplate.value), "assembly") else EmptyDict)
    {
      var strings := if searchStrings.Some? then searchStrings.value else [];
      var ids := if meshIds.Some? then meshIds.value else [];
      var terms := MakeSearchTerms(strings, ids, meshName);
      if terms.Err? {
        return Err(terms.error);
      }
      var assembly := if assemblyConfigTemplate.Some? && assemblyConfigTemplate.value != ""
                      then Get(loadConfig(assemblyConfigTemplate.value), "assembly") else EmptyDict;
      var prior := new LiteraturePrior(name, humanReadableName, description, terms.value, assembly, test);
      return Ok(prior);
    }

    /** `make_config()`; uploading the configuration is not modelled. */
    method MakeConfig() returns (config: map<string, Json>)
      ensures config == PriorConfig(name, humanReadableName, description, searchTerms, assemblyConfig, test)
    {
      config := map["name" := JStr(name), "human_readable_name" := JStr(humanReadableName),
                    "description" := JStr(description), "make_tests" := JBool(false),
                    "run_daily_update" := JBool(true), "dev_only" := JBool(true),
                    "search_terms" := TermsJson(searchTerms)];
      if Truthy(assemblyConfig) {
        config := config["assembly" := assemblyConfig];
      }
      if test {
        config := config["test" := LargeCorpusTests];
      }
    }

    /**
     * `get_statements(mode, batch_size)`. Once the prior has statements they
     * are returned unchanged. Otherwise the PubMed search
     * (`searchPubmed`, term to PMIDs) is inverted into PMID to terms, the
     * database gives each PMID's raw statements (`rawStatements`, in its
     * order), and every statement is appended wrapped with the timestamp
     * and the terms of its paper.
     */
    method GetStatements(searchPubmed: seq<SearchTerm> -> TermsToIds,
                         rawStatements: set<string> -> seq<(string, seq<Statement>)>, timestamp: DateTime)
      returns (r: Result<seq<EmmaaStatement>>)
      modifies this`stmts
      ensures old(stmts) != [] ==> r == Ok(old(stmts)) && stmts == old(stmts)
      ensures old(stmts) == [] ==>
                var pmidTerms := Inverted(Hits(searchPubmed(searchTerms)));
                var wrapped := WrapPapers(rawStatements(pmidTerms.Keys), pmidTerms, timestamp);
                && stmts == wrapped.0
                && (r.Ok? <==> !wrapped.1)
                && (r.Ok? ==> r.value == stmts)
                && (r.Err? ==> r.error == KeyError)
    {
      if stmts != [] {
        return Ok(stmts);
      }
      var pmidTerms := InvertTermsToIds(searchPubmed(searchTerms));
      var papers := rawStatements(pmidTerms.Keys);
      for i := 0 to |papers|
        invariant WrapPapers(papers[..i], pmidTerms, timestamp) == (stmts, false)
      {
        assert papers[..i + 1][..i] == papers[..i];
        var (pmid, paperStmts) := papers[i];
        if |paperStmts| > 0 && pmid !in pmidTerms {
          WrapPapersStops(papers, pmidTerms, timestamp, i + 1);
          return Err(KeyError);
        }
        AppendPaper(paperStmts, pmidTerms, pmid, timestamp);
      }
      assert papers[..|papers|] == papers;
      return Ok(stmts);
    }

    /** The inner loop of `get_statements`: one paper's statements appended in order. */
    method AppendPaper(paperStmts: seq<Statement>, pmidTerms: map<string, seq<SearchTerm>>, pmid: string, timestamp: DateTime)
      requires |paperStmts| > 0 ==> pmid in pmidTerms
      modifies this`stmts
      ensures |paperStmts| == 0 ==> stmts == old(stmts)
      ensures |paperStmts| > 0 ==> stmts == old(stmts) + WrapPaper(paperStmts, pmidTerms[pmid], timestamp)
    {
      for k := 0 to |paperStmts|
        invariant stmts == old(stmts) + WrapPaper(paperStmts[..k], if k > 0 then pmidTerms[pmid] else [], timestamp)
        invariant k > 0 ==> pmid in pmidTerms
      {
        stmts := stmts + [EmmaaStatement(paperStmts[k], timestamp, pmidTerms[pmid], InternalMetadata)];
      }
      assert paperStmts[..|paperStmts|] == paperStmts;
    }

    /**
     * `make_model(estmts)`: a model named after the prior, configured by
     * `make_config()` and holding the given statements; uploading is not
     * modelled. Loading the prior's own configuration cannot fail.
     */
    method MakeModel(estmts: seq<EmmaaStatement>, utcNow: DateTime) returns (model: EmmaaModel)
      requires DateStamps.Valid(utcNow)
      ensures model.name == name && model.stmts == estmts
      ensures model.settings.searchTerms == searchTerms
      ensures model.settings.testConfig == (if test then LargeCorpusTests else EmptyDict)
      ensures model.settings.humanReadableName == JStr(humanReadableName)
      ensures model.settings.assemblyConfig == (if !Truthy(assemblyConfig) then EmptyDict
                                                else if assemblyConfig.JArr? then JObj(map["main" := assemblyConfig])
                                                else assemblyConfig)
      ensures LoadConfig(JObj(PriorConfig(name, humanReadableName, description, searchTerms, assemblyConfig, test))) == Ok(model.settings)
    {
      var config := MakeConfig();
      PriorConfigLoads(name, humanReadableName, description, searchTerms, assemblyConfig, test);
      var created := EmmaaModel.Create(name, JObj(config), [], utcNow);
      model := created.value;
      model.AddStatements(estmts);
    }
  }

  /** Once the loop has raised, later papers change nothing. */
  lemma {:induction false} WrapPapersStops(papers: seq<(string, seq<Statement>)>, pmidTerms: map<string, seq<SearchTerm>>,
                                           timestamp: DateTime, i: nat)
    requires i <= |papers| && WrapPapers(papers[..i], pmidTerms, timestamp).1
    ensures WrapPapers(papers, pmidTerms, timestamp) == WrapPapers(papers[..i], pmidTerms, timestamp)
    decreases |papers|
  {
    if i < |papers| {
      var init := papers[..|papers| - 1];
      assert init[..i] == papers[..i];
      WrapPapersStops(init, pmidTerms, timestamp, i);
    } else {
      assert papers[..i] == papers;
    }
  }
}
