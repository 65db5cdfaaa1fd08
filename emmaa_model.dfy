/**
 * emmaa/model.py: the `EmmaaModel` object (its configuration, its list of
 * EMMAA statements, literature search results and its S3 keys) and the
 * module-level helpers `last_updated_date`, `filter_relevance`, `get_models`,
 * `load_extra_evidence` and `run_preassembly_with_extra_evidence`.
 */
module EmmaaModels {
  import opened Wrappers
  import opened Strings
  import opened Seqs
  import opened JsonValues
  import opened Indra
  import opened SearchTerms
  import opened DateStamps
  import opened EmmaaStatements
  import opened EmmaaUtil

  // ---------------------------------------------------------------------
  // _load_config
  // ---------------------------------------------------------------------

  /** What `_load_config` stores on the model. */
  datatype ModelSettings = ModelSettings(
    searchTerms: seq<SearchTerm>,
    ndexNetwork: Json,
    readingConfig: Json,
    assemblyConfig: Json,
    testConfig: Json,
    queryConfig: Json,
    humanReadableName: Json,
    exportFormats: Json)

  const EmptyDict: Json := JObj(map[])

  /**
   * `[SearchTerm.from_json(s) for s in x]`. Iterating a string or a
   * dictionary yields strings, which `from_json` rejects with `TypeError`, so
   * only an empty string or dictionary gets through; other scalars are not
   * iterable.
   */
  function SearchTermsFromJson(j: Json): Result<seq<SearchTerm>>
  {
    match j
    case JArr(items) => MapAll(items, FromJson)
    case JStr(s) => if |s| == 0 then Ok([]) else Err(TypeError)
    case JObj(f) => if |f| == 0 then Ok([]) else Err(TypeError)
    case _ => Err(TypeError)
  }

  /**
   * `config.get('export_formats', [])` followed by removing `"gromet"` if it
   * is `in` the value: from a list the first occurrence goes; a string or a
   * dictionary that contains it has no `remove`; a scalar is not iterable.
   */
  function ExportFormats(config: map<string, Json>): Result<Json>
  {
    var ef := if "export_formats" in config then config["export_formats"] else JArr([]);
    match ef
    case JArr(items) => if JStr("gromet") in items then Ok(JArr(RemoveFirst(items, JStr("gromet")))) else Ok(ef)
    case JStr(s) => if Contains(s, "gromet") then Err(AttributeError) else Ok(ef)
    case JObj(f) => if "gromet" in f then Err(AttributeError) else Ok(ef)
    case _ => Err(TypeError)
  }

  /**
   * `_load_config(config)`: the search terms are parsed, `ndex.network` is
   * read when `ndex` is present, a list-valued `assembly` is wrapped as
   * `{'main': list}`, the other sections are copied when present and one
   * `"gromet"` is removed from the export formats.
   */
  function LoadConfig(config: Json): (r: Result<ModelSettings>)
    ensures !config.JObj? ==> r == Err(TypeError)
    ensures config.JObj? && "search_terms" !in config.fields ==> r == Err(KeyError)
    ensures r.Ok? ==> (config.JObj? && "search_terms" in config.fields
      && SearchTermsFromJson(config.fields["search_terms"]) == Ok(r.value.searchTerms))
    ensures r.Ok? && "ndex" !in config.fields ==> r.value.ndexNetwork == JNull
    ensures r.Ok? && "ndex" in config.fields ==>
      config.fields["ndex"].JObj? && "network" in config.fields["ndex"].fields
      && r.value.ndexNetwork == config.fields["ndex"].fields["network"]
    ensures r.Ok? && "assembly" !in config.fields ==> r.value.assemblyConfig == EmptyDict
    ensures r.Ok? && "assembly" in config.fields && config.fields["assembly"].JArr? ==>
      r.value.assemblyConfig == JObj(map["main" := config.fields["assembly"]])
    ensures r.Ok? && "assembly" in config.fields && !config.fields["assembly"].JArr? ==>
      r.value.assemblyConfig == config.fields["assembly"]
    ensures r.Ok? && "export_formats" !in config.fields ==> r.value.exportFormats == JArr([])
  {
    if !config.JObj? then Err(TypeError)
    else
      var f := config.fields;
      if "search_terms" !in f then Err(KeyError)
      else
        var terms := SearchTermsFromJson(f["search_terms"]);
        if terms.Err? then Err(terms.error)
        else if "ndex" in f && !f["ndex"].JObj? then Err(TypeError)
        else if "ndex" in f && "network" !in f["ndex"].fields then Err(KeyError)
        else
          var ndex := if "ndex" in f then f["ndex"].fields["network"] else JNull;
          var assembly :=
            if "assembly" !in f then EmptyDict
            else if f["assembly"].JArr? then JObj(map["main" := f["assembly"]])
            else f["assembly"];
          var formats := ExportFormats(f);
          if formats.Err? then Err(formats.error)
          else
            Ok(ModelSettings(
              terms.value, ndex,
              if "reading" in f then f["reading"] else EmptyDict,
              assembly,
              if "test" in f then f["test"] else EmptyDict,
              if "query" in f then f["query"] else EmptyDict,
              if "human_readable_name" in f then f["human_readable_name"] else JNull,
              formats.value))
  }

  /**
   * A list of export formats loses exactly one `"gromet"` when it has one
   * and keeps every other entry as often as before.
   */
  lemma LoadConfigDropsOneGromet(config: Json, y: Json)
    requires LoadConfig(config).Ok?
    requires "export_formats" in config.fields && config.fields["export_formats"].JArr?
    ensures LoadConfig(config).value.exportFormats.JArr?
    ensures var before := config.fields["export_formats"].items;
      var after := LoadConfig(config).value.exportFormats.items;
      Count(after, y) == Count(before, y) - (if y == JStr("gromet") && JStr("gromet") in before then 1 else 0)
  {
    var before := config.fields["export_formats"].items;
    if JStr("gromet") in before {
      RemoveFirstCount(before, JStr("gromet"), y);
    }
  }

  /** Every section a configuration without export formats and with a well-formed `ndex` loads to. */
  lemma LoadConfigSections(f: map<string, Json>, terms: seq<SearchTerm>)
    requires "search_terms" in f && SearchTermsFromJson(f["search_terms"]) == Ok(terms)
    requires "ndex" in f ==> f["ndex"].JObj? && "network" in f["ndex"].fields
    requires "export_formats" !in f
    ensures LoadConfig(JObj(f)).Ok?
    ensures var s := LoadConfig(JObj(f)).value;
            && s.searchTerms == terms
            && s.ndexNetwork == (if "ndex" in f then f["ndex"].fields["network"] else JNull)
            && s.readingConfig == (if "reading" in f then f["reading"] else EmptyDict)
            && s.assemblyConfig == (if "assembly" !in f then EmptyDict
                                    else if f["assembly"].JArr? then JObj(map["main" := f["assembly"]])
                                    else f["assembly"])
            && s.testConfig == (if "test" in f then f["test"] else EmptyDict)
            && s.queryConfig == (if "query" in f then f["query"] else EmptyDict)
            && s.humanReadableName == (if "human_readable_name" in f then f["human_readable_name"] else JNull)
            && s.exportFormats == JArr([])
  {
    assert JStr("gromet") !in [];
  }

  /** The smallest configuration the package's own model tests use. */
  lemma LoadConfigMinimal()
    ensures LoadConfig(JObj(map["search_terms" := JArr([]), "ndex" := JObj(map["network" := JNull])]))
      == Ok(ModelSettings([], JNull, EmptyDict, EmptyDict, EmptyDict, EmptyDict, JNull, JArr([])))
  {
    var f := map["search_terms" := JArr([]), "ndex" := JObj(map["network" := JNull])];
    assert "assembly" !in f && "reading" !in f && "test" !in f && "query" !in f;
    assert "human_readable_name" !in f && "export_formats" !in f;
    assert JStr("gromet") !in [];
  }

  // ---------------------------------------------------------------------
  // Statement hashes
  // ---------------------------------------------------------------------

  /** `estmt.stmt.get_hash(shallow=False, refresh=True)`. */
  function FullHash(e: EmmaaStatement): int
  {
    e.stmt.fullHash
  }

  /** The full hashes of a list of EMMAA statements. */
  function Hashes(s: seq<EmmaaStatement>): set<int>
  {
    set e | e in s :: FullHash(e)
  }

  // ---------------------------------------------------------------------
  // extend_unique
  // ---------------------------------------------------------------------

  /** The statements of `incoming` whose hash is not in `seen`, in order. */
  function Unseen(incoming: seq<EmmaaStatement>, seen: set<int>): seq<EmmaaStatement>
  {
    if |incoming| == 0 then []
    else
      var last := incoming[|incoming| - 1];
      Unseen(incoming[..|incoming| - 1], seen) + (if FullHash(last) in seen then [] else [last])
  }

  /** A statement is appended exactly when it is incoming and its hash was not seen. */
  lemma {:induction false} UnseenMembers(incoming: seq<EmmaaStatement>, seen: set<int>)
    ensures forall e :: e in Unseen(incoming, seen) <==> e in incoming && FullHash(e) !in seen
  {
    if |incoming| > 0 {
      var init := incoming[..|incoming| - 1];
      UnseenMembers(init, seen);
      assert incoming == init + [incoming[|incoming| - 1]];
    }
  }

  /** Appending keeps the incoming order: a batch splits into its parts. */
  lemma {:induction false} UnseenConcat(a: seq<EmmaaStatement>, b: seq<EmmaaStatement>, seen: set<int>)
    ensures Unseen(a + b, seen) == Unseen(a, seen) + Unseen(b, seen)
    decreases |b|
  {
    if |b| == 0 {
      assert a + b == a;
    } else {
      var b' := b[..|b| - 1];
      assert (a + b)[..|a + b| - 1] == a + b';
      UnseenConcat(a, b', seen);
    }
  }

  /**
   * The incoming batch is not de-duplicated against itself: two new
   * statements with the same hash are both appended.
   */
  lemma UnseenKeepsBatchDuplicates(e1: EmmaaStatement, e2: EmmaaStatement, seen: set<int>)
    requires FullHash(e1) == FullHash(e2) && FullHash(e1) !in seen
    ensures Unseen([e1, e2], seen) == [e1, e2]
  {
    assert [e1, e2][..1] == [e1];
    assert [e1][..0] == [];
    assert Unseen([e1], seen) == [e1];
  }

  // ---------------------------------------------------------------------
  // eliminate_copies: {hash: estmt for estmt in stmts}.values()
  // ---------------------------------------------------------------------

  /** The dictionary's keys in insertion order: each hash where it first occurs. */
  function DictKeys(s: seq<EmmaaStatement>): (ks: seq<int>)
    ensures forall i, j :: 0 <= i < j < |ks| ==> ks[i] != ks[j]
    ensures forall h :: h in ks <==> h in Hashes(s)
  {
    if |s| == 0 then []
    else
      var init := s[..|s| - 1];
      var h := FullHash(s[|s| - 1]);
      assert s == init + [s[|s| - 1]];
      var ks := DictKeys(init);
      if h in ks then ks else ks + [h]
  }

  /** The dictionary's values: for each hash the statement assigned last. */
  function DictValues(s: seq<EmmaaStatement>): (vs: map<int, EmmaaStatement>)
    ensures vs.Keys == Hashes(s)
    ensures forall h :: h in vs ==> FullHash(vs[h]) == h
  {
    if |s| == 0 then map[]
    else
      var init := s[..|s| - 1];
      assert s == init + [s[|s| - 1]];
      DictValues(init)[FullHash(s[|s| - 1]) := s[|s| - 1]]
  }

  /** `list({...}.values())`: one statement per hash, in the order of first occurrence. */
  function Deduplicated(s: seq<EmmaaStatement>): seq<EmmaaStatement>
  {
    var ks := DictKeys(s);
    var vs := DictValues(s);
    seq(|ks|, i requires 0 <= i < |ks| => vs[ks[i]])
  }

  /** The value kept for a hash is the last statement in the list with that hash. */
  lemma DictValuesAreLast(s: seq<EmmaaStatement>, h: int)
    requires h in Hashes(s)
    ensures exists i :: (0 <= i < |s| && s[i] == DictValues(s)[h]
      && forall j :: i < j < |s| ==> FullHash(s[j]) != h)
  {
    var i := DictValueIndex(s, h);
  }

  /** Where the value kept for a hash sits in the list. */
  lemma {:induction false} DictValueIndex(s: seq<EmmaaStatement>, h: int) returns (i: nat)
    requires h in Hashes(s)
    ensures i < |s| && s[i] == DictValues(s)[h] && forall j :: i < j < |s| ==> FullHash(s[j]) != h
  {
    var n := |s| - 1;
    var init := s[..n];
    assert s == init + [s[n]];
    if FullHash(s[n]) != h {
      assert h in Hashes(init);
      assert DictValues(s)[h] == DictValues(init)[h];
      i := DictValueIndex(init, h);
      assert s[i] == init[i];
    } else {
      i := n;
    }
  }

  /** Each key comes from a statement that occurs before the first statement carrying any later key. */
  lemma DictKeysFirstOccurrence(s: seq<EmmaaStatement>, a: nat, b: nat)
    requires a < b < |DictKeys(s)|
    ensures exists p :: (0 <= p < |s| && FullHash(s[p]) == DictKeys(s)[a]
      && forall q :: 0 <= q <= p ==> FullHash(s[q]) != DictKeys(s)[b])
  {
    var p := DictKeyBefore(s, a, b);
  }

  /** A statement carrying key `a` that comes before every statement carrying the later key `b`. */
  lemma {:induction false} DictKeyBefore(s: seq<EmmaaStatement>, a: nat, b: nat) returns (p: nat)
    requires a < b < |DictKeys(s)|
    ensures p < |s| && FullHash(s[p]) == DictKeys(s)[a]
    ensures forall q :: 0 <= q <= p ==> FullHash(s[q]) != DictKeys(s)[b]
  {
    var n := |s| - 1;
    var init := s[..n];
    assert s == init + [s[n]];
    var ks := DictKeys(init);
    if b < |ks| {
      p := DictKeyBefore(init, a, b);
      assert s[p] == init[p];
    } else {
      assert DictKeys(s)[b] == FullHash(s[n]) && FullHash(s[n]) !in Hashes(init);
      assert ks[a] in Hashes(init);
      var e :| e in init && FullHash(e) == ks[a];
      p :| 0 <= p < |init| && init[p] == e;
      forall q | 0 <= q <= p ensures FullHash(s[q]) != DictKeys(s)[b] {
        assert s[q] == init[q] && init[q] in init;
      }
    }
  }

  /**
   * `eliminate_copies` leaves one statement per hash, covers every hash,
   * keeps the last statement seen for each hash and orders them by each
   * hash's first occurrence.
   */
  lemma DeduplicatedMeaning(s: seq<EmmaaStatement>)
    ensures var r := Deduplicated(s);
      && (forall i, j :: 0 <= i < j < |r| ==> FullHash(r[i]) != FullHash(r[j]))
      && Hashes(r) == Hashes(s)
      && (forall i :: 0 <= i < |r| ==> exists k :: (0 <= k < |s| && s[k] == r[i]
            && forall j :: k < j < |s| ==> FullHash(s[j]) != FullHash(r[i])))
      && (forall a, b :: 0 <= a < b < |r| ==> exists p :: (0 <= p < |s| && FullHash(s[p]) == FullHash(r[a])
            && forall q :: 0 <= q <= p ==> FullHash(s[q]) != FullHash(r[b])))
  {
    var r := Deduplicated(s);
    var ks := DictKeys(s);
    assert forall i :: 0 <= i < |r| ==> FullHash(r[i]) == ks[i];
    forall h | h in Hashes(s) ensures h in Hashes(r) {
      var i :| 0 <= i < |ks| && ks[i] == h;
      assert r[i] in r;
    }
    forall i | 0 <= i < |r|
      ensures exists k :: 0 <= k < |s| && s[k] == r[i] && forall j :: k < j < |s| ==> FullHash(s[j]) != FullHash(r[i])
    {
      DictValuesAreLast(s, ks[i]);
    }
    forall a, b | 0 <= a < b < |r|
      ensures exists p :: 0 <= p < |s| && FullHash(s[p]) == FullHash(r[a]) && forall q :: 0 <= q <= p ==> FullHash(s[q]) != FullHash(r[b])
    {
      DictKeysFirstOccurrence(s, a, b);
    }
  }

  /** `list({stmt.get_hash(...): stmt for stmt in stmts}.values())`. */
  method Dedupe(s: seq<EmmaaStatement>) returns (out: seq<EmmaaStatement>)
    ensures out == Deduplicated(s)
  {
    var keys, values := HashDict(s);
    assert forall k :: 0 <= k < |keys| ==> keys[k] in values;
    out := [];
    for j := 0 to |keys|
      invariant |out| == j && forall k :: 0 <= k < j ==> out[k] == values[keys[k]]
    {
      out := out + [values[keys[j]]];
    }
  }

  /** The dictionary comprehension of `eliminate_copies`, built entry by entry. */
  method HashDict(s: seq<EmmaaStatement>) returns (keys: seq<int>, values: map<int, EmmaaStatement>)
    ensures keys == DictKeys(s) && values == DictValues(s)
  {
    keys := [];
    values := map[];
    for i := 0 to |s|
      invariant keys == DictKeys(s[..i]) && values == DictValues(s[..i])
    {
      var h := FullHash(s[i]);
      ghost var prefix := s[..i];
      assert s[..i + 1][..i] == prefix && s[..i + 1][i] == s[i];
      assert h in values <==> h in keys;
      if h !in values {
        keys := keys + [h];
      }
      values := values[h := s[i]];
    }
    assert s[..|s|] == s;
  }

  // ---------------------------------------------------------------------
  // search_literature: inverting term -> ids into id -> terms
  // ---------------------------------------------------------------------

  /** What a literature search returns: each term with the ids it produced, in dictionary order. */
  type TermsToIds = seq<(SearchTerm, seq<string>)>

  /** The (term, id) pairs of one term, in the order of its ids. */
  function TermHits(t: SearchTerm, ids: seq<string>): (hs: seq<(SearchTerm, string)>)
    ensures |hs| == |ids| && forall k :: 0 <= k < |ids| ==> hs[k] == (t, ids[k])
  {
    seq(|ids|, k requires 0 <= k < |ids| => (t, ids[k]))
  }

  /** All (term, id) pairs in the order the nested loop visits them. */
  function Hits(tti: TermsToIds): seq<(SearchTerm, string)>
  {
    if |tti| == 0 then [] else Hits(tti[..|tti| - 1]) + TermHits(tti[|tti| - 1].0, tti[|tti| - 1].1)
  }

  /** The dictionary the nested loop builds from the pairs visited so far. */
  function Inverted(hits: seq<(SearchTerm, string)>): map<string, seq<SearchTerm>>
  {
    if |hits| == 0 then map[]
    else
      var m := Inverted(hits[..|hits| - 1]);
      var (t, id) := hits[|hits| - 1];
      if id in m then m[id := m[id] + [t]] else m[id := [t]]
  }

  /** The terms paired with `id`, in visiting order, once per pairing. */
  function TermsFor(hits: seq<(SearchTerm, string)>, id: string): seq<SearchTerm>
  {
    if |hits| == 0 then []
    else TermsFor(hits[..|hits| - 1], id) + (if hits[|hits| - 1].1 == id then [hits[|hits| - 1].0] else [])
  }

  /** The inverted dictionary has an entry exactly for the ids produced, listing their terms. */
  lemma {:induction false} InvertedMeaning(hits: seq<(SearchTerm, string)>, id: string)
    ensures id in Inverted(hits) <==> exists k :: 0 <= k < |hits| && hits[k].1 == id
    ensures id in Inverted(hits) ==> Inverted(hits)[id] == TermsFor(hits, id)
  {
    if |hits| > 0 {
      var init := hits[..|hits| - 1];
      InvertedMeaning(init, id);
      assert forall k :: 0 <= k < |init| ==> init[k] == hits[k];
      if id !in Inverted(init) {
        TermsForAbsent(init, id);
      }
    }
  }

  lemma {:induction false} TermsForAbsent(hits: seq<(SearchTerm, string)>, id: string)
    requires forall k :: 0 <= k < |hits| ==> hits[k].1 != id
    ensures TermsFor(hits, id) == []
  {
    if |hits| > 0 {
      TermsForAbsent(hits[..|hits| - 1], id);
    }
  }

  /**
   * A term is listed under an id once for every time the id appears in the
   * term's results: one more search result appends that many copies.
   */
  lemma {:induction false} TermsForNextTerm(tti: TermsToIds, t: SearchTerm, ids: seq<string>, id: string)
    ensures TermsFor(Hits(tti + [(t, ids)]), id) == TermsFor(Hits(tti), id) + seq(Count(ids, id), _ => t)
  {
    assert (tti + [(t, ids)])[..|tti|] == tti;
    TermsForAppend(Hits(tti), t, ids, id);
  }

  lemma {:induction false} TermsForAppend(hits: seq<(SearchTerm, string)>, t: SearchTerm, ids: seq<string>, id: string)
    ensures TermsFor(hits + TermHits(t, ids), id) == TermsFor(hits, id) + seq(Count(ids, id), _ => t)
    decreases |ids|
  {
    if |ids| == 0 {
      assert hits + TermHits(t, ids) == hits;
    } else {
      var ids' := ids[..|ids| - 1];
      assert (hits + TermHits(t, ids))[..|hits| + |ids'|] == hits + TermHits(t, ids');
      TermsForAppend(hits, t, ids', id);
    }
  }

  /** The nested loop of `search_literature` over one term's ids. */
  method AddTermHits(m: map<string, seq<SearchTerm>>, ghost before: seq<(SearchTerm, string)>, term: SearchTerm, ids: seq<string>)
    returns (m': map<string, seq<SearchTerm>>)
    requires m == Inverted(before)
    ensures m' == Inverted(before + TermHits(term, ids))
  {
    m' := m;
    assert before + TermHits(term, ids[..0]) == before;
    for j := 0 to |ids|
      invariant m' == Inverted(before + TermHits(term, ids[..j]))
    {
      ghost var visited := before + TermHits(term, ids[..j]);
      assert before + TermHits(term, ids[..j + 1]) == visited + [(term, ids[j])];
      assert (visited + [(term, ids[j])])[..|visited|] == visited;
      if ids[j] in m' {
        m' := m'[ids[j] := m'[ids[j]] + [term]];
      } else {
        m' := m'[ids[j] := [term]];
      }
    }
    assert ids[..|ids|] == ids;
  }

  /** The loops of `search_literature` that turn term -> ids into id -> terms. */
  method InvertTermsToIds(termsToIds: TermsToIds) returns (idsToTerms: map<string, seq<SearchTerm>>)
    ensures idsToTerms == Inverted(Hits(termsToIds))
  {
    idsToTerms := map[];
    for i := 0 to |termsToIds|
      invariant idsToTerms == Inverted(Hits(termsToIds[..i]))
    {
      var (term, ids) := termsToIds[i];
      assert termsToIds[..i + 1][..i] == termsToIds[..i];
      assert Hits(termsToIds[..i + 1]) == Hits(termsToIds[..i]) + TermHits(term, ids);
      idsToTerms := AddTermHits(idsToTerms, Hits(termsToIds[..i]), term, ids);
    }
    assert termsToIds[..|termsToIds|] == termsToIds;
  }

  // ---------------------------------------------------------------------
  // save_to_s3 and load_from_s3
  // ---------------------------------------------------------------------

  /** `models/{name}/model_{date}.pkl`. */
  function ModelKey(name: string, date: string): string
  {
    "models/" + name + "/model_" + date + ".pkl"
  }

  /** `papers/{name}/paper_ids_{date}.json`. */
  function PaperIdsKey(name: string, date: string): string
  {
    "papers/" + name + "/paper_ids_" + date + ".json"
  }

  /**
   * The paper-ids key `load_from_s3` reads for the statements key it found:
   * the key's date token (`strip_out_date`) put into the paper-ids pattern.
   */
  function PaperIdsKeyForModelKey(name: string, modelKey: string): Result<string>
  {
    var date := DateToken(modelKey);
    if date.Err? then Err(date.error) else Ok(PaperIdsKey(name, date.value))
  }

  /** A date text made only of digits and `-`, as every stamp is. */
  predicate StampChars(d: string)
  {
    forall i :: 0 <= i < |d| ==> d[i] == '-' || IsDigit(d[i])
  }

  /** The model key's date token is the date it was written with. */
  lemma ModelKeyDate(name: string, date: string)
    requires '/' !in name && StampChars(date)
    ensures DateToken(ModelKey(name, date)) == Ok(date)
  {
    assert '/' !in date && '_' !in date && '.' !in date;
    assert ModelKey(name, date) == ("models/" + name) + "/" + "model" + "_" + date + ".pkl";
    assert ".pkl"[1..] == "pkl";
    DateTokenOfKey("models/" + name, "model", date, ".pkl");
  }

  /** `load_from_s3` reads exactly the paper-ids key `save_to_s3` wrote next to the model key. */
  lemma SaveLoadPairing(name: string, date: string)
    requires '/' !in name && StampChars(date)
    ensures PaperIdsKeyForModelKey(name, ModelKey(name, date)) == Ok(PaperIdsKey(name, date))
  {
    ModelKeyDate(name, date);
  }

  /** A key written by `save_to_s3` is dated, by `find_latest_s3_file`, with the model's own date. */
  lemma ModelKeyIsDatedByItsStamp(name: string, d: DateTime)
    requires '/' !in name && Valid(d) && d.year >= 1000
    ensures ProcessKey(ModelKey(name, MakeDateStr(Some(d), d))) == Ok(d)
  {
    var s := MakeDateStr(Some(d), d);
    StampShapeChars(s);
    ModelKeyDate(name, s);
  }

  lemma StampShapeChars(s: string)
    requires IsStampShape(s)
    ensures StampChars(s)
  {
    TailChars(s[4..]);
    forall i | 0 <= i < |s| ensures s[i] == '-' || IsDigit(s[i]) {
      if i >= 4 { assert s[i] == s[4..][i - 4]; }
    }
  }

  lemma {:induction false} TailChars(t: string)
    requires IsTail(t)
    ensures StampChars(t)
    decreases |t|
  {
    if |t| > 0 {
      TailChars(t[3..]);
      forall i | 3 <= i < |t| ensures t[i] == '-' || IsDigit(t[i]) {
        assert t[i] == t[3..][i - 3];
      }
    }
  }

  // ---------------------------------------------------------------------
  // EmmaaModel
  // ---------------------------------------------------------------------

  /** The literature sources `search_literature` knows. */
  const LiteratureSources: set<string> := {"pubmed", "biorxiv", "elsevier"}

  class EmmaaModel {
    var name: string
    var stmts: seq<EmmaaStatement>
    var settings: ModelSettings
    var paperIds: set<string>
    var dateStr: string

    /**
     * `EmmaaModel(name, config, paper_ids)` once the configuration has
     * loaded: no statements yet, the paper ids as a set and the stamp of the
     * current UTC time (`utcNow`).
     */
    constructor(name: string, settings: ModelSettings, paperIds: seq<string>, utcNow: DateTime)
      requires Valid(utcNow)
      ensures this.name == name && this.stmts == [] && this.settings == settings
      ensures this.paperIds == set p | p in paperIds
      ensures this.dateStr == MakeDateStr(None, utcNow)
    {
      this.name := name;
      this.stmts := [];
      this.settings := settings;
      this.paperIds := set p | p in paperIds;
      this.dateStr := MakeDateStr(None, utcNow);
    }

    /** `EmmaaModel(name, config, paper_ids)`: fails exactly as `_load_config` fails. */
    static method Create(name: string, config: Json, paperIds: seq<string>, utcNow: DateTime) returns (r: Result<EmmaaModel>)
      requires Valid(utcNow)
      ensures r.Err? <==> LoadConfig(config).Err?
      ensures r.Err? ==> r.error == LoadConfig(config).error
      ensures r.Ok? ==> (fresh(r.value) && r.value.name == name && r.value.stmts == []
        && r.value.settings == LoadConfig(config).value && r.value.dateStr == MakeDateStr(None, utcNow)
        && r.value.paperIds == (set p | p in paperIds))
    {
      var settings := LoadConfig(config);
      if settings.Err? {
        return Err(settings.error);
      }
      var m := new EmmaaModel(name, settings.value, paperIds, utcNow);
      return Ok(m);
    }

    /** `add_statements(stmts)`: the new statements go after the existing ones. */
    method AddStatements(newStmts: seq<EmmaaStatement>)
      modifies this`stmts
      ensures stmts == old(stmts) + newStmts
    {
      stmts := stmts + newStmts;
    }

    /**
     * `extend_unique(estmts)`: appends, in order, the incoming statements
     * whose hash was not among the model's hashes when the call began.
     */
    method ExtendUnique(estmts: seq<EmmaaStatement>)
      modifies this`stmts
      ensures stmts == old(stmts) + Unseen(estmts, Hashes(old(stmts)))
    {
      var sourceHashes := set e | e in stmts :: FullHash(e);
      for i := 0 to |estmts|
        invariant stmts == old(stmts) + Unseen(estmts[..i], sourceHashes)
      {
        assert estmts[..i + 1][..i] == estmts[..i];
        if FullHash(estmts[i]) !in sourceHashes {
          stmts := stmts + [estmts[i]];
        }
      }
      assert estmts[..|estmts|] == estmts;
    }

    /** `eliminate_copies()`: one statement per hash, see `DeduplicatedMeaning`. */
    method EliminateCopies()
      modifies this`stmts
      ensures stmts == Deduplicated(old(stmts))
    {
      var s := stmts;
      var out := Dedupe(s);
      stmts := out;
    }

    /**
     * `search_literature(lit_source)`: the selected search's term -> ids
     * results inverted into id -> terms. The searches themselves are given
     * as functions; bioRxiv is searched for the reading configuration's
     * `collection_id` (default `'181'`). An unknown source raises
     * `ValueError` before any search.
     */
    method SearchLiterature(
      litSource: string,
      searchPubmed: seq<SearchTerm> -> TermsToIds,
      searchBiorxiv: Json -> TermsToIds,
      searchElsevier: seq<SearchTerm> -> TermsToIds)
      returns (r: Result<map<string, seq<SearchTerm>>>)
      ensures litSource !in LiteratureSources ==> r == Err(ValueError)
      ensures litSource == "biorxiv" && !settings.readingConfig.JObj? ==> r == Err(AttributeError)
      ensures r.Err? <==> litSource !in LiteratureSources || (litSource == "biorxiv" && !settings.readingConfig.JObj?)
      ensures litSource == "pubmed" ==> r == Ok(Inverted(Hits(searchPubmed(settings.searchTerms))))
      ensures litSource == "elsevier" ==> r == Ok(Inverted(Hits(searchElsevier(settings.searchTerms))))
      ensures r.Ok? ==> r.value == Inverted(Hits(LiteratureResults(litSource, settings, searchPubmed, searchBiorxiv, searchElsevier).value))
    {
      var found := LiteratureResults(litSource, settings, searchPubmed, searchBiorxiv, searchElsevier);
      if found.Err? {
        return Err(found.error);
      }
      var idsToTerms := InvertTermsToIds(found.value);
      return Ok(idsToTerms);
    }

    /** `save_to_s3()`: the model key and the paper-ids key it writes, sharing the model's stamp. */
    method SaveToS3() returns (modelKey: string, paperIdsKey: string)
      ensures modelKey == ModelKey(name, dateStr) && paperIdsKey == PaperIdsKey(name, dateStr)
      ensures '/' !in name && StampChars(dateStr) ==> PaperIdsKeyForModelKey(name, modelKey) == Ok(paperIdsKey)
    {
      modelKey := ModelKey(name, dateStr);
      paperIdsKey := PaperIdsKey(name, dateStr);
      if '/' !in name && StampChars(dateStr) {
        SaveLoadPairing(name, dateStr);
      }
    }
  }

  /**
   * The term -> ids results of the selected search, or `ValueError` for an
   * unknown source. The bioRxiv collection id is `reading_config.get(...)`,
   * which needs the reading configuration to be a dictionary.
   */
  function LiteratureResults(
    litSource: string,
    settings: ModelSettings,
    searchPubmed: seq<SearchTerm> -> TermsToIds,
    searchBiorxiv: Json -> TermsToIds,
    searchElsevier: seq<SearchTerm> -> TermsToIds): Result<TermsToIds>
  {
    if litSource == "pubmed" then Ok(searchPubmed(settings.searchTerms))
    else if litSource == "biorxiv" then
      if !settings.readingConfig.JObj? then Err(AttributeError)
      else
        var rc := settings.readingConfig.fields;
        Ok(searchBiorxiv(if "collection_id" in rc then rc["collection_id"] else JStr("181")))
    else if litSource == "elsevier" then Ok(searchElsevier(settings.searchTerms))
    else Err(ValueError)
  }

  // ---------------------------------------------------------------------
  // last_updated_date
  // ---------------------------------------------------------------------

  /**
   * The new and the old key prefix `last_updated_date` searches for a file
   * type; `TypeError` for any other type.
   */
  function UpdatePrefixes(model: string, fileType: string, tests: string): Result<(string, string)>
  {
    if fileType == "model" then Ok(("models/" + model + "/model_", "models/" + model + "/model_"))
    else if fileType == "test_results" then Ok(("results/" + model + "/results_" + tests, "results/" + model + "/results_"))
    else if fileType == "model_stats" then Ok(("model_stats/" + model + "/model_stats_", "stats/" + model + "/stats_"))
    else if fileType == "test_stats" then Ok(("stats/" + model + "/test_stats_" + tests, "stats/" + model + "/stats_"))
    else Err(TypeError)
  }

  /**
   * `last_updated_date(model, file_type, tests=tests)`. `latestDate(prefix)`
   * stands for `strip_out_date(find_nth_latest_s3_file(n, bucket, prefix,
   * extension), date_format)`, whose `TypeError` means that nothing was
   * found. The old prefix is tried only after the new one found nothing, and
   * `''` is returned when neither finds anything; an unsupported type raises
   * `TypeError`, which is the only way the call raises it.
   */
  function LastUpdatedDate(model: string, fileType: string, tests: string, latestDate: string -> Result<string>): (r: Result<string>)
    ensures r == Err(TypeError) <==> UpdatePrefixes(model, fileType, tests).Err?
    ensures UpdatePrefixes(model, fileType, tests).Ok? && latestDate(UpdatePrefixes(model, fileType, tests).value.0) != Err(TypeError)
      ==> r == latestDate(UpdatePrefixes(model, fileType, tests).value.0)
    ensures UpdatePrefixes(model, fileType, tests).Ok? && latestDate(UpdatePrefixes(model, fileType, tests).value.0) == Err(TypeError)
      ==> r == (if latestDate(UpdatePrefixes(model, fileType, tests).value.1) == Err(TypeError) then Ok("")
                else latestDate(UpdatePrefixes(model, fileType, tests).value.1))
  {
    var prefixes := UpdatePrefixes(model, fileType, tests);
    if prefixes.Err? then Err(TypeError)
    else
      var fromNew := latestDate(prefixes.value.0);
      if fromNew != Err(TypeError) then fromNew
      else
        var fromOld := latestDate(prefixes.value.1);
        if fromOld != Err(TypeError) then fromOld else Ok("")
  }

  /** When the new prefix finds a date, what the old prefix would find does not matter. */
  lemma LastUpdatedDateIgnoresOldPrefix(model: string, fileType: string, tests: string, f: string -> Result<string>, g: string -> Result<string>)
    requires UpdatePrefixes(model, fileType, tests).Ok?
    requires var newPrefix := UpdatePrefixes(model, fileType, tests).value.0;
      f(newPrefix) == g(newPrefix) && f(newPrefix).Ok?
    ensures LastUpdatedDate(model, fileType, tests, f) == LastUpdatedDate(model, fileType, tests, g)
  {
  }

  /**
   * Test results under the new naming carry the corpus name after the old
   * prefix, so the old prefix also lists them; models use one prefix.
   */
  lemma UpdatePrefixesNesting(model: string, tests: string)
    ensures var p := UpdatePrefixes(model, "test_results", tests).value; StartsWith(p.0, p.1)
    ensures var p := UpdatePrefixes(model, "model", tests).value; p.0 == p.1
  {
    var p := UpdatePrefixes(model, "test_results", tests).value;
    assert p.0 == p.1 + tests;
  }

  // ---------------------------------------------------------------------
  // filter_relevance
  // ---------------------------------------------------------------------

  /**
   * Whether `filter_relevance` keeps a statement: every statement without a
   * policy; under `'prior_one'` one sharing an agent name with the search
   * term names; under `'prior_all'` one whose agent names all are search
   * term names; under any other policy none.
   */
  predicate Relevant(s: Statement, stnames: set<string>, policy: Option<string>)
  {
    || (policy == Some("prior_one") && AgentNames(s) * stnames != {})
    || (policy == Some("prior_all") && AgentNames(s) <= stnames)
    || policy.None?
  }

  /** The relevant statements, in their original order. */
  function RelevantStmts(stmts: seq<Statement>, stnames: set<string>, policy: Option<string>): seq<Statement>
  {
    if |stmts| == 0 then []
    else
      var last := stmts[|stmts| - 1];
      RelevantStmts(stmts[..|stmts| - 1], stnames, policy) + (if Relevant(last, stnames, policy) then [last] else [])
  }

  /** `filter_relevance(stmts, stnames, policy)`. */
  method FilterRelevance(stmts: seq<Statement>, stnames: set<string>, policy: Option<string>) returns (stmtsOut: seq<Statement>)
    ensures stmtsOut == RelevantStmts(stmts, stnames, policy)
  {
    stmtsOut := [];
    for i := 0 to |stmts|
      invariant stmtsOut == RelevantStmts(stmts[..i], stnames, policy)
    {
      assert stmts[..i + 1][..i] == stmts[..i];
      var agnames := AgentNames(stmts[i]);
      if policy == Some("prior_one") && agnames * stnames != {} {
        stmtsOut := stmtsOut + [stmts[i]];
      } else if policy == Some("prior_all") && agnames <= stnames {
        stmtsOut := stmtsOut + [stmts[i]];
      } else if policy.None? {
        stmtsOut := stmtsOut + [stmts[i]];
      }
    }
    assert stmts[..|stmts|] == stmts;
  }

  /** A statement is kept exactly when it is in the input and relevant. */
  lemma {:induction false} RelevantStmtsMembers(stmts: seq<Statement>, stnames: set<string>, policy: Option<string>)
    ensures forall s :: s in RelevantStmts(stmts, stnames, policy) <==> s in stmts && Relevant(s, stnames, policy)
  {
    if |stmts| > 0 {
      RelevantStmtsMembers(stmts[..|stmts| - 1], stnames, policy);
      assert stmts == stmts[..|stmts| - 1] + [stmts[|stmts| - 1]];
    }
  }

  /** Without a policy every statement is kept, in order; with an unknown policy none is. */
  lemma {:induction false} RelevantStmtsPolicies(stmts: seq<Statement>, stnames: set<string>, other: string)
    requires other != "prior_one" && other != "prior_all"
    ensures RelevantStmts(stmts, stnames, None) == stmts
    ensures RelevantStmts(stmts, stnames, Some(other)) == []
  {
    if |stmts| > 0 {
      var init := stmts[..|stmts| - 1];
      var last := stmts[|stmts| - 1];
      RelevantStmtsPolicies(init, stnames, other);
      assert Some(other) != Some("prior_one") && Some(other) != Some("prior_all");
      assert !Relevant(last, stnames, Some(other)) && Relevant(last, stnames, None);
      assert RelevantStmts(stmts, stnames, None) == init + [last];
      assert stmts == init + [last];
    }
  }

  /** Everything kept under `'prior_all'` with a non-empty set of names is kept under `'prior_one'`. */
  lemma PriorAllWithAgentsIsPriorOne(s: Statement, stnames: set<string>)
    requires Relevant(s, stnames, Some("prior_all")) && AgentNames(s) != {}
    ensures Relevant(s, stnames, Some("prior_one"))
  {
    var n :| n in AgentNames(s);
    assert n in AgentNames(s) * stnames;
  }

  // ---------------------------------------------------------------------
  // get_models
  // ---------------------------------------------------------------------

  /** An entry of `get_models`: a model name, or a name with its configuration. */
  datatype ModelEntry = Name(model: string) | NameAndConfig(model: string, config: Json)

  /** `prefix.split('/')[1]`. */
  function ModelOfPrefix(prefix: string): Result<string>
  {
    var parts := Split(prefix, '/');
    if |parts| < 2 then Err(IndexError) else Ok(parts[1])
  }

  /**
   * One listed prefix: its model is skipped when it is `test` or has no
   * configuration, and, unless dev models are included, when its
   * configuration sets `dev_only` (`.get` needs a dictionary).
   */
  function ModelEntryFor(prefix: string, includeConfig: bool, includeDev: bool, loadConfig: string -> Json): Result<Option<ModelEntry>>
  {
    var model := ModelOfPrefix(prefix);
    if model.Err? then Err(model.error)
    else
      var config := loadConfig(model.value);
      if model.value == "test" || !Truthy(config) then Ok(None)
      else if !includeDev && !config.JObj? then Err(AttributeError)
      else if !includeDev && Truthy(Get(config.fields, "dev_only")) then Ok(None)
      else if includeConfig then Ok(Some(NameAndConfig(model.value, config)))
      else Ok(Some(Name(model.value)))
  }

  function ModelStep(includeConfig: bool, includeDev: bool, loadConfig: string -> Json): string -> Result<Option<ModelEntry>>
  {
    prefix => ModelEntryFor(prefix, includeConfig, includeDev, loadConfig)
  }

  /**
   * `get_models(include_config, include_dev, config_load_func)` over the
   * listed common prefixes of `models/`.
   */
  method GetModels(prefixes: seq<string>, includeConfig: bool, includeDev: bool, loadConfig: string -> Json)
    returns (r: Result<seq<ModelEntry>>)
    ensures r == Collect(prefixes, ModelStep(includeConfig, includeDev, loadConfig))
  {
    var step := ModelStep(includeConfig, includeDev, loadConfig);
    var modelData: seq<ModelEntry> := [];
    for i := 0 to |prefixes|
      invariant Collect(prefixes[..i], step) == Ok(modelData)
    {
      assert prefixes[..i + 1][..i] == prefixes[..i];
      var entry := ModelEntryFor(prefixes[i], includeConfig, includeDev, loadConfig);
      if entry.Err? {
        CollectErrPrefix(prefixes, step, i + 1);
        return Err(entry.error);
      }
      if entry.value.Some? {
        modelData := modelData + [entry.value.value];
      }
    }
    assert prefixes[..|prefixes|] == prefixes;
    return Ok(modelData);
  }

  /**
   * No entry is the `test` model, every entry has a configuration, and
   * without `include_dev` no entry's configuration sets `dev_only`.
   */
  lemma GetModelsExcludes(prefixes: seq<string>, includeConfig: bool, includeDev: bool, loadConfig: string -> Json, e: ModelEntry)
    requires Collect(prefixes, ModelStep(includeConfig, includeDev, loadConfig)).Ok?
    requires e in Collect(prefixes, ModelStep(includeConfig, includeDev, loadConfig)).value
    ensures e.model != "test" && Truthy(loadConfig(e.model))
    ensures !includeDev ==> loadConfig(e.model).JObj? && !Truthy(Get(loadConfig(e.model).fields, "dev_only"))
    ensures e.NameAndConfig? <==> includeConfig
    ensures e.NameAndConfig? ==> e.config == loadConfig(e.model)
  {
    CollectMeaning(prefixes, ModelStep(includeConfig, includeDev, loadConfig));
  }

  // ---------------------------------------------------------------------
  // load_extra_evidence
  // ---------------------------------------------------------------------

  /** `stmt_hashes[offset:offset + batch_size]` and the batches after it, while the offset is inside the list. */
  function BatchesFrom(hashes: seq<int>, batchSize: int, offset: nat): seq<seq<int>>
    requires batchSize > 0 && offset <= |hashes|
    decreases |hashes| - offset
  {
    var stop := if offset + batchSize <= |hashes| then offset + batchSize else |hashes|;
    [hashes[offset..stop]] + (if offset + batchSize < |hashes| then BatchesFrom(hashes, batchSize, offset + batchSize) else [])
  }

  /** The hash batches the `while True` loop queries: at least one, the whole list when `batch_size` is falsy. */
  function Batches(hashes: seq<int>, batchSize: int): seq<seq<int>>
    requires batchSize > 0 || |hashes| == 0
  {
    if batchSize > 0 then BatchesFrom(hashes, batchSize, 0) else [hashes]
  }

  /** The batches, in order, make up the rest of the hash list. */
  lemma {:induction false} BatchesFromCover(hashes: seq<int>, batchSize: int, offset: nat)
    requires batchSize > 0 && offset <= |hashes|
    ensures Concat(BatchesFrom(hashes, batchSize, offset)) == hashes[offset..]
    decreases |hashes| - offset
  {
    var stop := if offset + batchSize <= |hashes| then offset + batchSize else |hashes|;
    var first := hashes[offset..stop];
    if offset + batchSize < |hashes| {
      var rest := BatchesFrom(hashes, batchSize, offset + batchSize);
      assert BatchesFrom(hashes, batchSize, offset) == [first] + rest;
      BatchesFromCover(hashes, batchSize, offset + batchSize);
      ConcatPrepend(first, rest);
      TailSplit(hashes, offset, offset + batchSize);
    } else {
      assert BatchesFrom(hashes, batchSize, offset) == [first] + [];
      ConcatPrepend(first, []);
      assert first + [] == hashes[offset..];
    }
  }

  /** No batch is longer than the batch size. */
  lemma {:induction false} BatchesFromBounded(hashes: seq<int>, batchSize: int, offset: nat)
    requires batchSize > 0 && offset <= |hashes|
    ensures forall b :: b in BatchesFrom(hashes, batchSize, offset) ==> |b| <= batchSize
    decreases |hashes| - offset
  {
    if offset + batchSize < |hashes| {
      BatchesFromBounded(hashes, batchSize, offset + batchSize);
    }
  }

  lemma BatchesCover(hashes: seq<int>, batchSize: int)
    requires batchSize > 0 || |hashes| == 0
    ensures |Batches(hashes, batchSize)| >= 1
    ensures Concat(Batches(hashes, batchSize)) == hashes
    ensures batchSize > 0 ==> forall b :: b in Batches(hashes, batchSize) ==> |b| <= batchSize
  {
    if batchSize > 0 {
      BatchesFromCover(hashes, batchSize, 0);
      BatchesFromBounded(hashes, batchSize, 0);
      assert hashes[0..] == hashes;
    } else {
      ConcatPrepend(hashes, []);
      assert [hashes] + [] == [hashes];
      assert hashes + [] == hashes;
    }
  }

  /** The statements the database returns for the batches, in batch order. */
  function Fetched(batches: seq<seq<int>>, queryMethod: string, fetch: (string, seq<int>) -> seq<Statement>): seq<Statement>
  {
    if |batches| == 0 then [] else fetch(queryMethod, batches[0]) + Fetched(batches[1..], queryMethod, fetch)
  }

  /** `{stmt.get_hash(): stmt.evidence for stmt in new_stmts}`. */
  function EvidenceByHash(newStmts: seq<Statement>): map<int, seq<Evidence>>
  {
    if |newStmts| == 0 then map[]
    else
      var last := newStmts[|newStmts| - 1];
      EvidenceByHash(newStmts[..|newStmts| - 1])[last.shallowHash := last.evidence]
  }

  /** The evidence recorded for a hash is that of the last returned statement with the hash. */
  lemma {:induction false} EvidenceByHashIsLast(newStmts: seq<Statement>, h: int)
    ensures h in EvidenceByHash(newStmts) <==> exists k :: 0 <= k < |newStmts| && newStmts[k].shallowHash == h
    ensures h in EvidenceByHash(newStmts) ==> exists k :: (0 <= k < |newStmts| && newStmts[k].shallowHash == h
      && newStmts[k].evidence == EvidenceByHash(newStmts)[h] && forall j :: k < j < |newStmts| ==> newStmts[j].shallowHash != h)
  {
    if |newStmts| > 0 {
      var init := newStmts[..|newStmts| - 1];
      EvidenceByHashIsLast(init, h);
      assert forall k :: 0 <= k < |init| ==> init[k] == newStmts[k];
    }
  }

  /** `evid_by_hash.get(h, [])`. */
  function EvidenceFor(evidByHash: map<int, seq<Evidence>>, h: int): seq<Evidence>
  {
    if h in evidByHash then evidByHash[h] else []
  }

  /** The shallow hashes of the statements, in order. */
  function ShallowHashes(stmts: seq<Statement>): (hs: seq<int>)
    ensures |hs| == |stmts| && forall i :: 0 <= i < |stmts| ==> hs[i] == stmts[i].shallowHash
  {
    seq(|stmts|, i requires 0 <= i < |stmts| => stmts[i].shallowHash)
  }

  /** The evidence `load_extra_evidence` fetches for the statements, by shallow hash. */
  function FetchedEvidence(stmts: seq<Statement>, queryMethod: string, batchSize: int,
                           fetch: (string, seq<int>) -> seq<Statement>): map<int, seq<Evidence>>
    requires batchSize > 0 || |stmts| == 0
  {
    EvidenceByHash(Fetched(Batches(ShallowHashes(stmts), batchSize), queryMethod, fetch))
  }

  /** The statements, each with the evidence fetched for its hash appended to its own. */
  function WithExtraEvidence(stmts: seq<Statement>, evid: map<int, seq<Evidence>>): seq<Statement>
  {
    seq(|stmts|, i requires 0 <= i < |stmts| => stmts[i].(evidence := stmts[i].evidence + EvidenceFor(evid, stmts[i].shallowHash)))
  }

  /** When the database returns nothing, the statements are unchanged. */
  lemma NothingFetchedNothingAdded(stmts: seq<Statement>)
    ensures WithExtraEvidence(stmts, map[]) == stmts
  {
    forall i | 0 <= i < |stmts| ensures WithExtraEvidence(stmts, map[])[i] == stmts[i] {
      assert stmts[i].evidence + [] == stmts[i].evidence;
    }
  }

  /** The query methods `load_extra_evidence` knows. */
  const QueryMethods: set<string> := {"rest_api", "db_query"}

  /**
   * `load_extra_evidence(stmts, method, batch_size=batch_size)`: the hashes
   * are queried batch by batch (`fetch` stands for the REST or database
   * query), and each statement's evidence is extended by the evidence of
   * the last returned statement with its hash. An unknown method leaves
   * `batch_stmts` unbound. A zero `batch_size` with statements to query, or
   * a negative one, never leaves the loop, so both are excluded.
   */
  method LoadExtraEvidence(stmts: seq<Statement>, queryMethod: string, batchSize: int, fetch: (string, seq<int>) -> seq<Statement>)
    returns (r: Result<seq<Statement>>)
    requires batchSize > 0 || (batchSize == 0 && |stmts| == 0)
    ensures queryMethod !in QueryMethods <==> r == Err(NameError)
    ensures queryMethod in QueryMethods ==> r.Ok?
    ensures r.Ok? ==> r.value == WithExtraEvidence(stmts, FetchedEvidence(stmts, queryMethod, batchSize, fetch))
    ensures r.Ok? ==> |r.value| == |stmts|
    ensures r.Ok? ==> var evid := FetchedEvidence(stmts, queryMethod, batchSize, fetch);
      forall i :: 0 <= i < |stmts| ==>
        r.value[i] == stmts[i].(evidence := stmts[i].evidence + EvidenceFor(evid, stmts[i].shallowHash))
  {
    var hashes := ShallowHashes(stmts);
    if queryMethod !in QueryMethods {
      return Err(NameError);
    }
    var newStmts := FetchBatches(hashes, queryMethod, batchSize, fetch);
    var evidByHash := EvidenceByHash(newStmts);
    var out: seq<Statement> := [];
    for i := 0 to |stmts|
      invariant |out| == i
      invariant forall k :: 0 <= k < i ==> out[k] == stmts[k].(evidence := stmts[k].evidence + EvidenceFor(evidByHash, stmts[k].shallowHash))
    {
      out := out + [stmts[i].(evidence := stmts[i].evidence + EvidenceFor(evidByHash, stmts[i].shallowHash))];
    }
    return Ok(out);
  }

  /** The `while True` loop of `load_extra_evidence`: one query per batch, results in order. */
  method FetchBatches(hashes: seq<int>, queryMethod: string, batchSize: int, fetch: (string, seq<int>) -> seq<Statement>)
    returns (newStmts: seq<Statement>)
    requires batchSize > 0 || (batchSize == 0 && |hashes| == 0)
    ensures newStmts == Fetched(Batches(hashes, batchSize), queryMethod, fetch)
  {
    var hashesBatch := if batchSize > 0 then hashes[..if batchSize <= |hashes| then batchSize else |hashes|] else hashes;
    newStmts := fetch(queryMethod, hashesBatch);
    var offset := batchSize;
    ghost var rest := if 0 < batchSize < |hashes| then BatchesFrom(hashes, batchSize, batchSize) else [];
    assert Batches(hashes, batchSize) == [hashesBatch] + rest;
    assert ([hashesBatch] + rest)[1..] == rest;
    while offset < |hashes|
      invariant batchSize > 0 ==> offset > 0
      invariant 0 <= offset < |hashes| ==> Fetched(Batches(hashes, batchSize), queryMethod, fetch) == newStmts + Fetched(BatchesFrom(hashes, batchSize, offset), queryMethod, fetch)
      invariant offset >= |hashes| ==> Fetched(Batches(hashes, batchSize), queryMethod, fetch) == newStmts
      decreases |hashes| - offset
    {
      var stop := if offset + batchSize <= |hashes| then offset + batchSize else |hashes|;
      hashesBatch := hashes[offset..stop];
      ghost var rest := if offset + batchSize < |hashes| then BatchesFrom(hashes, batchSize, offset + batchSize) else [];
      assert BatchesFrom(hashes, batchSize, offset) == [hashesBatch] + rest;
      assert ([hashesBatch] + rest)[1..] == rest;
      newStmts := newStmts + fetch(queryMethod, hashesBatch);
      offset := offset + batchSize;
    }
  }

  // ---------------------------------------------------------------------
  // run_preassembly_with_extra_evidence
  // ---------------------------------------------------------------------

  /** `{stmt.get_hash(): stmt.belief for stmt in preassembled_stmts}`. */
  function BeliefByHash(preassembled: seq<Statement>): map<int, real>
  {
    if |preassembled| == 0 then map[]
    else
      var last := preassembled[|preassembled| - 1];
      BeliefByHash(preassembled[..|preassembled| - 1])[last.shallowHash := last.belief]
  }

  /** The input statements whose hash survived preassembly, each with its new belief. */
  function KeptWithBeliefs(stmtsIn: seq<Statement>, beliefs: map<int, real>): seq<Statement>
  {
    if |stmtsIn| == 0 then []
    else
      var last := stmtsIn[|stmtsIn| - 1];
      KeptWithBeliefs(stmtsIn[..|stmtsIn| - 1], beliefs)
        + (if last.shallowHash in beliefs then [last.(belief := beliefs[last.shallowHash])] else [])
  }

  /**
   * `run_preassembly_with_extra_evidence(stmts_in, ...)`: the statements
   * are copied, given extra evidence and preassembled (`preassemble` stands
   * for `run_preassembly`); the ORIGINAL statements whose hash survived are
   * returned, in order, with the preassembled belief.
   */
  method RunPreassemblyWithExtraEvidence(
    stmtsIn: seq<Statement>, queryMethod: string, batchSize: int,
    fetch: (string, seq<int>) -> seq<Statement>, preassemble: seq<Statement> -> seq<Statement>)
    returns (r: Result<seq<Statement>>)
    requires batchSize > 0 || (batchSize == 0 && |stmtsIn| == 0)
    ensures queryMethod !in QueryMethods <==> r == Err(NameError)
    ensures queryMethod in QueryMethods ==> r.Ok?
    ensures r.Ok? ==> var temp := WithExtraEvidence(stmtsIn, FetchedEvidence(stmtsIn, queryMethod, batchSize, fetch));
      r.value == KeptWithBeliefs(stmtsIn, BeliefByHash(preassemble(temp)))
  {
    var temp := LoadExtraEvidence(stmtsIn, queryMethod, batchSize, fetch);
    if temp.Err? {
      return Err(temp.error);
    }
    var beliefByHash := BeliefByHash(preassemble(temp.value));
    var stmtsOut: seq<Statement> := [];
    for i := 0 to |stmtsIn|
      invariant stmtsOut == KeptWithBeliefs(stmtsIn[..i], beliefByHash)
    {
      assert stmtsIn[..i + 1][..i] == stmtsIn[..i];
      var stmtHash := stmtsIn[i].shallowHash;
      if stmtHash in beliefByHash {
        stmtsOut := stmtsOut + [stmtsIn[i].(belief := beliefByHash[stmtHash])];
      }
    }
    assert stmtsIn[..|stmtsIn|] == stmtsIn;
    return Ok(stmtsOut);
  }

  /**
   * Exactly the input statements whose hash has a belief are kept, in order,
   * each unchanged except for that belief.
   */
  lemma {:induction false} KeptWithBeliefsMeaning(stmtsIn: seq<Statement>, beliefs: map<int, real>)
    ensures |KeptWithBeliefs(stmtsIn, beliefs)| <= |stmtsIn|
    ensures forall s :: s in KeptWithBeliefs(stmtsIn, beliefs) ==> s.shallowHash in beliefs && s.belief == beliefs[s.shallowHash]
    ensures forall i :: 0 <= i < |stmtsIn| && stmtsIn[i].shallowHash in beliefs ==>
      stmtsIn[i].(belief := beliefs[stmtsIn[i].shallowHash]) in KeptWithBeliefs(stmtsIn, beliefs)
    ensures forall s :: s in KeptWithBeliefs(stmtsIn, beliefs) ==> exists i :: 0 <= i < |stmtsIn| && s == stmtsIn[i].(belief := s.belief)
  {
    if |stmtsIn| > 0 {
      var init := stmtsIn[..|stmtsIn| - 1];
      KeptWithBeliefsMeaning(init, beliefs);
      assert forall i :: 0 <= i < |init| ==> init[i] == stmtsIn[i];
    }
  }
}
