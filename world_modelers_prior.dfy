/**
 * emmaa/priors/world_modelers_prior.py: search terms for a World Modelers
 * model, found by matching concept names against the entries of a UN
 * ontology file, and the model configuration that goes with them. The lines
 * of the ontology file are a parameter.
 */
module WorldModelersPriors {
  import opened Wrappers
  import opened Strings
  import opened JsonValues
  import opened SearchTerms
  import opened EmmaaModels

  // ---------------------------------------------------------------------
  // Ontology lines
  // ---------------------------------------------------------------------

  /**
   * The ontology entry of one line: the line up to its first `> <`, from the
   * first `UN` in it onwards. Without a `UN` the slice starts at index -1,
   * which leaves only the last character.
   */
  function OntologyEntry(line: string): string
  {
    var link := BeforeFirst(line, "> <");
    var k := Find(link, "UN");
    if k == -1 then (if |link| == 0 then "" else link[|link| - 1..])
    else link[k..]
  }

  /**
   * The entry is a suffix of the text before the first `> <` that starts at
   * its first `UN`, and is at most one character long when there is none.
   */
  lemma OntologyEntryShape(line: string)
    ensures var link := BeforeFirst(line, "> <");
            var ont := OntologyEntry(line);
            && |ont| <= |link| && link[|link| - |ont|..] == ont
            && (Find(link, "UN") >= 0 ==> StartsWith(ont, "UN"))
            && (forall j :: 0 <= j < |link| - |ont| ==> !OccursAt(link, "UN", j))
            && (Find(link, "UN") == -1 ==> |ont| <= 1)
  {
    var link := BeforeFirst(line, "> <");
    var k := Find(link, "UN");
    if k == -1 {
      if |link| > 0 {
        assert OntologyEntry(line) == link[|link| - 1..];
      }
    } else {
      var ont := link[k..];
      assert OntologyEntry(line) == ont;
      assert |link| - |ont| == k;
      assert ont[..2] == link[k..k + 2];
    }
  }

  /** The entries of all lines, in order. */
  function Ontologies(lines: seq<string>): (onts: seq<string>)
    ensures |onts| == |lines|
    ensures forall i :: 0 <= i < |lines| ==> onts[i] == OntologyEntry(lines[i])
  {
    seq(|lines|, i requires 0 <= i < |lines| => OntologyEntry(lines[i]))
  }

  /**
   * A line in the usual shape, `<{prefix}UN{path}> <...`, yields
   * `UN{path}` when the prefix holds no `U` and the IRI holds no `>`.
   */
  lemma OntologyLineShape(prefix: string, path: string, rest: string)
    requires 'U' !in prefix && '>' !in prefix && '>' !in path
    ensures OntologyEntry(prefix + "UN" + path + "> <" + rest) == "UN" + path
  {
    var link := prefix + "UN" + path;
    var line := link + "> <" + rest;
    assert line[|link|..|link| + 3] == "> <";
    assert OccursAt(line, "> <", |link|);
    forall j | 0 <= j < |link| ensures !OccursAt(line, "> <", j) {
      assert line[j] == link[j];
      if j + 3 <= |line| {
        assert line[j..j + 3][0] == line[j];
      }
    }
    assert BeforeFirst(line, "> <") == link;
    assert link[|prefix|..|prefix| + 2] == "UN";
    assert OccursAt(link, "UN", |prefix|);
    forall j | 0 <= j < |prefix| ensures !OccursAt(link, "UN", j) {
      assert link[j] == prefix[j];
      assert link[j..j + 2][0] == link[j];
    }
    assert Find(link, "UN") == |prefix|;
    assert link[|prefix|..] == "UN" + path;
  }

  // ---------------------------------------------------------------------
  // make_search_terms
  // ---------------------------------------------------------------------

  /**
   * The term made when an ontology entry ends with a concept: type
   * `concept`, the entry under `UN`, searched by the concept with `_` turned
   * into spaces and wrapped in double quotes, named by that text capitalized.
   */
  function ConceptTerm(term: string, ont: string): SearchTerm
  {
    var text := ReplaceChar(term, '_', ' ');
    SearchTerm("concept", Capitalize(text), map["UN" := ont], Some("\"" + text + "\""))
  }

  /** `t` is the term made from a concept that the ontology entry ends with. */
  predicate Made(ont: string, term: string, t: SearchTerm)
  {
    EndsWith(ont, term) && t == ConceptTerm(term, ont)
  }

  /** The terms one ontology entry yields, for the concepts it ends with. */
  function EntryTerms(ont: string, terms: seq<string>): set<SearchTerm>
  {
    if |terms| == 0 then {}
    else
      var term := terms[|terms| - 1];
      EntryTerms(ont, terms[..|terms| - 1]) + (if EndsWith(ont, term) then {ConceptTerm(term, ont)} else {})
  }

  /** The set `make_search_terms` builds from the ontology entries. */
  function Matches(onts: seq<string>, terms: seq<string>): set<SearchTerm>
  {
    if |onts| == 0 then {}
    else Matches(onts[..|onts| - 1], terms) + EntryTerms(onts[|onts| - 1], terms)
  }

  /**
   * `make_search_terms(terms, ontology_file)`: every line is reduced to its
   * ontology entry, then every entry is tried against every concept.
   */
  method MakeSearchTerms(terms: seq<string>, lines: seq<string>) returns (r: set<SearchTerm>)
    ensures r == Matches(Ontologies(lines), terms)
  {
    var onts := ParseOntologies(lines);
    r := {};
    for i := 0 to |onts|
      invariant r == Matches(onts[..i], terms)
    {
      assert onts[..i + 1][..i] == onts[..i];
      r := AddEntryTerms(r, onts[i], terms);
    }
    assert onts[..|onts|] == onts;
  }

  /** The first loop of `make_search_terms`: one ontology entry per line. */
  method ParseOntologies(lines: seq<string>) returns (onts: seq<string>)
    ensures onts == Ontologies(lines)
  {
    onts := [];
    ghost var all := Ontologies(lines);
    for i := 0 to |lines|
      invariant onts == all[..i]
    {
      var ont := ParseLine(lines[i]);
      assert all[..i + 1] == all[..i] + [all[i]];
      onts := onts + [ont];
    }
    assert all[..|lines|] == all;
  }

  /** One line of the outer loop: `link = line.split('> <')[0]`, then `link[link.find('UN'):]`. */
  method ParseLine(line: string) returns (ont: string)
    ensures ont == OntologyEntry(line)
  {
    var link := BeforeFirst(line, "> <");
    var start := Find(link, "UN");
    if start == -1 {
      ont := if |link| == 0 then "" else link[|link| - 1..];
    } else {
      ont := link[start..];
    }
  }

  /** The inner loop of `make_search_terms`: the concepts one entry ends with, added to `r`. */
  method AddEntryTerms(r: set<SearchTerm>, ont: string, terms: seq<string>) returns (r': set<SearchTerm>)
    ensures r' == r + EntryTerms(ont, terms)
  {
    r' := r;
    for j := 0 to |terms|
      invariant r' == r + EntryTerms(ont, terms[..j])
    {
      assert terms[..j + 1][..j] == terms[..j];
      if EndsWith(ont, terms[j]) {
        var text := ReplaceChar(terms[j], '_', ' ');
        r' := r' + {SearchTerm("concept", Capitalize(text), map["UN" := ont], Some("\"" + text + "\""))};
      }
    }
    assert terms[..|terms|] == terms;
  }

  lemma EntryTermsMeaning(ont: string, terms: seq<string>, t: SearchTerm)
    ensures t in EntryTerms(ont, terms) <==> exists j :: 0 <= j < |terms| && Made(ont, terms[j], t)
  {
    if t in EntryTerms(ont, terms) {
      var j := EntryTermsSound(ont, terms, t);
    }
    if exists j :: 0 <= j < |terms| && Made(ont, terms[j], t) {
      var j :| 0 <= j < |terms| && Made(ont, terms[j], t);
      EntryTermsComplete(ont, terms, j, t);
    }
  }

  /** Every term of an entry was made from a concept the entry ends with. */
  lemma {:induction false} EntryTermsSound(ont: string, terms: seq<string>, t: SearchTerm) returns (j: nat)
    requires t in EntryTerms(ont, terms)
    ensures j < |terms| && Made(ont, terms[j], t)
    decreases |terms|
  {
    var n := |terms| - 1;
    var init := terms[..n];
    if t in EntryTerms(ont, init) {
      j := EntryTermsSound(ont, init, t);
      assert terms[j] == init[j];
    } else {
      j := n;
    }
  }

  /** The term made from a concept the entry ends with is among the entry's terms. */
  lemma {:induction false} EntryTermsComplete(ont: string, terms: seq<string>, j: nat, t: SearchTerm)
    requires j < |terms| && Made(ont, terms[j], t)
    ensures t in EntryTerms(ont, terms)
    decreases |terms|
  {
    var n := |terms| - 1;
    var init := terms[..n];
    if j < n {
      assert init[j] == terms[j];
      EntryTermsComplete(ont, init, j, t);
    }
  }

  /**
   * A term is in the result exactly when some ontology entry ends with some
   * concept and the term is the one made from that concept and entry.
   */
  lemma {:induction false} MatchesMeaning(onts: seq<string>, terms: seq<string>, t: SearchTerm)
    ensures t in Matches(onts, terms) <==>
            exists i, j :: 0 <= i < |onts| && 0 <= j < |terms| && Made(onts[i], terms[j], t)
    decreases |onts|
  {
    if |onts| > 0 {
      var init := onts[..|onts| - 1];
      var last := onts[|onts| - 1];
      MatchesMeaning(init, terms, t);
      EntryTermsMeaning(last, terms, t);
      if t in Matches(init, terms) {
        var i, j :| 0 <= i < |init| && 0 <= j < |terms| && Made(init[i], terms[j], t);
        assert onts[i] == init[i];
      }
      if t in EntryTerms(last, terms) {
        var j :| 0 <= j < |terms| && Made(last, terms[j], t);
        assert Made(onts[|onts| - 1], terms[j], t);
      }
      if exists i, j :: 0 <= i < |onts| && 0 <= j < |terms| && Made(onts[i], terms[j], t) {
        var i, j :| 0 <= i < |onts| && 0 <= j < |terms| && Made(onts[i], terms[j], t);
        if i < |init| {
          assert init[i] == onts[i];
        }
      }
    }
  }

  /**
   * The result is a set: a line whose entry repeats an earlier one adds
   * nothing, so identical terms from several lines collapse into one.
   */
  lemma RepeatedEntryAddsNothing(onts: seq<string>, terms: seq<string>, k: nat)
    requires k < |onts|
    ensures Matches(onts + [onts[k]], terms) == Matches(onts, terms)
  {
    var longer := onts + [onts[k]];
    assert longer[..|longer| - 1] == onts;
    forall t | t in EntryTerms(onts[k], terms) ensures t in Matches(onts, terms) {
      EntryTermsMeaning(onts[k], terms, t);
      var j :| 0 <= j < |terms| && Made(onts[k], terms[j], t);
      MatchesMeaning(onts, terms, t);
    }
  }

  /**
   * Every term made is a `concept` whose `UN` reference ends with the
   * concept; its search text is the concept's text in double quotes, with no
   * `_` left, and its name differs from that text only in letter case.
   */
  lemma ConceptTermText(term: string, ont: string)
    requires EndsWith(ont, term)
    ensures var t := ConceptTerm(term, ont);
            var text := ReplaceChar(term, '_', ' ');
            && t.stype == "concept" && "UN" in t.dbRefs && EndsWith(t.dbRefs["UN"], term)
            && t.searchTerm.Some? && |t.searchTerm.value| == |term| + 2
            && t.searchTerm.value[0] == '"' && t.searchTerm.value[|term| + 1] == '"'
            && t.searchTerm.value[1..|term| + 1] == text && '_' !in text
            && Lower(t.name) == Lower(text)
  {
    var text := ReplaceChar(term, '_', ' ');
    var t := ConceptTerm(term, ont);
    assert t.searchTerm.value[1..|term| + 1] == text;
    assert '_' !in text by {
      forall i | 0 <= i < |text| ensures text[i] != '_' {
      }
    }
    if |text| > 0 {
      LowerCapitalize(text);
    }
  }

  lemma LowerCapitalize(s: string)
    requires |s| > 0
    ensures Lower(Capitalize(s)) == Lower(s)
  {
    var c := Capitalize(s);
    forall i | 0 <= i < |s| ensures Lower(c)[i] == Lower(s)[i] {
      if i == 0 {
        LowerUpperChar(s[0]);
      } else {
        assert c[i] == c[1..][i - 1] == Lower(s[1..])[i - 1] == LowerChar(s[i]);
        LowerLowerChar(s[i]);
      }
    }
  }

  /** Lower-casing undoes upper-casing. */
  lemma LowerUpperChar(c: char)
    ensures LowerChar(UpperChar(c)) == LowerChar(c)
  {
  }

  /** Lower-casing a character twice is lower-casing it once. */
  lemma LowerLowerChar(c: char)
    ensures LowerChar(LowerChar(c)) == LowerChar(c)
  {
  }

  lemma {:induction false} LowerAppend(a: string, b: string)
    ensures Lower(a + b) == Lower(a) + Lower(b)
    decreases |a|
  {
    if |a| > 0 {
      assert (a + b)[1..] == a[1..] + b;
      LowerAppend(a[1..], b);
    } else {
      assert a + b == b;
    }
  }

  lemma {:induction false} LowerIdempotent(s: string)
    ensures Lower(Lower(s)) == Lower(s)
    decreases |s|
  {
    if |s| > 0 {
      LowerIdempotent(s[1..]);
      assert Lower(s)[1..] == Lower(s[1..]);
    }
  }

  // ---------------------------------------------------------------------
  // make_config
  // ---------------------------------------------------------------------

  /** `if ndex_network:` for a network id that may be missing. */
  predicate HasNetwork(ndexNetwork: Option<string>)
  {
    ndexNetwork.Some? && ndexNetwork.value != ""
  }

  /** The fixed statement-checking test settings. */
  const WmTests: Json := JObj(map[
    "statement_checking" := JObj(map["max_path_length" := JInt(5), "max_paths" := JInt(1)]),
    "test_corpus" := JStr("world_modelers_tests.pkl")])

  /** The fixed assembly settings. */
  const WmAssembly: Json := JObj(map[
    "skip_map_grounding" := JBool(true), "skip_filter_human" := JBool(true),
    "skip_map_sequence" := JBool(true), "belief_cutoff" := JReal(0.8),
    "filter_ungrounded" := JBool(true), "score_threshold" := JReal(0.7),
    "filter_relevance" := JStr("prior_one"), "standardize_names" := JBool(true),
    "preassembly_mode" := JStr("wm")])

  /** The fixed reading settings. */
  const WmReading: Json := JObj(map["literature_source" := JStr("elsevier"), "reader" := JStr("elsevier_eidos")])

  /**
   * The configuration `make_config` builds: the network only when one is
   * given, the human-readable name, the search terms in iteration order,
   * and the fixed test, assembly and reading blocks.
   */
  function WmConfig(searchTerms: seq<SearchTerm>, humanReadableName: string, ndexNetwork: Option<string>)
    : (config: map<string, Json>)
    ensures config.Keys == {"human_readable_name", "search_terms", "test", "assembly", "reading"}
                           + (if HasNetwork(ndexNetwork) then {"ndex"} else {})
  {
    var base := map["human_readable_name" := JStr(humanReadableName),
                    "search_terms" := JArr(seq(|searchTerms|, i requires 0 <= i < |searchTerms| => ToJson(searchTerms[i]))),
                    "test" := WmTests, "assembly" := WmAssembly, "reading" := WmReading];
    if HasNetwork(ndexNetwork) then base["ndex" := JObj(map["network" := JStr(ndexNetwork.value)])] else base
  }

  /**
   * `make_config(search_terms, human_readable_name, description, short_name,
   * ndex_network, save_to_s3)`. The description and the short name are not
   * used. Saving refers to a name that is not defined, so `save_to_s3`
   * raises `NameError` once the configuration is built.
   */
  method MakeConfig(searchTerms: seq<SearchTerm>, humanReadableName: string, description: string, shortName: string,
                    ndexNetwork: Option<string>, saveToS3: bool) returns (r: Result<map<string, Json>>)
    ensures r.Err? <==> saveToS3
    ensures r.Err? ==> r.error == NameError
    ensures r.Ok? ==> r.value == WmConfig(searchTerms, humanReadableName, ndexNetwork)
  {
    var config: map<string, Json> := map[];
    if ndexNetwork.Some? && ndexNetwork.value != "" {
      config := config["ndex" := JObj(map["network" := JStr(ndexNetwork.value)])];
    }
    config := config["human_readable_name" := JStr(humanReadableName)];
    var termsJson: seq<Json> := [];
    for i := 0 to |searchTerms|
      invariant termsJson == seq(i, k requires 0 <= k < i => ToJson(searchTerms[k]))
    {
      termsJson := termsJson + [ToJson(searchTerms[i])];
    }
    config := config["search_terms" := JArr(termsJson)];
    config := config["test" := WmTests];
    config := config["assembly" := WmAssembly];
    config := config["reading" := WmReading];
    if saveToS3 {
      return Err(NameError);
    }
    return Ok(config);
  }

  lemma WmConfigFields(searchTerms: seq<SearchTerm>, humanReadableName: string, ndexNetwork: Option<string>)
    ensures var config := WmConfig(searchTerms, humanReadableName, ndexNetwork);
            && config["search_terms"] == JArr(seq(|searchTerms|, i requires 0 <= i < |searchTerms| => ToJson(searchTerms[i])))
            && config["human_readable_name"] == JStr(humanReadableName)
            && config["test"] == WmTests && config["assembly"] == WmAssembly && config["reading"] == WmReading
            && (if HasNetwork(ndexNetwork) then "ndex" in config && config["ndex"] == JObj(map["network" := JStr(ndexNetwork.value)])
                else "ndex" !in config)
            && "test" in config && "assembly" in config && "reading" in config && "human_readable_name" in config
            && "query" !in config && "export_formats" !in config
  {
  }

  /**
   * The configuration loads into a model with the given search terms, the
   * network when one was given, and the fixed test, assembly and reading
   * settings.
   */
  lemma WmConfigLoads(searchTerms: seq<SearchTerm>, humanReadableName: string, ndexNetwork: Option<string>)
    ensures var settings := LoadConfig(JObj(WmConfig(searchTerms, humanReadableName, ndexNetwork)));
            && settings.Ok?
            && settings.value.searchTerms == searchTerms
            && settings.value.ndexNetwork == (if HasNetwork(ndexNetwork) then JStr(ndexNetwork.value) else JNull)
            && settings.value.testConfig == WmTests
            && settings.value.assemblyConfig == WmAssembly
            && settings.value.readingConfig == WmReading
            && settings.value.humanReadableName == JStr(humanReadableName)
  {
    WmConfigFields(searchTerms, humanReadableName, ndexNetwork);
    var items := seq(|searchTerms|, i requires 0 <= i < |searchTerms| => ToJson(searchTerms[i]));
    forall i | 0 <= i < |items| ensures FromJson(items[i]) == Ok(searchTerms[i]) {
      FromJsonToJson(searchTerms[i]);
    }
    var parsed := MapAll(items, FromJson);
    assert parsed.Ok?;
    assert parsed.value == searchTerms;
    LoadConfigSections(WmConfig(searchTerms, humanReadableName, ndexNetwork), searchTerms);
  }
}
