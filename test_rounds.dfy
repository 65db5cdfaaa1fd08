/**
 * emmaa/analyze_tests_results.py: one round of model test results (a list
 * whose entry 0 summarises the model and whose other entries are test
 * results), the summaries computed from it and the deltas between two
 * rounds.
 */
module TestRounds {
  import opened Wrappers
  import opened Seqs
  import opened JsonValues
  import opened Counting

  // ---------------------------------------------------------------------
  // Python operations on decoded JSON
  // ---------------------------------------------------------------------

  /**
   * `for e in x`: a list yields its items and a string its characters.
   * A dictionary yields its keys; every loop of this file fails on a
   * string element whatever its text, so the keys are stood for by empty
   * strings. Other values are not iterable.
   */
  function Elements(x: Json): (r: Result<seq<Json>>)
    ensures x.JArr? ==> r == Ok(x.items)
    ensures r.Err? <==> x.JNull? || x.JBool? || x.JInt? || x.JReal?
  {
    match x
    case JArr(items) => Ok(items)
    case JStr(s) => Ok(seq(|s|, i requires 0 <= i < |s| => JStr([s[i]])))
    case JObj(fields) => Ok(seq(|fields|, _ => JStr("")))
    case _ => Err(TypeError)
  }

  // ---------------------------------------------------------------------
  // The round
  // ---------------------------------------------------------------------

  /**
   * A test round. The object is never changed after construction; its
   * identity matters because `get_applied_test_ids` returns bound methods
   * of it.
   */
  class TestRound {
    const testResults: seq<Json>

    constructor(testResults: seq<Json>)
      ensures this.testResults == testResults
    {
      this.testResults := testResults;
    }
  }

  /** `test_results[1:]`: the results of the applied tests. */
  function Tail(r: TestRound): (t: seq<Json>)
    ensures |r.testResults| > 0 ==> t == r.testResults[1..]
    ensures |r.testResults| == 0 ==> t == []
  {
    if |r.testResults| == 0 then [] else r.testResults[1..]
  }

  /** `test_results[0]['number_of_statements']`. */
  function TotalStatements(r: TestRound): (v: Result<Json>)
    ensures |r.testResults| == 0 ==> v == Err(IndexError)
    ensures |r.testResults| > 0 ==> v == Subscript(r.testResults[0], "number_of_statements")
  {
    if |r.testResults| == 0 then Err(IndexError) else Subscript(r.testResults[0], "number_of_statements")
  }

  /** The statements listed in `test_results[0]['statements']`, as a loop sees them. */
  function Statements(r: TestRound): (s: Result<seq<Json>>)
    ensures |r.testResults| == 0 ==> s == Err(IndexError)
    ensures s.Ok? ==> Subscript(r.testResults[0], "statements").Ok?
  {
    if |r.testResults| == 0 then Err(IndexError)
    else
      var st := Subscript(r.testResults[0], "statements");
      if st.Err? then Err(st.error) else Elements(st.value)
  }

  /**
   * What `find_content_delta` compares: the `str` of a statement or test
   * id, or the bound method `get_test_id` of a round, which is what
   * `get_applied_test_ids` lists (it never calls the method). Two bound
   * methods are equal exactly when they belong to the same round object.
   */
  datatype ContentId = Id(text: string) | GetTestIdMethod(owner: TestRound)

  // ---------------------------------------------------------------------
  // Model summary
  // ---------------------------------------------------------------------

  /** `get_stmt_id`: `str(stmt['id'])`; `str` of a JSON value is a parameter. */
  function StmtIdStep(str: Json -> string): Json -> Result<ContentId>
  {
    stmt => var id := Subscript(stmt, "id"); if id.Err? then Err(id.error) else Ok(Id(str(id.value)))
  }

  /** `get_stmt_ids`: the statement ids in statement order. */
  function StmtIds(r: TestRound, str: Json -> string): (ids: Result<seq<ContentId>>)
    ensures ids.Ok? ==> Statements(r).Ok? && |ids.value| == |Statements(r).value|
    ensures ids.Ok? ==> forall i :: 0 <= i < |ids.value| ==>
      Subscript(Statements(r).value[i], "id").Ok? && ids.value[i] == Id(str(Subscript(Statements(r).value[i], "id").value))
  {
    var stmts := Statements(r);
    if stmts.Err? then Err(stmts.error) else MapAll(stmts.value, StmtIdStep(str))
  }

  /**
   * `x[key]` used as the key of a `defaultdict(int)` counter: the lookup's
   * error, or `TypeError` for an unhashable list or dictionary.
   */
  function CountedKey(key: string): Json -> Result<Json>
  {
    x => AsKey(Subscript(x, key))
  }

  /**
   * Entry `i` is the first whose counted key fails, and it fails because
   * `x[key]` is a list or a dictionary.
   */
  predicate FirstUnhashable(xs: seq<Json>, i: nat, key: string)
  {
    && i < |xs|
    && (forall j :: 0 <= j < i ==> CountedKey(key)(xs[j]).Ok?)
    && Subscript(xs[i], key).Ok? && !Hashable(Subscript(xs[i], key).value)
  }

  /** Counting stops with `TypeError` at the first unhashable key. */
  lemma UnhashableKeyRaises(xs: seq<Json>, i: nat, key: string)
    requires FirstUnhashable(xs, i, key)
    ensures MapAll(xs, CountedKey(key)) == Err(TypeError)
  {
    MapAllFails(xs, i, CountedKey(key));
  }

  /** The `type` of every statement, in order: the keys `get_statement_types` counts. */
  function StatementTypeKeys(r: TestRound): (keys: Result<seq<Json>>)
    ensures keys.Ok? ==> Statements(r).Ok? && |keys.value| == |Statements(r).value|
    ensures keys.Ok? ==> forall i :: 0 <= i < |keys.value| ==>
      Subscript(Statements(r).value[i], "type") == Ok(keys.value[i]) && Hashable(keys.value[i])
  {
    var stmts := Statements(r);
    if stmts.Err? then Err(stmts.error) else MapAll(stmts.value, CountedKey("type"))
  }

  /**
   * `get_statement_types`: how many statements have each type, most
   * frequent first, types of equal count in order of first appearance.
   */
  method GetStatementTypes(r: TestRound) returns (res: Result<seq<(Json, nat)>>)
    ensures StatementTypeKeys(r).Err? ==> res == Err(StatementTypeKeys(r).error)
    ensures StatementTypeKeys(r).Ok? ==> res == Ok(SortByCountDesc(Tally(StatementTypeKeys(r).value)))
    ensures Statements(r).Ok? ==> forall i :: FirstUnhashable(Statements(r).value, i, "type") ==> res == Err(TypeError)
    ensures res.Ok? ==> NonIncreasing(res.value) && SumCounts(res.value) == |Statements(r).value|
    ensures res.Ok? ==> multiset(res.value) == multiset(Tally(StatementTypeKeys(r).value))
  {
    var keys := StatementTypeKeys(r);
    if Statements(r).Ok? {
      forall i | FirstUnhashable(Statements(r).value, i, "type")
        ensures keys == Err(TypeError)
      {
        UnhashableKeyRaises(Statements(r).value, i, "type");
      }
    }
    if keys.Err? {
      return Err(keys.error);
    }
    var counts := CountOccurrences(keys.value);
    SortByCountDescMeaning(counts);
    SortByCountDescSum(counts);
    TallySum(keys.value);
    return Ok(SortByCountDesc(counts));
  }

  const AgentRoles: seq<string> := ["subj", "obj", "sub", "enz", "agent"]

  /** How many of `roles` are keys of the statement. */
  function PresentRoles(fields: map<string, Json>, roles: seq<string>): nat
  {
    if |roles| == 0 then 0 else (if roles[0] in fields then 1 else 0) + PresentRoles(fields, roles[1..])
  }

  /**
   * `stmt[role]['name']` for each of `roles` that the statement has, in
   * order; a list or dictionary name raises `TypeError` when counted.
   */
  function RoleNames(fields: map<string, Json>, roles: seq<string>): (r: Result<seq<Json>>)
    ensures r.Ok? ==> |r.value| == PresentRoles(fields, roles)
    ensures r.Ok? ==> forall i :: 0 <= i < |r.value| ==> Hashable(r.value[i])
    ensures |roles| > 0 && roles[0] in fields ==>
      Subscript(fields[roles[0]], "name").Ok? && !Hashable(Subscript(fields[roles[0]], "name").value) ==> r == Err(TypeError)
  {
    if |roles| == 0 then Ok([])
    else
      var rest := RoleNames(fields, roles[1..]);
      if roles[0] in fields then
        var name := CountedKey("name")(fields[roles[0]]);
        if name.Err? then Err(name.error)
        else if rest.Err? then rest
        else Ok([name.value] + rest.value)
      else rest
  }

  /** `member['name']` for each member of a complex, when the statement has `members`. */
  function MemberNames(fields: map<string, Json>): (r: Result<seq<Json>>)
    ensures "members" !in fields ==> r == Ok([])
    ensures r.Ok? && "members" in fields ==> Elements(fields["members"]).Ok? && |r.value| == |Elements(fields["members"]).value|
    ensures r.Ok? ==> forall i :: 0 <= i < |r.value| ==> Hashable(r.value[i])
    ensures "members" in fields && Elements(fields["members"]).Ok? ==>
      forall i :: FirstUnhashable(Elements(fields["members"]).value, i, "name") ==> r == Err(TypeError)
  {
    if "members" !in fields then Ok([])
    else
      var members := Elements(fields["members"]);
      if members.Err? then Err(members.error)
      else
        assert forall i :: FirstUnhashable(members.value, i, "name") ==> MapAll(members.value, CountedKey("name")) == Err(TypeError) by {
          forall i | FirstUnhashable(members.value, i, "name") {
            UnhashableKeyRaises(members.value, i, "name");
          }
        }
        MapAll(members.value, CountedKey("name"))
  }

  /**
   * The agent names one statement contributes: one per present role and
   * one per member. `stmt.keys()` on a non-dictionary raises
   * `AttributeError`.
   */
  function AgentNamesOf(stmt: Json): (r: Result<seq<Json>>)
    ensures !stmt.JObj? ==> r == Err(AttributeError)
    ensures r.Ok? ==> stmt.JObj? && MemberNames(stmt.fields).Ok?
    ensures r.Ok? ==> |r.value| == PresentRoles(stmt.fields, AgentRoles) + |MemberNames(stmt.fields).value|
    ensures r.Ok? ==> forall i :: 0 <= i < |r.value| ==> Hashable(r.value[i])
  {
    match stmt
    case JObj(fields) =>
      var roles := RoleNames(fields, AgentRoles);
      if roles.Err? then roles
      else
        var members := MemberNames(fields);
        if members.Err? then members else Ok(roles.value + members.value)
    case _ => Err(AttributeError)
  }

  /** The agent names of every statement, statement after statement. */
  function AgentNameKeys(r: TestRound): (keys: Result<seq<Json>>)
    ensures keys.Ok? ==> Statements(r).Ok? && MapAll(Statements(r).value, AgentNamesOf).Ok?
    ensures keys.Ok? ==> keys.value == Concat(MapAll(Statements(r).value, AgentNamesOf).value)
  {
    var stmts := Statements(r);
    if stmts.Err? then Err(stmts.error)
    else
      var names := MapAll(stmts.value, AgentNamesOf);
      if names.Err? then Err(names.error) else Ok(Concat(names.value))
  }

  /** Every name counted is hashable: an unhashable one has already raised `TypeError`. */
  lemma AgentNameKeysHashable(r: TestRound)
    requires AgentNameKeys(r).Ok?
    ensures forall k :: k in AgentNameKeys(r).value ==> Hashable(k)
  {
    var names := MapAll(Statements(r).value, AgentNamesOf).value;
    forall k | k in AgentNameKeys(r).value
      ensures Hashable(k)
    {
      ConcatMembers(names, k);
      var i :| 0 <= i < |names| && k in names[i];
      assert AgentNamesOf(Statements(r).value[i]) == Ok(names[i]);
    }
  }

  /** `get_agent_distribution`: how often each agent name occurs, most frequent first. */
  method GetAgentDistribution(r: TestRound) returns (res: Result<seq<(Json, nat)>>)
    ensures AgentNameKeys(r).Err? ==> res == Err(AgentNameKeys(r).error)
    ensures AgentNameKeys(r).Ok? ==> res == Ok(SortByCountDesc(Tally(AgentNameKeys(r).value)))
    ensures Statements(r).Ok? ==> forall i :: 0 <= i < |Statements(r).value| ==>
      (forall j :: 0 <= j < i ==> AgentNamesOf(Statements(r).value[j]).Ok?) ==>
      AgentNamesOf(Statements(r).value[i]) == Err(TypeError) ==> res == Err(TypeError)
    ensures res.Ok? ==> NonIncreasing(res.value) && SumCounts(res.value) == |AgentNameKeys(r).value|
    ensures res.Ok? ==> multiset(res.value) == multiset(Tally(AgentNameKeys(r).value))
  {
    var keys := AgentNameKeys(r);
    if Statements(r).Ok? {
      var stmts := Statements(r).value;
      forall i | 0 <= i < |stmts| && (forall j :: 0 <= j < i ==> AgentNamesOf(stmts[j]).Ok?) && AgentNamesOf(stmts[i]) == Err(TypeError)
        ensures keys == Err(TypeError)
      {
        MapAllFails(stmts, i, AgentNamesOf);
      }
    }
    if keys.Err? {
      return Err(keys.error);
    }
    var counts := CountOccurrences(keys.value);
    SortByCountDescMeaning(counts);
    SortByCountDescSum(counts);
    TallySum(keys.value);
    return Ok(SortByCountDesc(counts));
  }

  /**
   * `get_statements_by_evidence` reads `stmt.evidence` from a decoded JSON
   * dictionary, which has no such attribute: it returns only for a round
   * without statements, and then returns an empty list.
   */
  function StatementsByEvidence(r: TestRound): (res: Result<seq<(string, nat)>>)
    ensures res.Ok? <==> Statements(r).Ok? && |Statements(r).value| == 0
    ensures res.Ok? ==> res.value == []
    ensures Statements(r).Ok? && |Statements(r).value| > 0 ==> res == Err(AttributeError)
  {
    var stmts := Statements(r);
    if stmts.Err? then Err(stmts.error)
    else if |stmts.value| == 0 then Ok([])
    else Err(AttributeError)
  }

  // ---------------------------------------------------------------------
  // Test summary
  // ---------------------------------------------------------------------

  /** `has_path`: `result['result_json']['path_found']`. */
  function HasPath(result: Json): Result<Json>
  {
    var rj := Subscript(result, "result_json");
    if rj.Err? then Err(rj.error) else Subscript(rj.value, "path_found")
  }

  /** `get_test_id`: `str(result['test_json']['id'])`. */
  function TestId(result: Json, str: Json -> string): Result<string>
  {
    var tj := Subscript(result, "test_json");
    if tj.Err? then Err(tj.error)
    else
      var id := Subscript(tj.value, "id");
      if id.Err? then Err(id.error) else Ok(str(id.value))
  }

  /** One iteration of `get_passed_test_ids`: the test's id when a path was found. */
  function PassedStep(str: Json -> string): Json -> Result<Option<string>>
  {
    result =>
      var hp := HasPath(result);
      if hp.Err? then Err(hp.error)
      else if !Truthy(hp.value) then Ok(None)
      else
        var id := TestId(result, str);
        if id.Err? then Err(id.error) else Ok(Some(id.value))
  }

  /** The ids of the tests whose result found a path, in result order. */
  function PassedTestIds(r: TestRound, str: Json -> string): Result<seq<string>>
  {
    Collect(Tail(r), PassedStep(str))
  }

  /** `get_passed_test_ids`. */
  method GetPassedTestIds(r: TestRound, str: Json -> string) returns (res: Result<seq<string>>)
    ensures res == PassedTestIds(r, str)
  {
    var results := Tail(r);
    var step := PassedStep(str);
    var passedTests: seq<string> := [];
    for i := 0 to |results|
      invariant Collect(results[..i], step) == Ok(passedTests)
    {
      assert results[..i + 1][..i] == results[..i];
      var hp := HasPath(results[i]);
      if hp.Err? {
        CollectErrPrefix(results, step, i + 1);
        return Err(hp.error);
      }
      if Truthy(hp.value) {
        var id := TestId(results[i], str);
        if id.Err? {
          CollectErrPrefix(results, step, i + 1);
          return Err(id.error);
        }
        passedTests := passedTests + [id.value];
      }
    }
    assert results[..|results|] == results;
    return Ok(passedTests);
  }

  /** `get_total_applied_tests`: `len(test_results) - 1`, which is -1 for an empty round. */
  function TotalAppliedTests(r: TestRound): (n: int)
    ensures n == |Tail(r)| || (n == -1 && |r.testResults| == 0)
  {
    |r.testResults| - 1
  }

  /** `get_number_passed_tests`. */
  function NumberPassedTests(r: TestRound, str: Json -> string): (n: Result<int>)
    ensures n.Ok? <==> PassedTestIds(r, str).Ok?
    ensures n.Ok? ==> n.value == |PassedTestIds(r, str).value|
  {
    var ids := PassedTestIds(r, str);
    if ids.Err? then Err(ids.error) else Ok(|ids.value|)
  }

  /** A test result that found a path and has `id` as its test id. */
  predicate PassedWith(result: Json, str: Json -> string, id: string)
  {
    HasPath(result).Ok? && Truthy(HasPath(result).value) && TestId(result, str) == Ok(id)
  }

  lemma PassedStepSome(result: Json, str: Json -> string, id: string)
    ensures PassedStep(str)(result) == Ok(Some(id)) <==> PassedWith(result, str, id)
  {
  }

  /** In a round that has its summary entry, no more tests pass than were applied. */
  lemma PassedAtMostApplied(r: TestRound, str: Json -> string)
    requires |r.testResults| > 0 && PassedTestIds(r, str).Ok?
    ensures NumberPassedTests(r, str).value <= TotalAppliedTests(r)
  {
    CollectMeaning(Tail(r), PassedStep(str));
  }

  /** The passed ids are exactly the ids of the applied tests that found a path. */
  lemma PassedTestIdsMeaning(r: TestRound, str: Json -> string)
    requires PassedTestIds(r, str).Ok?
    ensures forall id :: id in PassedTestIds(r, str).value <==>
      exists i :: 1 <= i < |r.testResults| && PassedWith(r.testResults[i], str, id)
  {
    CollectMeaning(Tail(r), PassedStep(str));
    var t := Tail(r);
    forall id | id in PassedTestIds(r, str).value
      ensures exists i :: 1 <= i < |r.testResults| && PassedWith(r.testResults[i], str, id)
    {
      var j :| 0 <= j < |t| && PassedStep(str)(t[j]) == Ok(Some(id));
      assert t[j] == r.testResults[j + 1];
      PassedStepSome(t[j], str, id);
    }
    forall id | exists i :: 1 <= i < |r.testResults| && PassedWith(r.testResults[i], str, id)
      ensures id in PassedTestIds(r, str).value
    {
      var i :| 1 <= i < |r.testResults| && PassedWith(r.testResults[i], str, id);
      assert t[i - 1] == r.testResults[i];
      PassedStepSome(t[i - 1], str, id);
    }
  }

  /**
   * `get_applied_test_ids`: one entry per applied test, each the bound
   * method `get_test_id` of this round rather than a test id.
   */
  function AppliedTestIds(r: TestRound): (ids: seq<ContentId>)
    ensures |ids| == |Tail(r)|
    ensures forall i :: 0 <= i < |ids| ==> ids[i] == GetTestIdMethod(r)
  {
    seq(|Tail(r)|, _ => GetTestIdMethod(r))
  }

  /**
   * A dictionary filled by a loop over `results`: for each result (only
   * those with a path when `onlyPassed`) the key is its test id and the
   * value its `valueKey` entry, which is read first; a later result with
   * the same id overwrites an earlier one.
   */
  function ResultsById(results: seq<Json>, str: Json -> string, valueKey: string, onlyPassed: bool): Result<map<string, Json>>
  {
    if |results| == 0 then Ok(map[])
    else
      var init := ResultsById(results[..|results| - 1], str, valueKey, onlyPassed);
      var result := results[|results| - 1];
      if init.Err? then init
      else
        var hp := if onlyPassed then HasPath(result) else Ok(JBool(true));
        if hp.Err? then Err(hp.error)
        else if !Truthy(hp.value) then init
        else
          var v := Subscript(result, valueKey);
          if v.Err? then Err(v.error)
          else
            var id := TestId(result, str);
            if id.Err? then Err(id.error) else Ok(init.value[id.value := v.value])
  }

  /** `get_english_tests`: the English text of every applied test by id. */
  function EnglishTests(r: TestRound, str: Json -> string): Result<map<string, Json>>
  {
    ResultsById(Tail(r), str, "english_test", false)
  }

  /** `get_path_descriptions`: the English paths of the passed tests by id. */
  function PathDescriptions(r: TestRound, str: Json -> string): Result<map<string, Json>>
  {
    ResultsById(Tail(r), str, "english_result", true)
  }

  /** Building the path dictionary succeeds only where listing the passed ids does, and its keys are those ids. */
  lemma {:induction false} ResultsByIdPassedKeys(results: seq<Json>, str: Json -> string)
    requires ResultsById(results, str, "english_result", true).Ok?
    ensures Collect(results, PassedStep(str)).Ok?
    ensures ResultsById(results, str, "english_result", true).value.Keys == set id | id in Collect(results, PassedStep(str)).value
  {
    if |results| > 0 {
      ResultsByIdPassedKeys(results[..|results| - 1], str);
    }
  }

  lemma PathDescriptionsArePassedTests(r: TestRound, str: Json -> string)
    requires PathDescriptions(r, str).Ok?
    ensures PassedTestIds(r, str).Ok?
    ensures PathDescriptions(r, str).value.Keys == set id | id in PassedTestIds(r, str).value
  {
    ResultsByIdPassedKeys(Tail(r), str);
  }

  // ---------------------------------------------------------------------
  // Deltas between two rounds
  // ---------------------------------------------------------------------

  const ContentTypes: set<string> := {"statements", "applied_tests", "passed_tests", "paths"}

  /** The first function of `CONTENT_TYPE_FUNCTION_MAPPING[content_type]`, applied to the round. */
  function ContentIds(r: TestRound, contentType: string, str: Json -> string): (ids: Result<seq<ContentId>>)
    ensures contentType !in ContentTypes ==> ids == Err(KeyError)
    ensures contentType == "applied_tests" ==> ids == Ok(AppliedTestIds(r))
  {
    if contentType == "statements" then StmtIds(r, str)
    else if contentType == "applied_tests" then Ok(AppliedTestIds(r))
    else if contentType == "passed_tests" || contentType == "paths" then
      var ids := PassedTestIds(r, str);
      if ids.Err? then Err(ids.error) else Ok(seq(|ids.value|, i requires 0 <= i < |ids.value| => Id(ids.value[i])))
    else Err(KeyError)
  }

  function IdSet(ids: seq<ContentId>): set<ContentId>
  {
    set id | id in ids
  }

  /**
   * Looking every id of `ids` up in a dictionary that the lookup builds
   * afresh for each id: the build's error if it fails, `KeyError` if an id
   * is not a key (a bound method never is).
   */
  function LookupAll(d: Result<map<string, Json>>, ids: set<ContentId>): (r: Result<map<ContentId, Json>>)
    requires ids != {}
    ensures d.Err? ==> r == Err(d.error)
    ensures d.Ok? ==> (r.Ok? <==> forall id :: id in ids ==> id.Id? && id.text in d.value)
    ensures r.Err? && d.Ok? ==> r.error == KeyError
    ensures r.Ok? ==> r.value.Keys == ids && forall id :: id in ids ==> r.value[id] == d.value[id.text]
  {
    if d.Err? then Err(d.error)
    else if exists id :: id in ids && !(id.Id? && id.text in d.value) then Err(KeyError)
    else Ok(map id | id in ids :: d.value[id.text])
  }

  /**
   * The second function of the mapping applied to each id of `ids`.
   * `get_english_statement_by_id` subscripts the method
   * `get_english_statements` instead of calling it, so it raises
   * `TypeError` for every id.
   */
  function ContentItems(r: TestRound, contentType: string, ids: set<ContentId>, str: Json -> string): (items: Result<map<ContentId, Json>>)
    requires contentType in ContentTypes
    ensures ids == {} ==> items == Ok(map[])
    ensures ids != {} && contentType == "statements" ==> items == Err(TypeError)
    ensures items.Ok? ==> items.value.Keys == ids
  {
    if ids == {} then Ok(map[])
    else if contentType == "statements" then Err(TypeError)
    else if contentType == "paths" then LookupAll(PathDescriptions(r, str), ids)
    else LookupAll(EnglishTests(r, str), ids)
  }

  /** `{'added': [...], 'removed': [...]}`, each item kept with the id it was looked up by. */
  datatype ContentDelta = ContentDelta(added: map<ContentId, Json>, removed: map<ContentId, Json>)

  /**
   * `find_content_delta(other_round, content_type)`: the ids only `latest`
   * has, looked up in `latest`, and the ids only `previous` has, looked up
   * in `previous`. Unknown content types raise `KeyError`.
   */
  function FindContentDelta(latest: TestRound, previous: TestRound, contentType: string, str: Json -> string): (r: Result<ContentDelta>)
    ensures contentType !in ContentTypes ==> r == Err(KeyError)
    ensures r.Ok? ==> ContentIds(latest, contentType, str).Ok? && ContentIds(previous, contentType, str).Ok?
    ensures r.Ok? ==> r.value.added.Keys == IdSet(ContentIds(latest, contentType, str).value) - IdSet(ContentIds(previous, contentType, str).value)
    ensures r.Ok? ==> r.value.removed.Keys == IdSet(ContentIds(previous, contentType, str).value) - IdSet(ContentIds(latest, contentType, str).value)
  {
    if contentType !in ContentTypes then Err(KeyError)
    else
      var latestIds := ContentIds(latest, contentType, str);
      if latestIds.Err? then Err(latestIds.error)
      else
        var previousIds := ContentIds(previous, contentType, str);
        if previousIds.Err? then Err(previousIds.error)
        else
          var added := IdSet(latestIds.value) - IdSet(previousIds.value);
          var removed := IdSet(previousIds.value) - IdSet(latestIds.value);
          var addedItems := ContentItems(latest, contentType, added, str);
          if addedItems.Err? then Err(addedItems.error)
          else
            var removedItems := ContentItems(previous, contentType, removed, str);
            if removedItems.Err? then Err(removedItems.error)
            else Ok(ContentDelta(addedItems.value, removedItems.value))
  }

  /** Nothing is both added and removed. */
  lemma ContentDeltaDisjoint(latest: TestRound, previous: TestRound, contentType: string, str: Json -> string)
    requires FindContentDelta(latest, previous, contentType, str).Ok?
    ensures FindContentDelta(latest, previous, contentType, str).value.added.Keys !! FindContentDelta(latest, previous, contentType, str).value.removed.Keys
  {
  }

  /** A round compared with itself has no delta. */
  lemma ContentDeltaSelf(r: TestRound, contentType: string, str: Json -> string)
    requires contentType in ContentTypes && ContentIds(r, contentType, str).Ok?
    ensures FindContentDelta(r, r, contentType, str) == Ok(ContentDelta(map[], map[]))
  {
  }

  /** What one direction adds, the other direction removes, with the same items. */
  lemma ContentDeltaSwap(a: TestRound, b: TestRound, contentType: string, str: Json -> string)
    requires FindContentDelta(a, b, contentType, str).Ok? && FindContentDelta(b, a, contentType, str).Ok?
    ensures FindContentDelta(a, b, contentType, str).value.added == FindContentDelta(b, a, contentType, str).value.removed
    ensures FindContentDelta(a, b, contentType, str).value.removed == FindContentDelta(b, a, contentType, str).value.added
  {
    DeltaOfItems(a, b, contentType, str);
    DeltaOfItems(b, a, contentType, str);
  }

  /** Any change in the set of statement ids makes the statements delta raise `TypeError`. */
  lemma StatementsDeltaRaises(latest: TestRound, previous: TestRound, str: Json -> string)
    requires StmtIds(latest, str).Ok? && StmtIds(previous, str).Ok?
    requires IdSet(StmtIds(latest, str).value) != IdSet(StmtIds(previous, str).value)
    ensures FindContentDelta(latest, previous, "statements", str) == Err(TypeError)
  {
    var l := IdSet(StmtIds(latest, str).value);
    var p := IdSet(StmtIds(previous, str).value);
    var x :| (x in l && x !in p) || (x in p && x !in l);
    assert l - p != {} || p - l != {} by {
      assert x in l - p || x in p - l;
    }
    DeltaOfItems(latest, previous, "statements", str);
  }

  /** The delta fails with the first lookup that fails: the added items', then the removed items'. */
  lemma DeltaOfItems(latest: TestRound, previous: TestRound, contentType: string, str: Json -> string)
    requires contentType in ContentTypes
    requires ContentIds(latest, contentType, str).Ok? && ContentIds(previous, contentType, str).Ok?
    ensures var l := IdSet(ContentIds(latest, contentType, str).value);
      var p := IdSet(ContentIds(previous, contentType, str).value);
      var addedItems := ContentItems(latest, contentType, l - p, str);
      var removedItems := ContentItems(previous, contentType, p - l, str);
      FindContentDelta(latest, previous, contentType, str) ==
        if addedItems.Err? then Err(addedItems.error)
        else if removedItems.Err? then Err(removedItems.error)
        else Ok(ContentDelta(addedItems.value, removedItems.value))
  {
  }

  /**
   * Two different rounds: as soon as the latest has an applied test, the
   * applied-tests delta raises, `KeyError` when its English tests can be
   * built, since the id looked up is a bound method.
   */
  lemma AppliedTestsDeltaRaises(latest: TestRound, previous: TestRound, str: Json -> string)
    requires latest != previous && |latest.testResults| > 1
    ensures FindContentDelta(latest, previous, "applied_tests", str).Err?
    ensures EnglishTests(latest, str).Ok? ==> FindContentDelta(latest, previous, "applied_tests", str) == Err(KeyError)
  {
    var m := GetTestIdMethod(latest);
    assert AppliedTestIds(latest)[0] == m;
    assert m in IdSet(AppliedTestIds(latest));
    assert m !in IdSet(AppliedTestIds(previous));
    var added := IdSet(AppliedTestIds(latest)) - IdSet(AppliedTestIds(previous));
    assert m in added && !m.Id?;
    assert ContentItems(latest, "applied_tests", added, str).Err?;
  }

  /**
   * The pass/fail delta: the added items are the English tests of the
   * tests that pass now and did not pass before.
   */
  lemma PassedTestsDeltaMeaning(latest: TestRound, previous: TestRound, str: Json -> string)
    requires FindContentDelta(latest, previous, "passed_tests", str).Ok?
    ensures forall id :: id in FindContentDelta(latest, previous, "passed_tests", str).value.added ==>
      (id.Id? && id.text in PassedTestIds(latest, str).value && id.text !in PassedTestIds(previous, str).value
      && EnglishTests(latest, str).Ok? && id.text in EnglishTests(latest, str).value
      && FindContentDelta(latest, previous, "passed_tests", str).value.added[id] == EnglishTests(latest, str).value[id.text])
  {
    var d := FindContentDelta(latest, previous, "passed_tests", str).value;
    var lp := PassedTestIds(latest, str).value;
    var pp := PassedTestIds(previous, str).value;
    var lids := ContentIds(latest, "passed_tests", str).value;
    var pids := ContentIds(previous, "passed_tests", str).value;
    var added := IdSet(lids) - IdSet(pids);
    assert d.added.Keys == added;
    forall id | id in added
      ensures id.Id? && id.text in lp && id.text !in pp
    {
      var i :| 0 <= i < |lids| && lids[i] == id;
      assert lids[i] == Id(lp[i]);
      forall j | 0 <= j < |pp| ensures pp[j] != id.text {
        assert pids[j] == Id(pp[j]) && pids[j] in IdSet(pids);
      }
    }
    if added != {} {
      assert d.added == LookupAll(EnglishTests(latest, str), added).value;
    }
  }

  /**
   * The value `getattr(round, name)()` for the counters `find_numeric_delta`
   * is used with. Other names are not modelled and raise `AttributeError`.
   */
  function NumericValue(r: TestRound, name: string, str: Json -> string): (v: Result<Json>)
    ensures name == "get_total_applied_tests" ==> v == Ok(JInt(TotalAppliedTests(r)))
  {
    if name == "get_total_statements" then TotalStatements(r)
    else if name == "get_total_applied_tests" then Ok(JInt(TotalAppliedTests(r)))
    else if name == "get_number_passed_tests" then
      var n := NumberPassedTests(r, str);
      if n.Err? then Err(n.error) else Ok(JInt(n.value))
    else Err(AttributeError)
  }

  /** An integer operand of `-`: Python booleans count as 0 and 1. */
  function AsInt(x: Json): Option<int>
  {
    match x
    case JInt(i) => Some(i)
    case JBool(b) => Some(if b then 1 else 0)
    case _ => None
  }

  /**
   * `find_numeric_delta(other_round, name)`: the latest value minus the
   * previous one; operands that are not numbers raise `TypeError`.
   */
  function FindNumericDelta(latest: TestRound, previous: TestRound, name: string, str: Json -> string): (d: Result<int>)
    ensures d.Ok? ==> NumericValue(latest, name, str).Ok? && NumericValue(previous, name, str).Ok?
    ensures d.Ok? ==> AsInt(NumericValue(latest, name, str).value).Some? && AsInt(NumericValue(previous, name, str).value).Some?
    ensures d.Ok? ==> d.value == AsInt(NumericValue(latest, name, str).value).value - AsInt(NumericValue(previous, name, str).value).value
  {
    var a := NumericValue(latest, name, str);
    if a.Err? then Err(a.error)
    else
      var b := NumericValue(previous, name, str);
      if b.Err? then Err(b.error)
      else
        var x := AsInt(a.value);
        var y := AsInt(b.value);
        if x.None? || y.None? then Err(TypeError) else Ok(x.value - y.value)
  }

  /** Swapping the rounds negates the delta. */
  lemma NumericDeltaAntisymmetric(a: TestRound, b: TestRound, name: string, str: Json -> string)
    requires FindNumericDelta(a, b, name, str).Ok?
    ensures FindNumericDelta(b, a, name, str) == Ok(-FindNumericDelta(a, b, name, str).value)
  {
  }

  /** The applied-tests delta is the difference in the number of results. */
  lemma AppliedTestsNumericDelta(latest: TestRound, previous: TestRound, str: Json -> string)
    ensures FindNumericDelta(latest, previous, "get_total_applied_tests", str) == Ok(|latest.testResults| - |previous.testResults|)
  {
  }
}
