/**
 * Summary statistics of a model's latest test results: how many tests were
 * applied, how many passed, and how many failed with each result code.
 * Loading the results from S3 is a parameter: the decoded list of results,
 * or the error raised while finding or reading it.
 */
module ModelTestStats {
  import opened Wrappers
  import opened JsonValues
  import opened Counting
  import Seqs

  /** `{'Model name': ..., 'Total applied tests': ..., 'Passed tests': ..., 'Failed tests': [...]}`. */
  datatype Stats = Stats(modelName: string, total: nat, passed: nat, failed: seq<(Json, nat)>)

  /** What one test result contributes: a pass, or a failure with its result code. */
  datatype Outcome = Passed | Failed(code: Json)

  /**
   * `res['result_json']['path_found']`, and when it is falsy
   * `res['result_json']['result_code']`, which must be hashable to be a
   * dictionary key (a list or dictionary raises `TypeError`).
   */
  function OutcomeOf(res: Json): Result<Outcome>
  {
    var resultJson := Subscript(res, "result_json");
    if resultJson.Err? then Err(resultJson.error)
    else
      var pathFound := Subscript(resultJson.value, "path_found");
      if pathFound.Err? then Err(pathFound.error)
      else if Truthy(pathFound.value) then Ok(Passed)
      else
        var code := Subscript(resultJson.value, "result_code");
        if code.Err? then Err(code.error)
        else if !Hashable(code.value) then Err(TypeError)
        else Ok(Failed(code.value))
  }

  /** The result codes of the failures, in result order. */
  function FailedCodes(outcomes: seq<Outcome>): seq<Json>
  {
    if |outcomes| == 0 then []
    else
      var last := outcomes[|outcomes| - 1];
      FailedCodes(outcomes[..|outcomes| - 1]) + (if last.Failed? then [last.code] else [])
  }

  /**
   * `show_statistics(model_name)`: `None` when no results file exists
   * (`IndexError`, reported and swallowed); otherwise the statistics, or
   * the error some result raises.
   */
  function ShowStatistics(modelName: string, loaded: Result<seq<Json>>): Result<Option<Stats>>
  {
    if loaded.Err? then (if loaded.error == IndexError then Ok(None) else Err(loaded.error))
    else
      var outcomes := MapAll(loaded.value, OutcomeOf);
      if outcomes.Err? then Err(outcomes.error)
      else
        Ok(Some(Stats(modelName, |loaded.value|, Seqs.Count(outcomes.value, Passed), Tally(FailedCodes(outcomes.value)))))
  }

  /**
   * The loop's counters after the given outcomes: `path_count`, and the
   * `result_codes` dictionary with its keys in insertion order.
   */
  ghost predicate Tallied(outcomes: seq<Outcome>, pathCount: nat, order: seq<Json>, resultCodes: map<Json, nat>)
  {
    && pathCount == Seqs.Count(outcomes, Passed)
    && order == Seqs.Distinct(FailedCodes(outcomes))
    && (forall c :: c in resultCodes <==> c in FailedCodes(outcomes))
    && (forall c :: c in resultCodes ==> resultCodes[c] == Seqs.Count(FailedCodes(outcomes), c))
  }

  /** One more outcome: a pass increments `path_count`, a failure its code's counter. */
  lemma TalliedStep(outcomes: seq<Outcome>, o: Outcome, pathCount: nat, order: seq<Json>, resultCodes: map<Json, nat>)
    requires Tallied(outcomes, pathCount, order, resultCodes)
    ensures o.Passed? ==> Tallied(outcomes + [o], pathCount + 1, order, resultCodes)
    ensures o.Failed? && o.code in resultCodes ==>
              Tallied(outcomes + [o], pathCount, order, resultCodes[o.code := resultCodes[o.code] + 1])
    ensures o.Failed? && o.code !in resultCodes ==>
              Tallied(outcomes + [o], pathCount, order + [o.code], resultCodes[o.code := 1])
  {
    var next := outcomes + [o];
    assert next[..|outcomes|] == outcomes;
    var codes := FailedCodes(outcomes);
    if o.Failed? {
      var code := o.code;
      assert FailedCodes(next) == codes + [code];
      CountSnoc(codes, code, code);
      forall c | c != code ensures Seqs.Count(codes + [code], c) == Seqs.Count(codes, c) {
        CountSnoc(codes, code, c);
      }
      assert (codes + [code])[..|codes|] == codes;
    } else {
      assert FailedCodes(next) == codes;
    }
  }

  /** `path_count` and the `result_codes` dictionary, with its keys in insertion order. */
  datatype Counters = Counters(pathCount: nat, order: seq<Json>, resultCodes: map<Json, nat>)

  /** The loop that counts passes in `path_count` and failures in `result_codes`. */
  method CountResults(testResults: seq<Json>) returns (r: Result<Counters>)
    ensures r.Err? <==> MapAll(testResults, OutcomeOf).Err?
    ensures r.Err? ==> r.error == MapAll(testResults, OutcomeOf).error
    ensures r.Ok? ==> Tallied(MapAll(testResults, OutcomeOf).value, r.value.pathCount, r.value.order, r.value.resultCodes)
  {
    var pathCount := 0;
    var order: seq<Json> := [];
    var resultCodes: map<Json, nat> := map[];
    ghost var outcomes: seq<Outcome> := [];
    for i := 0 to |testResults|
      invariant |outcomes| == i
      invariant forall k :: 0 <= k < i ==> OutcomeOf(testResults[k]) == Ok(outcomes[k])
      invariant Tallied(outcomes, pathCount, order, resultCodes)
    {
      var outcome := OutcomeOf(testResults[i]);
      if outcome.Err? {
        MapAllFails(testResults, i, OutcomeOf);
        return Err(outcome.error);
      }
      pathCount, order, resultCodes := CountOutcome(outcomes, outcome.value, pathCount, order, resultCodes);
      outcomes := outcomes + [outcome.value];
    }
    assert MapAll(testResults, OutcomeOf).value == outcomes;
    return Ok(Counters(pathCount, order, resultCodes));
  }

  /** One iteration's update: a pass increments `path_count`, a failure its code's counter, adding the code when new. */
  method CountOutcome(ghost outcomes: seq<Outcome>, o: Outcome, pathCount: nat, order: seq<Json>, resultCodes: map<Json, nat>)
    returns (pathCount': nat, order': seq<Json>, resultCodes': map<Json, nat>)
    requires Tallied(outcomes, pathCount, order, resultCodes)
    ensures Tallied(outcomes + [o], pathCount', order', resultCodes')
  {
    TalliedStep(outcomes, o, pathCount, order, resultCodes);
    pathCount', order', resultCodes' := pathCount, order, resultCodes;
    if o.Passed? {
      pathCount' := pathCount + 1;
    } else {
      var code := o.code;
      if code in resultCodes {
        resultCodes' := resultCodes[code := resultCodes[code] + 1];
      } else {
        order' := order + [code];
        resultCodes' := resultCodes[code := 1];
      }
    }
  }

  /** `show_statistics(model_name)`, with `[(key, value) for key, value in result_codes.items()]`. */
  method ShowStatisticsLoop(modelName: string, loaded: Result<seq<Json>>) returns (r: Result<Option<Stats>>)
    ensures r == ShowStatistics(modelName, loaded)
  {
    if loaded.Err? {
      if loaded.error == IndexError {
        return Ok(None);
      }
      return Err(loaded.error);
    }
    var testResults := loaded.value;
    var totalTests := |testResults|;
    var counters := CountResults(testResults);
    if counters.Err? {
      return Err(counters.error);
    }
    var Counters(pathCount, order, resultCodes) := counters.value;
    ghost var codes := FailedCodes(MapAll(testResults, OutcomeOf).value);
    var failed: seq<(Json, nat)> := [];
    for j := 0 to |order|
      invariant |failed| == j
      invariant forall m :: 0 <= m < j ==> failed[m] == (order[m], Seqs.Count(codes, order[m]))
    {
      failed := failed + [(order[j], resultCodes[order[j]])];
    }
    assert failed == Tally(codes);
    return Ok(Some(Stats(modelName, totalTests, pathCount, failed)));
  }

  /** Every outcome is a pass or a failure: the passes and the failure codes together number the outcomes. */
  lemma {:induction false} PassesAndFailures(outcomes: seq<Outcome>)
    ensures Seqs.Count(outcomes, Passed) + |FailedCodes(outcomes)| == |outcomes|
  {
    if |outcomes| > 0 {
      PassesAndFailures(outcomes[..|outcomes| - 1]);
    }
  }

  /**
   * The statistics: the total is the number of results; the passed count
   * is the number of results whose `path_found` is truthy; each failed
   * entry is a result code with the number of results that failed with it;
   * and the passed count plus the failure counts is the total.
   */
  lemma StatisticsMeaning(modelName: string, results: seq<Json>)
    requires ShowStatistics(modelName, Ok(results)).Ok?
    ensures ShowStatistics(modelName, Ok(results)).value.Some?
    ensures var st := ShowStatistics(modelName, Ok(results)).value.value;
            && st.modelName == modelName
            && st.total == |results|
            && st.passed + SumCounts(st.failed) == st.total
            && (forall i :: 0 <= i < |st.failed| ==> st.failed[i].1 > 0)
            && (forall code :: (exists i :: 0 <= i < |st.failed| && st.failed[i].0 == code) <==>
                                 exists k :: 0 <= k < |results| && OutcomeOf(results[k]) == Ok(Failed(code)))
  {
    var outcomes := MapAll(results, OutcomeOf).value;
    var codes := FailedCodes(outcomes);
    PassesAndFailures(outcomes);
    TallySum(codes);
    TallyCounts(codes);
    FailedCodesMembers(outcomes);
  }

  /** A code is among the failure codes iff some outcome failed with it. */
  lemma {:induction false} FailedCodesMembers(outcomes: seq<Outcome>)
    ensures forall code :: code in FailedCodes(outcomes) <==> exists k :: 0 <= k < |outcomes| && outcomes[k] == Failed(code)
  {
    if |outcomes| > 0 {
      var init := outcomes[..|outcomes| - 1];
      FailedCodesMembers(init);
      forall code | (exists k :: 0 <= k < |outcomes| && outcomes[k] == Failed(code)) ensures code in FailedCodes(outcomes) {
        var k :| 0 <= k < |outcomes| && outcomes[k] == Failed(code);
        if k < |init| {
          assert init[k] == outcomes[k];
        }
      }
      forall code | code in FailedCodes(outcomes) ensures exists k :: 0 <= k < |outcomes| && outcomes[k] == Failed(code) {
        if code in FailedCodes(init) {
          var k :| 0 <= k < |init| && init[k] == Failed(code);
          assert outcomes[k] == Failed(code);
        }
      }
    }
  }

  /** With no results file the script reports nothing; any other loading error propagates. */
  lemma NoResultsFile(modelName: string, e: Error)
    ensures ShowStatistics(modelName, Err(IndexError)) == Ok(None)
    ensures e != IndexError ==> ShowStatistics(modelName, Err(e)) == Err(e)
  {
  }

  /**
   * A result that passed counts as passed whatever its result code, and a
   * failed result without a code raises `KeyError`.
   */
  lemma OutcomeCases(code: Json)
    ensures OutcomeOf(JObj(map["result_json" := JObj(map["path_found" := JBool(true), "result_code" := code])])) == Ok(Passed)
    ensures OutcomeOf(JObj(map["result_json" := JObj(map["path_found" := JBool(false)])])) == Err(KeyError)
    ensures OutcomeOf(JObj(map["result_json" := JObj(map["path_found" := JBool(false), "result_code" := JStr("NO_PATHS_FOUND")])]))
            == Ok(Failed(JStr("NO_PATHS_FOUND")))
  {
  }
}
