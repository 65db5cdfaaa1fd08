/**
 * The object model for running tests on models: a manager holding models,
 * tests, the model-test pairs to run and the result of each pair.
 */
module ModelTests {
  import opened Wrappers
  import opened Indra
  import opened EmmaaTests

  /** `itertools.product(models, tests)`: every pair, the model varying slowest. */
  function Product<M, T>(models: seq<M>, tests: seq<T>): seq<(M, T)>
  {
    if |models| == 0 then []
    else seq(|tests|, j requires 0 <= j < |tests| => (models[0], tests[j])) + Product(models[1..], tests)
  }

  /** The product has one pair per model and test. */
  lemma {:induction false} ProductLength<M, T>(models: seq<M>, tests: seq<T>)
    ensures |Product(models, tests)| == |models| * |tests|
  {
    if |models| > 0 {
      ProductLength(models[1..], tests);
      assert |models| * |tests| == |tests| + (|models| - 1) * |tests|;
    }
  }

  /** The `i`-th model paired with the `j`-th test sits at position `i * |tests| + j`. */
  lemma {:induction false} ProductAt<M, T>(models: seq<M>, tests: seq<T>, i: nat, j: nat) returns (k: nat)
    requires i < |models| && j < |tests|
    ensures k == i * |tests| + j
    ensures k < |Product(models, tests)| && Product(models, tests)[k] == (models[i], tests[j])
  {
    if i == 0 {
      k := j;
    } else {
      var k' := ProductAt(models[1..], tests, i - 1, j);
      k := |tests| + k';
      assert k == i * |tests| + j by {
        assert i * |tests| == |tests| + (i - 1) * |tests|;
      }
      assert models[1..][i - 1] == models[i];
    }
  }

  /** A pair is in the product iff its model is among the models and its test among the tests. */
  lemma {:induction false} ProductMembers<M, T>(models: seq<M>, tests: seq<T>, p: (M, T))
    ensures p in Product(models, tests) <==> p.0 in models && p.1 in tests
  {
    if |models| > 0 {
      ProductMembers(models[1..], tests, p);
      var row := seq(|tests|, j requires 0 <= j < |tests| => (models[0], tests[j]));
      assert Product(models, tests) == row + Product(models[1..], tests);
      if p.0 in models && p.1 in tests && p.0 == models[0] {
        var j :| 0 <= j < |tests| && tests[j] == p.1;
        assert row[j] == p;
      }
      assert models == [models[0]] + models[1..];
    }
  }

  /** Some pair of the product is applicable under the connector. */
  predicate SomeApplicable<M, T>(pairs: seq<(M, T)>, connector: Connector,
                                 modelEntities: M -> seq<Option<Agent>>, testEntities: T -> seq<Option<Agent>>)
  {
    exists k :: 0 <= k < |pairs| && Applicable(connector, modelEntities(pairs[k].0), testEntities(pairs[k].1))
  }

  /**
   * The results after `run_tests` stored the result of each pair in order,
   * and whether a check raised (`Err`), which stops the loop.
   */
  function RecordResults<M(==), T(==), R>(results: map<(M, T), R>, pairs: seq<(M, T)>, check: (M, T) -> Result<R>): (map<(M, T), R>, Result<()>)
  {
    if |pairs| == 0 then (results, Ok(()))
    else
      var before := RecordResults(results, pairs[..|pairs| - 1], check);
      var p := pairs[|pairs| - 1];
      if before.1.Err? then before
      else
        var res := check(p.0, p.1);
        if res.Err? then (before.0, Err(res.error)) else (before.0[p := res.value], Ok(()))
  }

  /**
   * When no check raises, there is exactly one result per pair, keyed by
   * `(model, test)`, and it is that pair's result; earlier entries keyed
   * by other pairs are kept.
   */
  lemma {:induction false} RecordResultsOk<M, T, R>(results: map<(M, T), R>, pairs: seq<(M, T)>, check: (M, T) -> Result<R>)
    requires RecordResults(results, pairs, check).1.Ok?
    ensures forall k :: 0 <= k < |pairs| ==> check(pairs[k].0, pairs[k].1).Ok?
    ensures RecordResults(results, pairs, check).0.Keys == results.Keys + set k | 0 <= k < |pairs| :: pairs[k]
    ensures forall k :: 0 <= k < |pairs| ==> RecordResults(results, pairs, check).0[pairs[k]] == check(pairs[k].0, pairs[k].1).value
    ensures forall p :: p in results && p !in pairs ==> RecordResults(results, pairs, check).0[p] == results[p]
  {
    if |pairs| > 0 {
      var init := pairs[..|pairs| - 1];
      var p := pairs[|pairs| - 1];
      RecordResultsOk(results, init, check);
      assert pairs == init + [p];
      var before := RecordResults(results, init, check).0;
      assert (set k | 0 <= k < |pairs| :: pairs[k]) == (set k | 0 <= k < |init| :: init[k]) + {p} by {
        forall k | 0 <= k < |init| ensures init[k] == pairs[k] { }
      }
      forall k | 0 <= k < |pairs| ensures RecordResults(results, pairs, check).0[pairs[k]] == check(pairs[k].0, pairs[k].1).value {
        if pairs[k] != p {
          assert init[k] == pairs[k];
        }
      }
    }
  }

  /**
   * When the check of the `i`-th pair raises and none before it does, the
   * loop stops there with that error, holding the results of the pairs
   * before it.
   */
  lemma {:induction false} RecordResultsStops<M, T, R>(results: map<(M, T), R>, pairs: seq<(M, T)>, check: (M, T) -> Result<R>, i: nat)
    requires i < |pairs| && check(pairs[i].0, pairs[i].1).Err?
    requires forall k :: 0 <= k < i ==> check(pairs[k].0, pairs[k].1).Ok?
    ensures RecordResults(results, pairs, check) == (RecordResults(results, pairs[..i], check).0, Err(check(pairs[i].0, pairs[i].1).error))
  {
    if i < |pairs| - 1 {
      var init := pairs[..|pairs| - 1];
      assert init[..i] == pairs[..i];
      RecordResultsStops(results, init, check, i);
    } else {
      assert pairs[..|pairs| - 1] == pairs[..i];
      RecordResultsPrefixOk(results, pairs[..i], check);
    }
  }

  /** Checks that all succeed leave the loop running. */
  lemma {:induction false} RecordResultsPrefixOk<M, T, R>(results: map<(M, T), R>, pairs: seq<(M, T)>, check: (M, T) -> Result<R>)
    requires forall k :: 0 <= k < |pairs| ==> check(pairs[k].0, pairs[k].1).Ok?
    ensures RecordResults(results, pairs, check).1.Ok?
  {
    if |pairs| > 0 {
      RecordResultsPrefixOk(results, pairs[..|pairs| - 1], check);
    }
  }

  /** `TestManager(models, tests)`. */
  class TestManager<M(==), T(==), R> {
    var models: seq<M>
    var tests: seq<T>
    var pairsToTest: seq<(M, T)>
    var testResults: map<(M, T), R>

    /** A new manager has no pairs to test and no results. */
    constructor(models: seq<M>, tests: seq<T>)
      ensures this.models == models && this.tests == tests
      ensures pairsToTest == [] && testResults == map[]
    {
      this.models := models;
      this.tests := tests;
      pairsToTest := [];
      testResults := map[];
    }

    /**
     * `make_tests(test_connector)`: goes through the pairs in product order;
     * at the first applicable pair, `self.pairs_to_test.append(model, test)`
     * passes two arguments to `list.append`, which raises `TypeError` before
     * anything is appended. So the call raises iff some pair is applicable,
     * and `pairs_to_test` never changes.
     */
    method MakeTests(connector: Connector, modelEntities: M -> seq<Option<Agent>>, testEntities: T -> seq<Option<Agent>>)
      returns (r: Result<()>)
      ensures r.Err? <==> SomeApplicable(Product(models, tests), connector, modelEntities, testEntities)
      ensures r.Err? ==> r.error == TypeError
    {
      var pairs := Product(models, tests);
      for k := 0 to |pairs|
        invariant forall m :: 0 <= m < k ==> !Applicable(connector, modelEntities(pairs[m].0), testEntities(pairs[m].1))
      {
        var (model, test) := pairs[k];
        if Applicable(connector, modelEntities(model), testEntities(test)) {
          return Err(TypeError);
        }
      }
      return Ok(());
    }

    /**
     * `run_tests()`: stores `test.check(model)` under `(model, test)` for
     * each pair in order; a check that raises ends the loop with the
     * results stored so far.
     */
    method RunTests(check: (M, T) -> Result<R>) returns (r: Result<()>)
      modifies this
      ensures models == old(models) && tests == old(tests) && pairsToTest == old(pairsToTest)
      ensures (testResults, r) == RecordResults(old(testResults), pairsToTest, check)
    {
      var i := 0;
      while i < |pairsToTest|
        invariant 0 <= i <= |pairsToTest|
        invariant models == old(models) && tests == old(tests) && pairsToTest == old(pairsToTest)
        invariant (testResults, Ok(())) == RecordResults(old(testResults), pairsToTest[..i], check)
        invariant forall k :: 0 <= k < i ==> check(pairsToTest[k].0, pairsToTest[k].1).Ok?
      {
        var (model, test) := pairsToTest[i];
        assert pairsToTest[..i + 1][..i] == pairsToTest[..i];
        var res := check(model, test);
        if res.Err? {
          RecordResultsStops(old(testResults), pairsToTest, check, i);
          return Err(res.error);
        }
        testResults := testResults[(model, test) := res.value];
        i := i + 1;
      }
      assert pairsToTest[..i] == pairsToTest;
      return Ok(());
    }
  }

  /** Some pair is applicable iff some model and some test, taken together, are. */
  lemma SomeApplicableMeaning<M, T>(models: seq<M>, tests: seq<T>, connector: Connector,
                                    modelEntities: M -> seq<Option<Agent>>, testEntities: T -> seq<Option<Agent>>)
    ensures SomeApplicable(Product(models, tests), connector, modelEntities, testEntities) <==>
              exists i, j :: 0 <= i < |models| && 0 <= j < |tests| && Applicable(connector, modelEntities(models[i]), testEntities(tests[j]))
  {
    if SomeApplicable(Product(models, tests), connector, modelEntities, testEntities) {
      ApplicablePairFound(models, tests, connector, modelEntities, testEntities);
    }
    if exists i, j :: 0 <= i < |models| && 0 <= j < |tests| && Applicable(connector, modelEntities(models[i]), testEntities(tests[j])) {
      var i, j :| 0 <= i < |models| && 0 <= j < |tests| && Applicable(connector, modelEntities(models[i]), testEntities(tests[j]));
      ApplicablePairListed(models, tests, connector, modelEntities, testEntities, i, j);
    }
  }

  lemma ApplicablePairListed<M, T>(models: seq<M>, tests: seq<T>, connector: Connector,
                                   modelEntities: M -> seq<Option<Agent>>, testEntities: T -> seq<Option<Agent>>, i: nat, j: nat)
    requires i < |models| && j < |tests| && Applicable(connector, modelEntities(models[i]), testEntities(tests[j]))
    ensures SomeApplicable(Product(models, tests), connector, modelEntities, testEntities)
  {
    var pairs := Product(models, tests);
    var k := ProductAt(models, tests, i, j);
    assert pairs[k].0 == models[i] && pairs[k].1 == tests[j];
  }

  lemma ApplicablePairFound<M, T>(models: seq<M>, tests: seq<T>, connector: Connector,
                                  modelEntities: M -> seq<Option<Agent>>, testEntities: T -> seq<Option<Agent>>)
    requires SomeApplicable(Product(models, tests), connector, modelEntities, testEntities)
    ensures exists i, j :: 0 <= i < |models| && 0 <= j < |tests| && Applicable(connector, modelEntities(models[i]), testEntities(tests[j]))
  {
    var pairs := Product(models, tests);
    var k :| 0 <= k < |pairs| && Applicable(connector, modelEntities(pairs[k].0), testEntities(pairs[k].1));
    var p := pairs[k];
    ProductMembers(models, tests, p);
    var i :| 0 <= i < |models| && models[i] == p.0;
    var j :| 0 <= j < |tests| && tests[j] == p.1;
    assert Applicable(connector, modelEntities(models[i]), testEntities(tests[j]));
  }

  /**
   * With the base connector every pair applies, so `make_tests` raises as
   * soon as there is one model and one test.
   */
  lemma BaseConnectorRaises<M, T>(models: seq<M>, tests: seq<T>, modelEntities: M -> seq<Option<Agent>>, testEntities: T -> seq<Option<Agent>>)
    ensures SomeApplicable(Product(models, tests), TestConnector, modelEntities, testEntities) <==> |models| > 0 && |tests| > 0
  {
    SomeApplicableMeaning(models, tests, TestConnector, modelEntities, testEntities);
    if |models| > 0 && |tests| > 0 {
      assert Applicable(TestConnector, modelEntities(models[0]), testEntities(tests[0]));
    }
  }

  /**
   * With the scope connector `make_tests` raises iff some model shares an
   * entity with some test.
   */
  lemma ScopeConnectorRaises<M, T>(models: seq<M>, tests: seq<T>, modelEntities: M -> seq<Option<Agent>>, testEntities: T -> seq<Option<Agent>>)
    ensures SomeApplicable(Product(models, tests), ScopeTestConnector, modelEntities, testEntities) <==>
              exists i, j :: 0 <= i < |models| && 0 <= j < |tests| && Overlap(modelEntities(models[i]), testEntities(tests[j]))
  {
    SomeApplicableMeaning(models, tests, ScopeTestConnector, modelEntities, testEntities);
  }
}
