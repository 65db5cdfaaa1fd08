/**
 * Deciding whether a test applies to a model: every test applies, or only
 * a test whose entities overlap the model's.
 */
module EmmaaTests {
  import opened Wrappers
  import opened Indra

  /** `TestConnector` and its subclass `ScopeTestConnector`. */
  datatype Connector = TestConnector | ScopeTestConnector

  /** A test that checks a model against one INDRA statement. */
  datatype StatementCheckingTest = StatementCheckingTest(stmt: Statement)

  /** `get_entities()`: the statement's `agent_list()`, absent roles included as `None`. */
  function GetEntities(t: StatementCheckingTest): seq<Option<Agent>>
  {
    t.stmt.agents
  }

  /** `_overlap(ents1, ents2)`: `set(ents1) & set(ents2)` is not empty. */
  predicate Overlap<E(==)>(ents1: seq<E>, ents2: seq<E>)
  {
    (set e | e in ents1) * (set e | e in ents2) != {}
  }

  /**
   * `connector.applicable(model, test)`, given `model.get_entities()` and
   * `test.get_entities()`.
   */
  predicate Applicable(c: Connector, modelEntities: seq<Option<Agent>>, testEntities: seq<Option<Agent>>)
  {
    match c
    case TestConnector => true
    case ScopeTestConnector => Overlap(modelEntities, testEntities)
  }

  /** Two entity lists overlap iff some entry of the first equals some entry of the second. */
  lemma OverlapMeaning<E>(ents1: seq<E>, ents2: seq<E>)
    ensures Overlap(ents1, ents2) <==> exists i, j :: 0 <= i < |ents1| && 0 <= j < |ents2| && ents1[i] == ents2[j]
  {
    var common := (set e | e in ents1) * (set e | e in ents2);
    if common != {} {
      var e :| e in common;
      var i :| 0 <= i < |ents1| && ents1[i] == e;
      var j :| 0 <= j < |ents2| && ents2[j] == e;
    }
    if exists i, j :: 0 <= i < |ents1| && 0 <= j < |ents2| && ents1[i] == ents2[j] {
      var i, j :| 0 <= i < |ents1| && 0 <= j < |ents2| && ents1[i] == ents2[j];
      assert ents1[i] in common;
    }
  }

  /**
   * The base connector accepts every pair; the scope connector accepts a
   * statement-checking test iff one of the statement's agents (or a missing
   * role, `None`) is among the model's entities.
   */
  lemma ApplicableMeaning(c: Connector, modelEntities: seq<Option<Agent>>, t: StatementCheckingTest)
    ensures c == TestConnector ==> Applicable(c, modelEntities, GetEntities(t))
    ensures c == ScopeTestConnector ==>
              (Applicable(c, modelEntities, GetEntities(t)) <==>
                 exists i, j :: 0 <= i < |modelEntities| && 0 <= j < |t.stmt.agents| && modelEntities[i] == t.stmt.agents[j])
  {
    OverlapMeaning(modelEntities, t.stmt.agents);
  }

  /** A model with no entities is in scope of no test, and overlap does not depend on the order of the two lists. */
  lemma OverlapProperties<E>(ents1: seq<E>, ents2: seq<E>)
    ensures !Overlap([], ents2)
    ensures Overlap(ents1, ents2) <==> Overlap(ents2, ents1)
  {
    OverlapMeaning(ents1, ents2);
    OverlapMeaning(ents2, ents1);
    OverlapMeaning([], ents2);
  }
}
