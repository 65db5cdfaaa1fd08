/**
 * The EMMAA statement wrapper of emmaa/statements.py. Its constructor there
 * (emmaa/statements.py:15) takes only the statement, the date and the search
 * terms; the fourth field, `metadata`, follows the callers that pass one
 * (emmaa/priors/literature_prior.py:112-114 passes `{'internal': True}`).
 */
module EmmaaStatements {
  import opened JsonValues
  import opened Indra
  import opened SearchTerms
  import opened DateStamps

  /**
   * An INDRA statement with the date it was added to a model, the search
   * terms that led to it and its metadata (empty unless a prior sets it).
   */
  datatype EmmaaStatement = EmmaaStatement(
    stmt: Statement,
    date: DateTime,
    searchTerms: seq<SearchTerm>,
    metadata: map<string, Json>)
}
