/**
 * Path filters for model tests: a registry of named agent filters, and the
 * filter that rejects chemicals, MeSH terms, GO terms and ungrounded agents.
 */
module FilterFunctions {
  import opened Wrappers
  import opened Indra

  /** A Python function taking an agent: its `__name__` and what it returns. */
  datatype AgentFilter = AgentFilter(name: string, call: Agent -> bool)

  /**
   * `filter_chem_mesh_go(agent)`: the namespace `get_grounding()` picks must
   * not be MESH, CHEBI or GO, and the agent must be grounded.
   */
  predicate FilterChemMeshGo(agent: Agent)
  {
    agent.groundingNs !in {Some("MESH"), Some("CHEBI"), Some("GO"), None}
  }

  const ChemMeshGo: AgentFilter := AgentFilter("filter_chem_mesh_go", FilterChemMeshGo)

  /** The filter keeps exactly the agents grounded to a namespace other than MESH, CHEBI and GO. */
  lemma FilterChemMeshGoMeaning(agent: Agent)
    ensures FilterChemMeshGo(agent) <==>
              agent.groundingNs.Some? && agent.groundingNs.value != "MESH"
              && agent.groundingNs.value != "CHEBI" && agent.groundingNs.value != "GO"
  {
    if agent.groundingNs.Some? {
      var ns := agent.groundingNs.value;
      assert ns != "MESH" ==> Some(ns) != Some("MESH");
      assert ns != "CHEBI" ==> Some(ns) != Some("CHEBI");
      assert ns != "GO" ==> Some(ns) != Some("GO");
    }
  }

  /**
   * An agent grounded to HGNC passes and agents grounded to CHEBI, MESH or
   * GO do not, whatever else their references hold; the namespace is the
   * one `get_grounding()` picks from them.
   */
  lemma FilterChemMeshGoExamples(refs: map<string, string>)
    ensures FilterChemMeshGo(Agent("A", refs, Some("HGNC")))
    ensures !FilterChemMeshGo(Agent("B", refs, Some("CHEBI")))
    ensures !FilterChemMeshGo(Agent("C", refs, Some("MESH")))
    ensures !FilterChemMeshGo(Agent("D", refs, Some("GO")))
    ensures !FilterChemMeshGo(Agent("U", refs, None))
  {
    FilterChemMeshGoMeaning(Agent("A", refs, Some("HGNC")));
  }

  /** The module-level `filter_functions` dictionary. */
  class FilterRegistry {
    var filters: map<string, AgentFilter>

    /** The dictionary once the module is imported: the decorated filter is registered. */
    constructor()
      ensures filters == map["filter_chem_mesh_go" := ChemMeshGo]
    {
      filters := map[];
      new;
      var registered := RegisterFilter(ChemMeshGo);
    }

    /**
     * `register_filter(function)`: records the function under its
     * `__name__`, replacing one of the same name, and returns it unchanged.
     */
    method RegisterFilter(f: AgentFilter) returns (r: AgentFilter)
      modifies this
      ensures r == f
      ensures filters == old(filters)[f.name := f]
    {
      filters := filters[f.name := f];
      return f;
    }
  }

  /**
   * The registry after registering a sequence of filters in order: the
   * last one of each name wins.
   */
  function Registered(filters: map<string, AgentFilter>, functions: seq<AgentFilter>): map<string, AgentFilter>
    decreases |functions|
  {
    if |functions| == 0 then filters
    else Registered(filters[functions[0].name := functions[0]], functions[1..])
  }

  /**
   * After registering, a name is present iff it was before or some filter
   * carried it, and it maps to the last filter registered under it (or the
   * old entry when none was).
   */
  lemma {:induction false} RegisteredLookup(filters: map<string, AgentFilter>, functions: seq<AgentFilter>, name: string)
    ensures name in Registered(filters, functions) <==> name in filters || exists i :: 0 <= i < |functions| && functions[i].name == name
    ensures (exists i :: 0 <= i < |functions| && functions[i].name == name) ==>
              exists i :: 0 <= i < |functions| && functions[i].name == name
                          && Registered(filters, functions)[name] == functions[i]
                          && forall j :: i < j < |functions| ==> functions[j].name != name
    ensures (forall i :: 0 <= i < |functions| ==> functions[i].name != name) && name in filters ==>
              Registered(filters, functions)[name] == filters[name]
    decreases |functions|
  {
    if |functions| > 0 {
      var f := functions[0];
      var rest := functions[1..];
      RegisteredLookup(filters[f.name := f], rest, name);
      if exists i :: 0 <= i < |rest| && rest[i].name == name {
        var i :| 0 <= i < |rest| && rest[i].name == name
                 && Registered(filters[f.name := f], rest)[name] == rest[i]
                 && forall j :: i < j < |rest| ==> rest[j].name != name;
        assert functions[i + 1] == rest[i];
        forall j | i + 1 < j < |functions| ensures functions[j].name != name {
          assert functions[j] == rest[j - 1];
        }
      } else if f.name == name {
        forall j | 0 < j < |functions| ensures functions[j].name != name {
          assert functions[j] == rest[j - 1];
        }
      } else {
        forall i | 0 <= i < |functions| ensures functions[i].name != name {
          if i > 0 { assert functions[i] == rest[i - 1]; }
        }
      }
    }
  }
}
