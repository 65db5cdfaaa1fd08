/**
 * emmaa/queries.py: the query types, the path-property query's JSON form,
 * and the dispatch from a JSON document to its query class. INDRA's own
 * statement and agent serialisation is the parameter `codec`.
 */
module Queries {
  import opened Wrappers
  import opened Strings
  import opened JsonValues
  import opened Indra

  // ---------------------------------------------------------------------
  // Query classes and their type names
  // ---------------------------------------------------------------------

  /** The subclasses of `Query`. */
  datatype QueryClass = StructuralProperty | PathProperty | SimpleInterventionProperty | ComparativeInterventionProperty

  /** `get_all_descendants(Query)`: the subclasses in the order they are defined. */
  const QueryClasses: seq<QueryClass> :=
    [StructuralProperty, PathProperty, SimpleInterventionProperty, ComparativeInterventionProperty]

  /** A class's `__name__`, written word by word. */
  function ClassName(c: QueryClass): string
  {
    match c
    case StructuralProperty => "Structural" + "Property"
    case PathProperty => "Path" + "Property"
    case SimpleInterventionProperty => "Simple" + "Intervention" + "Property"
    case ComparativeInterventionProperty => "Comparative" + "Intervention" + "Property"
  }

  /** `underscore(__name__)`: the name as it appears in a query's `type` field. */
  function TypeName(c: QueryClass): string
  {
    match c
    case StructuralProperty => "structural" + "_" + "property"
    case PathProperty => "path" + "_" + "property"
    case SimpleInterventionProperty => "simple" + "_" + "intervention" + "_" + "property"
    case ComparativeInterventionProperty => "comparative" + "_" + "intervention" + "_" + "property"
  }

  /**
   * The rest of `inflection.camelize`, after the first character: an `_`
   * followed by any character but a newline is dropped and that character
   * upper-cased.
   */
  function CamelizeRest(s: string): string
  {
    if |s| == 0 then ""
    else if |s| >= 2 && s[0] == '_' && s[1] != '\n' then [UpperChar(s[1])] + CamelizeRest(s[2..])
    else [s[0]] + CamelizeRest(s[1..])
  }

  /** `inflection.camelize(s)`: the first character upper-cased, then `_x` turned into `X`. */
  function Camelize(s: string): string
  {
    if |s| > 0 && s[0] != '\n' then [UpperChar(s[0])] + CamelizeRest(s[1..]) else CamelizeRest(s)
  }

  /** `query_class.__name__.lower() == camelize(query_type).lower()`. */
  predicate NamesClass(queryType: string, c: QueryClass)
  {
    Lower(ClassName(c)) == Lower(Camelize(queryType))
  }

  /** The first class of `classes` that the type names. */
  function FirstNamed(classes: seq<QueryClass>, queryType: string): (r: Option<QueryClass>)
    ensures r.Some? ==> r.value in classes && NamesClass(queryType, r.value)
    ensures r.None? ==> forall c :: c in classes ==> !NamesClass(queryType, c)
  {
    if |classes| == 0 then None
    else if NamesClass(queryType, classes[0]) then Some(classes[0])
    else FirstNamed(classes[1..], queryType)
  }

  /**
   * `query_cls_from_type(query_type)`: the first query class whose name,
   * lower-cased, equals the camelized type, lower-cased; `NotAQueryType`
   * when none does. A type that is not a string cannot be camelized
   * (`TypeError`).
   */
  method QueryClsFromType(queryType: Json) returns (r: Result<QueryClass>)
    ensures !queryType.JStr? ==> r == Err(TypeError)
    ensures queryType.JStr? && FirstNamed(QueryClasses, queryType.s).Some? ==>
              r == Ok(FirstNamed(QueryClasses, queryType.s).value)
    ensures queryType.JStr? && FirstNamed(QueryClasses, queryType.s).None? ==> r == Err(NotAQueryType)
  {
    for i := 0 to |QueryClasses|
      invariant !queryType.JStr? ==> i == 0
      invariant queryType.JStr? ==> FirstNamed(QueryClasses, queryType.s) == FirstNamed(QueryClasses[i..], queryType.s)
    {
      if !queryType.JStr? {
        return Err(TypeError);
      }
      var c := QueryClasses[i];
      if Lower(ClassName(c)) == Lower(Camelize(queryType.s)) {
        return Ok(c);
      }
      assert QueryClasses[i..][1..] == QueryClasses[i + 1..];
    }
    return Err(NotAQueryType);
  }

  lemma {:induction false} CamelizeRestPlain(w: string)
    requires '_' !in w
    ensures CamelizeRest(w) == w
    decreases |w|
  {
    if |w| > 0 {
      assert '_' !in w[1..] by {
        forall k | 0 <= k < |w[1..]| ensures w[1..][k] != '_' { assert w[1..][k] == w[k + 1]; }
      }
      CamelizeRestPlain(w[1..]);
    }
  }

  /** A word without `_` is kept, and the `_` after it is dropped and the next character upper-cased. */
  lemma {:induction false} CamelizeRestWord(w: string, c: char, rest: string)
    requires '_' !in w && c != '\n'
    ensures CamelizeRest(w + ['_', c] + rest) == w + [UpperChar(c)] + CamelizeRest(rest)
    decreases |w|
  {
    var s := w + ['_', c] + rest;
    if |w| == 0 {
      assert s[2..] == rest;
    } else {
      assert s[1..] == w[1..] + ['_', c] + rest;
      assert '_' !in w[1..] by {
        forall k | 0 <= k < |w[1..]| ensures w[1..][k] != '_' { assert w[1..][k] == w[k + 1]; }
      }
      CamelizeRestWord(w[1..], c, rest);
      assert [w[0]] + w[1..] == w;
    }
  }

  lemma CamelizeCons(a: char, rest: string)
    requires a != '\n'
    ensures Camelize([a] + rest) == [UpperChar(a)] + CamelizeRest(rest)
  {
    assert ([a] + rest)[1..] == rest;
  }

  /** A word with its first letter upper-cased. */
  function Capital(w: string): string
    requires |w| > 0
  {
    [UpperChar(w[0])] + w[1..]
  }

  /** A word that `camelize` treats as one: not empty, no `_`, not starting with a newline. */
  predicate Word(w: string)
  {
    |w| > 0 && '_' !in w && w[0] != '\n'
  }

  lemma WordTail(w: string)
    requires Word(w)
    ensures '_' !in w[1..]
  {
    forall k | 0 <= k < |w[1..]| ensures w[1..][k] != '_' { assert w[1..][k] == w[k + 1]; }
  }

  /** Two words joined by `_`, camelized, are the two words capitalized. */
  lemma CamelizeTwo(w1: string, w2: string)
    requires Word(w1) && Word(w2)
    ensures Camelize(w1 + "_" + w2) == Capital(w1) + Capital(w2)
  {
    WordTail(w1);
    WordTail(w2);
    assert w1 + "_" + w2 == [w1[0]] + (w1[1..] + ['_', w2[0]] + w2[1..]);
    CamelizeCons(w1[0], w1[1..] + ['_', w2[0]] + w2[1..]);
    CamelizeRestWord(w1[1..], w2[0], w2[1..]);
    CamelizeRestPlain(w2[1..]);
  }

  /** Three words joined by `_`, camelized, are the three words capitalized. */
  lemma CamelizeThree(w1: string, w2: string, w3: string)
    requires Word(w1) && Word(w2) && Word(w3)
    ensures Camelize(w1 + "_" + w2 + "_" + w3) == Capital(w1) + Capital(w2) + Capital(w3)
  {
    WordTail(w1);
    WordTail(w2);
    WordTail(w3);
    var tail := w2[1..] + ['_', w3[0]] + w3[1..];
    assert w1 + "_" + w2 + "_" + w3 == [w1[0]] + (w1[1..] + ['_', w2[0]] + tail);
    CamelizeCons(w1[0], w1[1..] + ['_', w2[0]] + tail);
    CamelizeRestWord(w1[1..], w2[0], tail);
    CamelizeRestWord(w2[1..], w3[0], w3[1..]);
    CamelizeRestPlain(w3[1..]);
  }

  /** `camelize` turns each type name back into its class's name. */
  lemma CamelizeTypeName(c: QueryClass)
    ensures Camelize(TypeName(c)) == ClassName(c)
  {
    assert Capital("structural") == "Structural";
    assert Capital("path") == "Path";
    assert Capital("simple") == "Simple";
    assert Capital("comparative") == "Comparative";
    assert Capital("intervention") == "Intervention";
    assert Capital("property") == "Property";
    match c
    case StructuralProperty => CamelizeTwo("structural", "property");
    case PathProperty => CamelizeTwo("path", "property");
    case SimpleInterventionProperty => CamelizeThree("simple", "intervention", "property");
    case ComparativeInterventionProperty => CamelizeThree("comparative", "intervention", "property");
  }

  /** The class names have different lengths, so at most one of them is named by any type. */
  lemma NamesOneClass(queryType: string, c: QueryClass, d: QueryClass)
    requires NamesClass(queryType, c) && NamesClass(queryType, d)
    ensures c == d
  {
    assert |Lower(ClassName(c))| == |ClassName(c)| && |Lower(ClassName(d))| == |ClassName(d)|;
  }

  /** Every class's type name leads back to that class, so the dispatch inverts `to_json`'s type field. */
  lemma TypeNameDispatch(c: QueryClass)
    ensures FirstNamed(QueryClasses, TypeName(c)) == Some(c)
  {
    CamelizeTypeName(c);
    assert NamesClass(TypeName(c), c);
    var r := FirstNamed(QueryClasses, TypeName(c));
    assert c in QueryClasses;
    NamesOneClass(TypeName(c), c, r.value);
  }

  /** The comparison ignores letter case and underscores: `PATH_PROPERTY` names the path property too. */
  lemma UpperCaseTypeAccepted()
    ensures FirstNamed(QueryClasses, "PATH_PROPERTY") == Some(PathProperty)
  {
    UpperCaseNamesPath();
    var r := FirstNamed(QueryClasses, "PATH_PROPERTY");
    assert PathProperty in QueryClasses;
    NamesOneClass("PATH_PROPERTY", PathProperty, r.value);
  }

  lemma UpperCaseNamesPath()
    ensures NamesClass("PATH_PROPERTY", PathProperty)
  {
    assert "PATH_PROPERTY" == "PATH" + "_" + "PROPERTY";
    CamelizeTwo("PATH", "PROPERTY");
    assert Capital("PATH") == "PATH" && Capital("PROPERTY") == "PROPERTY";
    LowerPath();
    LowerProperty();
    LowerConcat("PATH", "PROPERTY");
    LowerConcat("Path", "Property");
  }

  lemma LowerPath()
    ensures Lower("PATH") == Lower("Path")
  {
    LowerSame("PATH", "Path");
  }

  lemma LowerProperty()
    ensures Lower("PROPERTY") == Lower("Property")
  {
    LowerSame("PROPERTY", "Property");
  }

  /** Two strings that differ only in case lower-case alike. */
  lemma LowerSame(a: string, b: string)
    requires |a| == |b| && forall i :: 0 <= i < |a| ==> LowerChar(a[i]) == LowerChar(b[i])
    ensures Lower(a) == Lower(b)
  {
  }

  /** A type naming no class is rejected. */
  lemma UnknownTypeRejected()
    ensures FirstNamed(QueryClasses, "open_search") == None
  {
    assert "open_search" == "open" + "_" + "search";
    CamelizeTwo("open", "search");
    assert |Lower(Camelize("open_search"))| == 10;
    forall c | c in QueryClasses ensures !NamesClass("open_search", c) {
      ClassNameLength(c);
    }
  }

  lemma LowerConcat(a: string, b: string)
    ensures Lower(a + b) == Lower(a) + Lower(b)
  {
  }

  lemma ClassNameLength(c: QueryClass)
    ensures |Lower(ClassName(c))| >= 12
  {
  }

  // ---------------------------------------------------------------------
  // PathProperty
  // ---------------------------------------------------------------------

  /** INDRA's JSON forms of statements and agents. */
  datatype Codec = Codec(
    stmtToJson: Statement -> Json,
    stmtFromJson: Json -> Result<Statement>,
    agentToJson: Agent -> Json,
    agentFromJson: Json -> Result<Agent>)

  /** Reading back what was written gives the same statement or agent. */
  ghost predicate Inverse(codec: Codec)
  {
    && (forall s :: codec.stmtFromJson(codec.stmtToJson(s)) == Ok(s))
    && (forall a :: codec.agentFromJson(codec.agentToJson(a)) == Ok(a))
  }

  /**
   * A path-property query: the statement the path must satisfy, and the
   * agents and relation types to include or exclude; a constraint missing
   * from its dictionary is `None`.
   */
  datatype PathQuery = PathQuery(
    pathStmt: Statement,
    includeEntities: Option<seq<Agent>>,
    excludeEntities: Option<seq<Agent>>,
    includeRels: Option<seq<Json>>,
    excludeRels: Option<seq<Json>>)

  /** `d.get(k)` on a dictionary of lists. */
  function Lookup<T>(d: map<string, seq<T>>, k: string): Option<seq<T>>
  {
    if k in d then Some(d[k]) else None
  }

  /**
   * `PathProperty(path_stmt, entity_constraints, relationship_constraints)`:
   * each constraint is read with `.get`, so a missing one is `None`; a
   * missing dictionary (`None`) has no `.get` and raises `AttributeError`.
   */
  function NewPathQuery(pathStmt: Statement, entityConstraints: Option<map<string, seq<Agent>>>,
                        relationshipConstraints: Option<map<string, seq<Json>>>): (r: Result<PathQuery>)
    ensures r.Err? <==> entityConstraints.None? || relationshipConstraints.None?
    ensures r.Err? ==> r.error == AttributeError
    ensures r.Ok? ==> r.value.pathStmt == pathStmt
                      && (r.value.includeEntities.Some? <==> "include" in entityConstraints.value)
                      && (r.value.excludeEntities.Some? <==> "exclude" in entityConstraints.value)
                      && (r.value.includeRels.Some? <==> "include" in relationshipConstraints.value)
                      && (r.value.excludeRels.Some? <==> "exclude" in relationshipConstraints.value)
  {
    if entityConstraints.None? || relationshipConstraints.None? then Err(AttributeError)
    else
      var ec := entityConstraints.value;
      var rc := relationshipConstraints.value;
      Ok(PathQuery(pathStmt, Lookup(ec, "include"), Lookup(ec, "exclude"), Lookup(rc, "include"), Lookup(rc, "exclude")))
  }

  /** All four constraints are present, so `to_json` can iterate them. */
  predicate Complete(q: PathQuery)
  {
    q.includeEntities.Some? && q.excludeEntities.Some? && q.includeRels.Some? && q.excludeRels.Some?
  }

  /** `[ec.to_json() for ec in agents]`. */
  function AgentsJson(agents: seq<Agent>, codec: Codec): (j: Json)
    ensures j.JArr? && |j.items| == |agents|
  {
    JArr(seq(|agents|, i requires 0 <= i < |agents| => codec.agentToJson(agents[i])))
  }

  /** `[{'type': rel} for rel in rels]`. */
  function RelsJson(rels: seq<Json>): (j: Json)
    ensures j.JArr? && |j.items| == |rels|
  {
    JArr(seq(|rels|, i requires 0 <= i < |rels| => JObj(map["type" := rels[i]])))
  }

  /**
   * The document `to_json` builds: the type, the path statement, and the
   * two constraint dictionaries, each with `include` and `exclude` lists;
   * iterating a missing constraint raises `TypeError`.
   */
  function QueryJson(q: PathQuery, codec: Codec): (r: Result<Json>)
    ensures r.Ok? <==> Complete(q)
    ensures r.Err? ==> r.error == TypeError
    ensures r.Ok? ==> r.value.JObj? && r.value.fields.Keys == {"type", "path", "entity_constraints", "relationship_constraints"}
                      && r.value.fields["type"] == JStr(TypeName(PathProperty))
  {
    if !Complete(q) then Err(TypeError)
    else
      Ok(JObj(map[
        "type" := JStr(TypeName(PathProperty)),
        "path" := codec.stmtToJson(q.pathStmt),
        "entity_constraints" := JObj(map["include" := AgentsJson(q.includeEntities.value, codec),
                                         "exclude" := AgentsJson(q.excludeEntities.value, codec)]),
        "relationship_constraints" := JObj(map["include" := RelsJson(q.includeRels.value),
                                               "exclude" := RelsJson(q.excludeRels.value)])]))
  }

  /** `PathProperty.to_json()`: the dictionary filled entry by entry. */
  method ToJson(q: PathQuery, codec: Codec) returns (r: Result<Json>)
    ensures r == QueryJson(q, codec)
  {
    assert TypeName(PathProperty) == "path_property";
    var jsonDict: map<string, Json> := map["type" := JStr("path_property")];
    jsonDict := jsonDict["path" := codec.stmtToJson(q.pathStmt)];
    var entityConstraints: map<string, Json> := map[];
    if q.includeEntities.None? {
      return Err(TypeError);
    }
    entityConstraints := entityConstraints["include" := AgentsJson(q.includeEntities.value, codec)];
    if q.excludeEntities.None? {
      return Err(TypeError);
    }
    entityConstraints := entityConstraints["exclude" := AgentsJson(q.excludeEntities.value, codec)];
    jsonDict := jsonDict["entity_constraints" := JObj(entityConstraints)];
    var relationshipConstraints: map<string, Json> := map[];
    if q.includeRels.None? {
      return Err(TypeError);
    }
    relationshipConstraints := relationshipConstraints["include" := RelsJson(q.includeRels.value)];
    if q.excludeRels.None? {
      return Err(TypeError);
    }
    relationshipConstraints := relationshipConstraints["exclude" := RelsJson(q.excludeRels.value)];
    jsonDict := jsonDict["relationship_constraints" := JObj(relationshipConstraints)];
    return Ok(JObj(jsonDict));
  }

  /**
   * `for x in value` in the constraint loops: a list gives its items and a
   * string its one-character strings; the empty dictionary gives nothing,
   * and a non-empty one its keys, which both loops reject (see
   * `ParseAgents`); `None`, numbers and booleans are not iterable.
   */
  function ConstraintItems(value: Json): Result<seq<Json>>
  {
    match value
    case JArr(items) => Ok(items)
    case JStr(s) => if |s| == 0 then Ok([]) else Ok(seq(|s|, i requires 0 <= i < |s| => JStr([s[i]])))
    case JObj(fields) => if |fields| == 0 then Ok([]) else Err(TypeError)
    case _ => Err(TypeError)
  }

  /** `[Agent._from_json(ec) for ec in value]`. */
  function ParseAgents(value: Json, codec: Codec): Result<seq<Agent>>
  {
    var items := ConstraintItems(value);
    if items.Err? then Err(items.error) else MapAll(items.value, codec.agentFromJson)
  }

  /** `[rel_type['type'] for rel_type in value]`. */
  function ParseRels(value: Json): Result<seq<Json>>
  {
    var items := ConstraintItems(value);
    if items.Err? then Err(items.error) else MapAll(items.value, (item: Json) => Subscript(item, "type"))
  }

  /**
   * A list constraint value gives its items, an empty string or dictionary
   * gives an empty list, and a non-iterable value raises `TypeError`.
   */
  lemma ConstraintItemsCases(value: Json, codec: Codec)
    ensures value.JArr? ==> ParseAgents(value, codec) == MapAll(value.items, codec.agentFromJson)
    ensures value == JStr("") || value == JObj(map[]) ==> ParseAgents(value, codec) == Ok([]) && ParseRels(value) == Ok([])
    ensures value.JNull? || value.JBool? || value.JInt? || value.JReal? ==>
              ParseAgents(value, codec) == Err(TypeError) && ParseRels(value) == Err(TypeError)
  {
    if value == JStr("") || value == JObj(map[]) {
      assert ConstraintItems(value) == Ok([]);
    }
  }

  /** A non-empty string as a relationship-constraint value fails: its characters have no `type`. */
  lemma StringRelsRejected(s: string)
    requires |s| > 0
    ensures ParseRels(JStr(s)) == Err(TypeError)
  {
    var items := ConstraintItems(JStr(s)).value;
    assert items[0] == JStr([s[0]]);
    assert Subscript(items[0], "type") == Err(TypeError);
    MapAllFails(items, 0, (item: Json) => Subscript(item, "type"));
  }

  /** Every entry of a constraint dictionary, parsed; `None` when some entry fails. */
  function ParseEntityConstraints(ec: map<string, Json>, codec: Codec): Option<map<string, seq<Agent>>>
  {
    if forall k :: k in ec ==> ParseAgents(ec[k], codec).Ok?
    then Some(map k | k in ec :: ParseAgents(ec[k], codec).value)
    else None
  }

  function ParseRelConstraints(rc: map<string, Json>): Option<map<string, seq<Json>>>
  {
    if forall k :: k in rc ==> ParseRels(rc[k]).Ok?
    then Some(map k | k in rc :: ParseRels(rc[k]).value)
    else None
  }

  /** The query `PathProperty._from_json` builds, when it raises nothing. */
  function ParsePathQuery(fields: map<string, Json>, codec: Codec): Option<PathQuery>
  {
    var stmt := codec.stmtFromJson(Get(fields, "path"));
    var ec := Get(fields, "entity_constraints");
    var rc := Get(fields, "relationship_constraints");
    if stmt.Err? || !ec.JObj? || !rc.JObj? then None
    else
      var entities := ParseEntityConstraints(ec.fields, codec);
      var rels := ParseRelConstraints(rc.fields);
      if entities.None? || rels.None? then None
      else
        var q := NewPathQuery(stmt.value, entities, rels);
        if q.Ok? then Some(q.value) else None
  }

  /**
   * The error `PathProperty._from_json` raises, in the order it reads the
   * parts: the path statement's; `AttributeError` when the entity
   * constraints are not a dictionary; the error of a failing entity entry;
   * `AttributeError` when the relationship constraints are not a
   * dictionary; the error of a failing relationship entry. Which failing
   * entry of one dictionary comes first is left open.
   */
  predicate PathQueryError(fields: map<string, Json>, codec: Codec, e: Error)
  {
    var stmt := codec.stmtFromJson(Get(fields, "path"));
    var ec := Get(fields, "entity_constraints");
    var rc := Get(fields, "relationship_constraints");
    if stmt.Err? then e == stmt.error
    else if !ec.JObj? then e == AttributeError
    else if ParseEntityConstraints(ec.fields, codec).None? then
      exists k :: k in ec.fields && ParseAgents(ec.fields[k], codec) == Err(e)
    else if !rc.JObj? then e == AttributeError
    else exists k :: k in rc.fields && ParseRels(rc.fields[k]) == Err(e)
  }

  /**
   * `PathProperty._from_json(json_dict)`: the path statement, then each
   * entity-constraint entry, then each relationship-constraint entry, in
   * the dictionaries' order.
   */
  method PathPropertyFromJson(fields: map<string, Json>, codec: Codec) returns (r: Result<PathQuery>)
    ensures r.Ok? <==> ParsePathQuery(fields, codec).Some?
    ensures r.Ok? ==> r.value == ParsePathQuery(fields, codec).value
    ensures r.Err? ==> PathQueryError(fields, codec, r.error)
  {
    var pathStmt := codec.stmtFromJson(Get(fields, "path"));
    if pathStmt.Err? {
      return Err(pathStmt.error);
    }
    var entConstrJson := Get(fields, "entity_constraints");
    if !entConstrJson.JObj? {
      return Err(AttributeError);
    }
    var entityConstraints := EntityConstraintsFromJson(entConstrJson.fields, codec);
    if entityConstraints.Err? {
      return Err(entityConstraints.error);
    }
    var relConstrJson := Get(fields, "relationship_constraints");
    if !relConstrJson.JObj? {
      return Err(AttributeError);
    }
    var relationshipConstraints := RelConstraintsFromJson(relConstrJson.fields);
    if relationshipConstraints.Err? {
      return Err(relationshipConstraints.error);
    }
    r := NewPathQuery(pathStmt.value, Some(entityConstraints.value), Some(relationshipConstraints.value));
  }

  /** The loop over the entity-constraint entries, parsing each list of agents. */
  method EntityConstraintsFromJson(ec: map<string, Json>, codec: Codec) returns (r: Result<map<string, seq<Agent>>>)
    ensures r.Ok? <==> ParseEntityConstraints(ec, codec).Some?
    ensures r.Ok? ==> r.value == ParseEntityConstraints(ec, codec).value
    ensures r.Err? ==> exists k :: k in ec && ParseAgents(ec[k], codec) == Err(r.error)
  {
    var parsed: map<string, seq<Agent>> := map[];
    var keys := ec.Keys;
    while keys != {}
      invariant keys <= ec.Keys
      invariant parsed.Keys == ec.Keys - keys
      invariant forall k :: k in parsed ==> ParseAgents(ec[k], codec) == Ok(parsed[k])
      decreases keys
    {
      var key :| key in keys;
      var agents := ParseAgents(ec[key], codec);
      if agents.Err? {
        return Err(agents.error);
      }
      parsed := parsed[key := agents.value];
      keys := keys - {key};
    }
    assert parsed == ParseEntityConstraints(ec, codec).value;
    return Ok(parsed);
  }

  /** The loop over the relationship-constraint entries, reading the type of each. */
  method RelConstraintsFromJson(rc: map<string, Json>) returns (r: Result<map<string, seq<Json>>>)
    ensures r.Ok? <==> ParseRelConstraints(rc).Some?
    ensures r.Ok? ==> r.value == ParseRelConstraints(rc).value
    ensures r.Err? ==> exists k :: k in rc && ParseRels(rc[k]) == Err(r.error)
  {
    var parsed: map<string, seq<Json>> := map[];
    var keys := rc.Keys;
    while keys != {}
      invariant keys <= rc.Keys
      invariant parsed.Keys == rc.Keys - keys
      invariant forall k :: k in parsed ==> ParseRels(rc[k]) == Ok(parsed[k])
      decreases keys
    {
      var key :| key in keys;
      var rels := ParseRels(rc[key]);
      if rels.Err? {
        return Err(rels.error);
      }
      parsed := parsed[key := rels.value];
      keys := keys - {key};
    }
    assert parsed == ParseRelConstraints(rc).value;
    return Ok(parsed);
  }

  // ---------------------------------------------------------------------
  // Query._from_json
  // ---------------------------------------------------------------------

  /**
   * The query `Query._from_json` returns, when it returns one: only a path
   * property has its own `_from_json`; the other classes inherit
   * `Query._from_json`, which dispatches to the same class again without
   * end.
   */
  function ParseQuery(j: Json, codec: Codec): Option<PathQuery>
  {
    if !j.JObj? then None
    else
      var t := Get(j.fields, "type");
      if !t.JStr? || FirstNamed(QueryClasses, t.s) != Some(PathProperty) then None
      else ParsePathQuery(j.fields, codec)
  }

  /**
   * `Query._from_json(json_dict)`: `AttributeError` for a document that is
   * not a dictionary; the class named by its `type`, or the error of
   * looking it up; a path property parsed by its own `_from_json`; and
   * `RecursionError` for the other classes.
   */
  method QueryFromJson(j: Json, codec: Codec) returns (r: Result<PathQuery>)
    ensures r.Ok? <==> ParseQuery(j, codec).Some?
    ensures r.Ok? ==> r.value == ParseQuery(j, codec).value
    ensures !j.JObj? ==> r == Err(AttributeError)
    ensures j.JObj? && !Get(j.fields, "type").JStr? ==> r == Err(TypeError)
    ensures j.JObj? && Get(j.fields, "type").JStr? ==>
              var named := FirstNamed(QueryClasses, Get(j.fields, "type").s);
              && (named.None? ==> r == Err(NotAQueryType))
              && (named.Some? && named.value != PathProperty ==> r == Err(RecursionError))
              && (named == Some(PathProperty) && r.Err? ==> PathQueryError(j.fields, codec, r.error))
  {
    if !j.JObj? {
      return Err(AttributeError);
    }
    var queryType := Get(j.fields, "type");
    var queryCls := QueryClsFromType(queryType);
    if queryCls.Err? {
      return Err(queryCls.error);
    }
    if queryCls.value != PathProperty {
      return Err(RecursionError);
    }
    r := PathPropertyFromJson(j.fields, codec);
  }

  // ---------------------------------------------------------------------
  // Round trip
  // ---------------------------------------------------------------------

  /** Relation types written as `{'type': rel}` are read back by their `type`. */
  lemma RelsRoundTrip(rels: seq<Json>)
    ensures ParseRels(RelsJson(rels)) == Ok(rels)
  {
    var items := RelsJson(rels).items;
    var f := (item: Json) => Subscript(item, "type");
    forall i | 0 <= i < |items| ensures f(items[i]) == Ok(rels[i]) {
    }
    var parsed := MapAll(items, f);
    assert parsed.Ok?;
    assert parsed.value == rels;
  }

  lemma AgentsRoundTrip(agents: seq<Agent>, codec: Codec)
    requires Inverse(codec)
    ensures ParseAgents(AgentsJson(agents, codec), codec) == Ok(agents)
  {
    var items := AgentsJson(agents, codec).items;
    forall i | 0 <= i < |items| ensures codec.agentFromJson(items[i]) == Ok(agents[i]) {
    }
    var parsed := MapAll(items, codec.agentFromJson);
    assert parsed.Ok?;
    assert parsed.value == agents;
  }

  /**
   * A query with all four constraints, written to JSON and read back with
   * `Query._from_json`, is the same query, so writing it again gives the
   * same document.
   */
  lemma QueryRoundTrip(q: PathQuery, codec: Codec)
    requires Complete(q) && Inverse(codec)
    ensures QueryJson(q, codec).Ok?
    ensures ParseQuery(QueryJson(q, codec).value, codec) == Some(q)
    ensures QueryJson(ParseQuery(QueryJson(q, codec).value, codec).value, codec) == QueryJson(q, codec)
  {
    var j := QueryJson(q, codec).value;
    TypeNameDispatch(PathProperty);
    assert Get(j.fields, "type") == JStr(TypeName(PathProperty));
    PathQueryRoundTrip(q, codec);
  }

  /** `PathProperty._from_json` reads back the fields `to_json` wrote. */
  lemma PathQueryRoundTrip(q: PathQuery, codec: Codec)
    requires Complete(q) && Inverse(codec)
    ensures QueryJson(q, codec).Ok?
    ensures ParsePathQuery(QueryJson(q, codec).value.fields, codec) == Some(q)
  {
    var fields := QueryJson(q, codec).value.fields;
    var inc, exc := q.includeEntities.value, q.excludeEntities.value;
    var incR, excR := q.includeRels.value, q.excludeRels.value;
    var ec := map["include" := AgentsJson(inc, codec), "exclude" := AgentsJson(exc, codec)];
    var rc := map["include" := RelsJson(incR), "exclude" := RelsJson(excR)];
    assert Get(fields, "path") == codec.stmtToJson(q.pathStmt);
    assert codec.stmtFromJson(Get(fields, "path")) == Ok(q.pathStmt);
    assert Get(fields, "entity_constraints") == JObj(ec);
    assert Get(fields, "relationship_constraints") == JObj(rc);
    EntityConstraintsRoundTrip(inc, exc, codec);
    RelConstraintsRoundTrip(incR, excR);
    var em := map["include" := inc, "exclude" := exc];
    var rm := map["include" := incR, "exclude" := excR];
    assert Lookup(em, "include") == Some(inc) && Lookup(em, "exclude") == Some(exc);
    assert Lookup(rm, "include") == Some(incR) && Lookup(rm, "exclude") == Some(excR);
    assert NewPathQuery(q.pathStmt, Some(em), Some(rm)) == Ok(q);
  }

  lemma EntityConstraintsRoundTrip(inc: seq<Agent>, exc: seq<Agent>, codec: Codec)
    requires Inverse(codec)
    ensures ParseEntityConstraints(map["include" := AgentsJson(inc, codec), "exclude" := AgentsJson(exc, codec)], codec)
            == Some(map["include" := inc, "exclude" := exc])
  {
    var ec := map["include" := AgentsJson(inc, codec), "exclude" := AgentsJson(exc, codec)];
    AgentsRoundTrip(inc, codec);
    AgentsRoundTrip(exc, codec);
    assert ParseAgents(ec["include"], codec) == Ok(inc);
    assert ParseAgents(ec["exclude"], codec) == Ok(exc);
    assert forall k :: k in ec ==> ParseAgents(ec[k], codec).Ok?;
    var parsed := map k | k in ec :: ParseAgents(ec[k], codec).value;
    assert parsed == map["include" := inc, "exclude" := exc];
  }

  lemma RelConstraintsRoundTrip(inc: seq<Json>, exc: seq<Json>)
    ensures ParseRelConstraints(map["include" := RelsJson(inc), "exclude" := RelsJson(exc)])
            == Some(map["include" := inc, "exclude" := exc])
  {
    RelsRoundTrip(inc);
    RelsRoundTrip(exc);
    ParseTwoRelConstraints(map["include" := RelsJson(inc), "exclude" := RelsJson(exc)], inc, exc);
  }

  /** A dictionary of exactly the two constraint lists parses entry by entry. */
  lemma ParseTwoRelConstraints(rc: map<string, Json>, inc: seq<Json>, exc: seq<Json>)
    requires rc.Keys == {"include", "exclude"}
    requires ParseRels(rc["include"]) == Ok(inc) && ParseRels(rc["exclude"]) == Ok(exc)
    ensures ParseRelConstraints(rc) == Some(map["include" := inc, "exclude" := exc])
  {
    var parsed := map k | k in rc :: ParseRels(rc[k]).value;
    assert parsed == map["include" := inc, "exclude" := exc];
  }

  /**
   * A constraint dictionary without `include` leaves that constraint `None`,
   * and such a query cannot be written to JSON.
   */
  lemma MissingConstraintNotWritable(pathStmt: Statement, exc: seq<Agent>, rels: map<string, seq<Json>>, codec: Codec)
    ensures NewPathQuery(pathStmt, Some(map["exclude" := exc]), Some(rels)).Ok?
    ensures NewPathQuery(pathStmt, Some(map["exclude" := exc]), Some(rels)).value.includeEntities.None?
    ensures QueryJson(NewPathQuery(pathStmt, Some(map["exclude" := exc]), Some(rels)).value, codec) == Err(TypeError)
  {
  }
}
