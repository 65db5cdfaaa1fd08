/**
 * The `emmaa-update-pipeline` Lambda handler: for every model folder on S3
 * it reads the model's configuration and starts that model's daily update,
 * or its daily tests, or nothing. The folder listing is a parameter, and
 * `configOf(key)` is the decoded JSON stored under `key`.
 */
module UpdatePipeline {
  import opened Wrappers
  import opened Strings
  import opened JsonValues

  /** A synchronous `lam.invoke` of a function with a JSON payload. */
  datatype Invocation = Invocation(functionName: string, payload: Json)

  /** `{'statusCode': 200, 'result': 'SUCCESS'}`. */
  datatype Response = Response(statusCode: int, result: string)

  /** `f'{prefix}config.json'`. */
  function ConfigKey(prefix: string): string
  {
    prefix + "config.json"
  }

  /** `prefix[7:-1]`: the prefix without `models/` and its trailing `/`. */
  function ModelNameOf(prefix: string): string
  {
    Slice(prefix, 7, -1)
  }

  /** The key the model-manager update is told about when a model is only tested. */
  function SyntheticModelKey(modelName: string): string
  {
    "models/" + modelName + "/model_2020-01-01-00-00-00.pkl"
  }

  /** The S3 event that names the synthetic model key. */
  function TestsPayload(modelName: string): Json
  {
    JObj(map["Records" := JArr([JObj(map["s3" := JObj(map["object" := JObj(map["key" := JStr(SyntheticModelKey(modelName))])])])])])
  }

  /**
   * What is invoked for one model folder: the model update when
   * `run_daily_update` is truthy, otherwise the model-manager update when
   * `run_daily_tests` is truthy, otherwise nothing. A configuration that is
   * not a dictionary has no `get` (`AttributeError`).
   */
  function InvocationFor(prefix: string, config: Json): Result<Option<Invocation>>
  {
    if !config.JObj? then Err(AttributeError)
    else
      var modelName := ModelNameOf(prefix);
      if Truthy(Get(config.fields, "run_daily_update")) then
        Ok(Some(Invocation("emmaa-model-update", JObj(map["model" := JStr(modelName)]))))
      else if Truthy(Get(config.fields, "run_daily_tests")) then
        Ok(Some(Invocation("emmaa-mm-update", TestsPayload(modelName))))
      else Ok(None)
  }

  /** The invocations made over the folders in order, and whether the loop raised (which stops it). */
  function Dispatch(prefixes: seq<string>, configOf: string -> Json): (seq<Invocation>, Result<()>)
  {
    if |prefixes| == 0 then ([], Ok(()))
    else
      var before := Dispatch(prefixes[..|prefixes| - 1], configOf);
      var prefix := prefixes[|prefixes| - 1];
      var inv := InvocationFor(prefix, configOf(ConfigKey(prefix)));
      if before.1.Err? then before
      else if inv.Err? then (before.0, Err(inv.error))
      else if inv.value.Some? then (before.0 + [inv.value.value], Ok(()))
      else before
  }

  /**
   * `lambda_handler(event, context)`: the invocations in folder order; the
   * response, when the loop does not raise, is always success.
   */
  method LambdaHandler(prefixes: seq<string>, configOf: string -> Json) returns (r: Result<Response>, invoked: seq<Invocation>)
    ensures invoked == Dispatch(prefixes, configOf).0
    ensures r.Err? <==> Dispatch(prefixes, configOf).1.Err?
    ensures r.Err? ==> r.error == Dispatch(prefixes, configOf).1.error
    ensures r.Ok? ==> r.value == Response(200, "SUCCESS")
  {
    invoked := [];
    for i := 0 to |prefixes|
      invariant (invoked, Ok(())) == Dispatch(prefixes[..i], configOf)
    {
      assert prefixes[..i + 1][..i] == prefixes[..i];
      var prefix := prefixes[i];
      var configKey := prefix + "config.json";
      var config := configOf(configKey);
      if !config.JObj? {
        DispatchStops(prefixes, configOf, i);
        return Err(AttributeError), invoked;
      }
      var modelName := Slice(prefix, 7, -1);
      if Truthy(Get(config.fields, "run_daily_update")) {
        var payload := JObj(map["model" := JStr(modelName)]);
        invoked := invoked + [Invocation("emmaa-model-update", payload)];
      } else if Truthy(Get(config.fields, "run_daily_tests")) {
        var payload := TestsPayload(modelName);
        invoked := invoked + [Invocation("emmaa-mm-update", payload)];
      } else {
        continue;
      }
    }
    assert prefixes[..|prefixes|] == prefixes;
    return Ok(Response(200, "SUCCESS")), invoked;
  }

  /** A folder whose configuration raises ends the loop with the invocations made before it. */
  lemma {:induction false} DispatchStops(prefixes: seq<string>, configOf: string -> Json, i: nat)
    requires i < |prefixes| && Dispatch(prefixes[..i], configOf).1.Ok?
    requires InvocationFor(prefixes[i], configOf(ConfigKey(prefixes[i]))).Err?
    ensures Dispatch(prefixes, configOf)
            == (Dispatch(prefixes[..i], configOf).0, Err(InvocationFor(prefixes[i], configOf(ConfigKey(prefixes[i]))).error))
  {
    var init := prefixes[..|prefixes| - 1];
    if i < |prefixes| - 1 {
      assert init[..i] == prefixes[..i];
      DispatchStops(init, configOf, i);
    } else {
      assert init == prefixes[..i];
    }
  }

  /**
   * When no configuration raises, the invocations are exactly those the
   * folders ask for, in folder order: the loop `Collect`s them.
   */
  lemma {:induction false} DispatchCollects(prefixes: seq<string>, configOf: string -> Json)
    ensures Dispatch(prefixes, configOf).1.Ok? <==> Collect(prefixes, (p: string) => InvocationFor(p, configOf(ConfigKey(p)))).Ok?
    ensures Dispatch(prefixes, configOf).1.Ok? ==>
              Dispatch(prefixes, configOf).0 == Collect(prefixes, (p: string) => InvocationFor(p, configOf(ConfigKey(p)))).value
  {
    if |prefixes| > 0 {
      DispatchCollects(prefixes[..|prefixes| - 1], configOf);
    }
  }

  /** A model folder `models/<name>/` gives the model's name and its configuration key. */
  lemma ModelFolder(name: string)
    ensures ModelNameOf("models/" + name + "/") == name
    ensures ConfigKey("models/" + name + "/") == "models/" + name + "/config.json"
  {
    var prefix := "models/" + name + "/";
    assert |prefix| == |name| + 8;
    assert prefix[7..|name| + 7] == name;
  }

  /**
   * A daily update takes precedence over daily tests; a model with only
   * daily tests gets the model-manager update; a model with neither is
   * skipped.
   */
  lemma InvocationChoice(prefix: string, fields: map<string, Json>)
    ensures Truthy(Get(fields, "run_daily_update")) ==>
              InvocationFor(prefix, JObj(fields)) == Ok(Some(Invocation("emmaa-model-update", JObj(map["model" := JStr(ModelNameOf(prefix))]))))
    ensures !Truthy(Get(fields, "run_daily_update")) && Truthy(Get(fields, "run_daily_tests")) ==>
              InvocationFor(prefix, JObj(fields)) == Ok(Some(Invocation("emmaa-mm-update", TestsPayload(ModelNameOf(prefix)))))
    ensures !Truthy(Get(fields, "run_daily_update")) && !Truthy(Get(fields, "run_daily_tests")) ==>
              InvocationFor(prefix, JObj(fields)) == Ok(None)
    ensures "run_daily_update" !in fields && "run_daily_tests" !in fields ==> InvocationFor(prefix, JObj(fields)) == Ok(None)
  {
  }

  /**
   * The synthetic key names the model in its second `/`-separated segment,
   * where the model-manager update reads the model's name.
   */
  lemma SyntheticKeyNamesModel(modelName: string)
    requires '/' !in modelName
    ensures Split(SyntheticModelKey(modelName), '/') == ["models", modelName, "model_2020-01-01-00-00-00.pkl"]
  {
    var file := "model_2020-01-01-00-00-00.pkl";
    var parts := ["models", modelName, file];
    assert parts[1..] == [modelName, file];
    JoinPair(modelName, file, '/');
    assert "models/" == "models" + ['/'];
    assert "/" + file == ['/'] + file;
    assert SyntheticModelKey(modelName) == "models" + ['/'] + (modelName + ['/'] + file);
    assert '/' !in "models";
    assert '/' !in file;
    JoinSplit(parts, '/');
  }
}
