/**
 * The `emmaa-test-stats` Lambda handler: for each uploaded test-results
 * file it submits a batch job that computes the model's test statistics.
 * The batch client and the clock are parameters: `submit` returns the id of
 * a submitted job and `clock(i)` is the `%Y%m%d_%H%M%S` time read while
 * handling the `i`-th record.
 */
module TestStats {
  import opened Wrappers
  import opened Strings
  import opened JsonValues

  const JobDef := "emmaa_jobdef"
  const Queue := "emmaa-models-update-test"
  const Project := "aske"
  const Purpose := "update-emmaa-test-stats"
  const Branch: Option<string> := Some("origin/master")
  const DefaultCorpus := "large_corpus_tests"
  const GitScript := "bash scripts/git_and_run.sh"

  /** A `submit_job` request: job name, queue, job definition and the container's command. */
  datatype JobRequest = JobRequest(jobName: string, jobQueue: string, jobDefinition: string, command: seq<string>)

  /** `{'statusCode': 200, 'result': 'SUCCESS', 'job_id': job_id}`. */
  datatype Response = Response(statusCode: int, result: string, jobId: string)

  /** `rec['s3']['object']['key']`. */
  function RecordKey(rec: Json): Result<Json>
  {
    var s3 := Subscript(rec, "s3");
    if s3.Err? then Err(s3.error)
    else
      var obj := Subscript(s3.value, "object");
      if obj.Err? then Err(obj.error) else Subscript(obj.value, "key")
  }

  /** `model_key.split('/')[1]`: `IndexError` for a key without `/`. */
  function ModelName(key: string): Result<string>
  {
    var parts := Split(key, '/');
    if |parts| < 2 then Err(IndexError) else Ok(parts[1])
  }

  /**
   * `model_key.split('/')[-1][8:-25]`: the base name without `results_` and
   * without `_` + a 19-character stamp + `.json`; `large_corpus_tests` when
   * that leaves nothing.
   */
  function TestCorpus(key: string): string
  {
    var parts := Split(key, '/');
    var corpus := Slice(parts[|parts| - 1], 8, -25);
    if corpus == "" then DefaultCorpus else corpus
  }

  /** The statistics script's part of the command. */
  function StatsScript(modelName: string, testCorpus: string): string
  {
    " python scripts/run_model_stats_from_s3.py --model " + modelName + " --stats_mode tests --tests " + testCorpus
  }

  /** The git script, the branch option when there is a branch, then the statistics script. */
  function CoreCommand(modelName: string, testCorpus: string, branch: Option<string>): string
  {
    GitScript + (if branch.Some? then " --branch " + branch.value else "") + StatsScript(modelName, testCorpus)
  }

  /** `core_command` built with `+=`. */
  method BuildCommand(modelName: string, testCorpus: string) returns (coreCommand: string)
    ensures coreCommand == CoreCommand(modelName, testCorpus, Branch)
  {
    coreCommand := "bash scripts/git_and_run.sh";
    if Branch.Some? {
      coreCommand := coreCommand + " --branch " + Branch.value;
    }
    coreCommand := coreCommand + (" python scripts/run_model_stats_from_s3.py"
                                  + " --model " + modelName + " --stats_mode tests"
                                  + " --tests " + testCorpus);
  }

  /** The job submitted for one key at time `nowStr`. */
  function JobFor(key: string, nowStr: string): Result<JobRequest>
  {
    var modelName := ModelName(key);
    if modelName.Err? then Err(modelName.error)
    else
      var testCorpus := TestCorpus(key);
      var command := ["python", "-m", "indra.util.aws", "run_in_batch", "--project", Project, "--purpose", Purpose,
                      CoreCommand(modelName.value, testCorpus, Branch)];
      Ok(JobRequest(modelName.value + "_" + testCorpus + "_stats_" + nowStr, Queue, JobDef, command))
  }

  /** The loop's variables: `model_key` (unbound as `None`), the jobs submitted and `job_id`. */
  datatype LoopState = LoopState(modelKey: Option<Json>, jobs: seq<JobRequest>, jobId: Option<string>)

  /**
   * One iteration: a missing key (`KeyError`) is passed over and the
   * previous `model_key` is used again; unbound, it raises
   * `UnboundLocalError`, a `NameError`. A key that is not a string has no
   * `split`.
   */
  function Step(st: LoopState, rec: Json, nowStr: string, submit: JobRequest -> string): Result<LoopState>
  {
    var k := RecordKey(rec);
    if k.Err? && k.error != KeyError then Err(k.error)
    else
      var modelKey := if k.Ok? then Some(k.value) else st.modelKey;
      if modelKey.None? then Err(NameError)
      else if !modelKey.value.JStr? then Err(AttributeError)
      else
        var job := JobFor(modelKey.value.s, nowStr);
        if job.Err? then Err(job.error)
        else Ok(LoopState(modelKey, st.jobs + [job.value], Some(submit(job.value))))
  }

  /** The loop over the records: its state, and whether an iteration raised (which stops it). */
  function RunRecords(records: seq<Json>, clock: nat -> string, submit: JobRequest -> string): (LoopState, Result<()>)
  {
    if |records| == 0 then (LoopState(None, [], None), Ok(()))
    else
      var before := RunRecords(records[..|records| - 1], clock, submit);
      if before.1.Err? then before
      else
        var next := Step(before.0, records[|records| - 1], clock(|records| - 1), submit);
        if next.Err? then (before.0, Err(next.error)) else (next.value, Ok(()))
  }

  /** An iteration that does not raise moves the loop on to the state it returns. */
  lemma RunRecordsContinues(records: seq<Json>, clock: nat -> string, submit: JobRequest -> string, i: nat)
    requires i < |records| && RunRecords(records[..i], clock, submit).1.Ok?
    requires Step(RunRecords(records[..i], clock, submit).0, records[i], clock(i), submit).Ok?
    ensures RunRecords(records[..i + 1], clock, submit)
            == (Step(RunRecords(records[..i], clock, submit).0, records[i], clock(i), submit).value, Ok(()))
  {
    assert records[..i + 1][..i] == records[..i];
  }

  /** An iteration that raises ends the loop with the state before it. */
  lemma {:induction false} RunRecordsStops(records: seq<Json>, clock: nat -> string, submit: JobRequest -> string, i: nat)
    requires i < |records| && RunRecords(records[..i], clock, submit).1.Ok?
    requires Step(RunRecords(records[..i], clock, submit).0, records[i], clock(i), submit).Err?
    ensures RunRecords(records, clock, submit)
            == (RunRecords(records[..i], clock, submit).0,
                Err(Step(RunRecords(records[..i], clock, submit).0, records[i], clock(i), submit).error))
  {
    var init := records[..|records| - 1];
    if i < |records| - 1 {
      assert init[..i] == records[..i];
      RunRecordsStops(init, clock, submit, i);
    } else {
      assert init == records[..i];
    }
  }

  /**
   * `lambda_handler(event, context)`: its response or error, and the jobs
   * submitted before it returned or raised. With no record `job_id` is
   * never bound and the return raises `NameError`.
   */
  function Handle(event: Json, clock: nat -> string, submit: JobRequest -> string): (Result<Response>, seq<JobRequest>)
  {
    var records := Subscript(event, "Records");
    if records.Err? then (Err(records.error), [])
    else if !records.value.JArr? then (Err(TypeError), [])
    else
      var run := RunRecords(records.value.items, clock, submit);
      if run.1.Err? then (Err(run.1.error), run.0.jobs)
      else if run.0.jobId.None? then (Err(NameError), run.0.jobs)
      else (Ok(Response(200, "SUCCESS", run.0.jobId.value)), run.0.jobs)
  }

  /** The handler's loop. */
  method LambdaHandler(event: Json, clock: nat -> string, submit: JobRequest -> string)
    returns (r: Result<Response>, submitted: seq<JobRequest>)
    ensures (r, submitted) == Handle(event, clock, submit)
  {
    var records := Subscript(event, "Records");
    if records.Err? {
      return Err(records.error), [];
    }
    if !records.value.JArr? {
      return Err(TypeError), [];
    }
    var items := records.value.items;
    var modelKey: Option<Json> := None;
    var jobId: Option<string> := None;
    submitted := [];
    for i := 0 to |items|
      invariant (LoopState(modelKey, submitted, jobId), Ok(())) == RunRecords(items[..i], clock, submit)
    {
      var next := HandleRecord(LoopState(modelKey, submitted, jobId), items[i], clock(i), submit);
      if next.Err? {
        RunRecordsStops(items, clock, submit, i);
        return Err(next.error), submitted;
      }
      RunRecordsContinues(items, clock, submit, i);
      modelKey, submitted, jobId := next.value.modelKey, next.value.jobs, next.value.jobId;
    }
    assert items[..|items|] == items;
    if jobId.None? {
      return Err(NameError), submitted;
    }
    return Ok(Response(200, "SUCCESS", jobId.value)), submitted;
  }

  /** One iteration of the handler's loop: find the key, build the job and submit it. */
  method HandleRecord(st: LoopState, rec: Json, nowStr: string, submit: JobRequest -> string) returns (r: Result<LoopState>)
    ensures r == Step(st, rec, nowStr, submit)
  {
    var k := RecordKey(rec);
    if k.Err? && k.error != KeyError {
      return Err(k.error);
    }
    var modelKey := if k.Ok? then Some(k.value) else st.modelKey;
    if modelKey.None? {
      return Err(NameError);
    }
    if !modelKey.value.JStr? {
      return Err(AttributeError);
    }
    var job := BuildJob(modelKey.value.s, nowStr);
    if job.Err? {
      return Err(job.error);
    }
    return Ok(LoopState(modelKey, st.jobs + [job.value], Some(submit(job.value))));
  }

  /** The job one model key yields: the model name and the test corpus from the key, the time from the clock. */
  method BuildJob(key: string, nowStr: string) returns (r: Result<JobRequest>)
    ensures r == JobFor(key, nowStr)
  {
    var parts := Split(key, '/');
    if |parts| < 2 {
      return Err(IndexError);
    }
    var modelName := parts[1];
    var testCorpus := Slice(parts[|parts| - 1], 8, -25);
    if testCorpus == "" {
      testCorpus := DefaultCorpus;
    }
    var coreCommand := BuildCommand(modelName, testCorpus);
    var command := ["python", "-m", "indra.util.aws", "run_in_batch", "--project", Project, "--purpose", Purpose, coreCommand];
    return Ok(JobRequest(modelName + "_" + testCorpus + "_stats_" + nowStr, Queue, JobDef, command));
  }

  // ---------------------------------------------------------------------
  // Properties
  // ---------------------------------------------------------------------

  /** The key under which a model's test results are saved. */
  function ResultKey(model: string, corpus: string, stamp: string): string
  {
    "results/" + model + "/results_" + corpus + "_" + stamp + ".json"
  }

  lemma ResultKeySplit(model: string, base: string)
    requires '/' !in model && '/' !in base
    ensures Split("results/" + model + "/" + base, '/') == ["results", model, base]
  {
    assert "results/" + model + "/" + base == Join(["results", model, base], '/') by {
      assert ["results", model, base][1..] == [model, base];
      JoinPair(model, base, '/');
    }
    assert '/' !in "results";
    JoinSplit(["results", model, base], '/');
  }

  /**
   * A results key with a test corpus gives back the model's name and the
   * corpus.
   */
  lemma ResultKeyParsed(model: string, corpus: string, stamp: string)
    requires '/' !in model && '/' !in corpus && '/' !in stamp && |stamp| == 19 && corpus != ""
    ensures ModelName(ResultKey(model, corpus, stamp)) == Ok(model)
    ensures TestCorpus(ResultKey(model, corpus, stamp)) == corpus
  {
    var base := "results_" + corpus + "_" + stamp + ".json";
    assert '/' !in base;
    assert ResultKey(model, corpus, stamp) == "results/" + model + "/" + base;
    ResultKeySplit(model, base);
    assert |base| == |corpus| + 33;
    assert base[8..|corpus| + 8] == corpus;
  }

  /**
   * An old-style key `results_<stamp>.json` has no corpus: the slice is
   * empty and the corpus defaults to `large_corpus_tests`.
   */
  lemma OldStyleKeyDefaults(model: string, stamp: string)
    requires '/' !in model && '/' !in stamp && |stamp| == 19
    ensures ModelName("results/" + model + "/results_" + stamp + ".json") == Ok(model)
    ensures TestCorpus("results/" + model + "/results_" + stamp + ".json") == DefaultCorpus
  {
    var base := "results_" + stamp + ".json";
    assert '/' !in base;
    assert "results/" + model + "/results_" + stamp + ".json" == "results/" + model + "/" + base;
    ResultKeySplit(model, base);
    assert |base| == 32;
  }

  /**
   * The job for a results key is named `{model}_{corpus}_stats_{now}` and
   * runs the git script on the branch, then the statistics script for that
   * model and corpus.
   */
  lemma ResultKeyJob(model: string, corpus: string, stamp: string, nowStr: string)
    requires '/' !in model && '/' !in corpus && '/' !in stamp && |stamp| == 19 && corpus != ""
    ensures JobFor(ResultKey(model, corpus, stamp), nowStr).Ok?
    ensures JobFor(ResultKey(model, corpus, stamp), nowStr).value.jobName == model + "_" + corpus + "_stats_" + nowStr
    ensures JobFor(ResultKey(model, corpus, stamp), nowStr).value.command[8]
            == GitScript + " --branch origin/master" + StatsScript(model, corpus)
  {
    ResultKeyParsed(model, corpus, stamp);
  }

  /** With no branch the command is the git script followed directly by the statistics script. */
  lemma NoBranchCommand(modelName: string, testCorpus: string, branch: string)
    ensures CoreCommand(modelName, testCorpus, None) == GitScript + StatsScript(modelName, testCorpus)
    ensures CoreCommand(modelName, testCorpus, Some(branch))
            == GitScript + " --branch " + branch + CoreCommand(modelName, testCorpus, None)[|GitScript|..]
  {
    var tail := StatsScript(modelName, testCorpus);
    assert CoreCommand(modelName, testCorpus, None) == GitScript + tail;
    assert (GitScript + tail)[|GitScript|..] == tail;
  }

  /** With no record, `job_id` is unbound and the handler raises `NameError` without submitting anything. */
  lemma NoRecordsUnbound(clock: nat -> string, submit: JobRequest -> string)
    ensures Handle(JObj(map["Records" := JArr([])]), clock, submit) == (Err(NameError), [])
  {
  }

  /**
   * When every record carries a string key, the handler either raises or
   * submits one job per record, the `i`-th built from the `i`-th key at the
   * `i`-th time, and returns the id of the last.
   */
  lemma {:induction false} JobsFollowRecords(records: seq<Json>, clock: nat -> string, submit: JobRequest -> string)
    requires forall i :: 0 <= i < |records| ==> RecordKey(records[i]).Ok? && RecordKey(records[i]).value.JStr?
    requires RunRecords(records, clock, submit).1.Ok?
    ensures |RunRecords(records, clock, submit).0.jobs| == |records|
    ensures forall i :: 0 <= i < |records| ==>
              JobFor(RecordKey(records[i]).value.s, clock(i)) == Ok(RunRecords(records, clock, submit).0.jobs[i])
    ensures |records| > 0 ==>
              RunRecords(records, clock, submit).0.jobId == Some(submit(RunRecords(records, clock, submit).0.jobs[|records| - 1]))
  {
    if |records| > 0 {
      var n := |records| - 1;
      var init := records[..n];
      var after := RunRecords(records, clock, submit).0;
      RunRecordsLast(records, clock, submit);
      var before := RunRecords(init, clock, submit).0;
      forall i | 0 <= i < |init| ensures RecordKey(init[i]).Ok? && RecordKey(init[i]).value.JStr? {
        assert init[i] == records[i];
      }
      JobsFollowRecords(init, clock, submit);
      StepWithKey(before, records[n], clock(n), submit);
      forall i | 0 <= i < |records| ensures JobFor(RecordKey(records[i]).value.s, clock(i)) == Ok(after.jobs[i]) {
        if i < n {
          assert init[i] == records[i];
        }
      }
    }
  }

  /** A loop that ran to the end ran to the end on all records but the last, and then took a step on the last. */
  lemma RunRecordsLast(records: seq<Json>, clock: nat -> string, submit: JobRequest -> string)
    requires |records| > 0 && RunRecords(records, clock, submit).1.Ok?
    ensures RunRecords(records[..|records| - 1], clock, submit).1.Ok?
    ensures Step(RunRecords(records[..|records| - 1], clock, submit).0, records[|records| - 1], clock(|records| - 1), submit)
            == Ok(RunRecords(records, clock, submit).0)
  {
  }

  /** A step on a record with a string key appends that key's job and submits it. */
  lemma StepWithKey(st: LoopState, rec: Json, nowStr: string, submit: JobRequest -> string)
    requires RecordKey(rec).Ok? && RecordKey(rec).value.JStr?
    requires Step(st, rec, nowStr, submit).Ok?
    ensures JobFor(RecordKey(rec).value.s, nowStr).Ok?
    ensures Step(st, rec, nowStr, submit).value.jobs == st.jobs + [JobFor(RecordKey(rec).value.s, nowStr).value]
    ensures Step(st, rec, nowStr, submit).value.jobId == Some(submit(JobFor(RecordKey(rec).value.s, nowStr).value))
  {
  }

  /**
   * A record without a key reuses the key of the record before it: two
   * jobs are submitted for the same key, and a first record without one
   * raises `NameError`.
   */
  lemma MissingKeyReusesPrevious(rec: Json, clock: nat -> string, submit: JobRequest -> string)
    requires RecordKey(rec).Ok? && RecordKey(rec).value.JStr? && JobFor(RecordKey(rec).value.s, clock(0)).Ok?
    ensures RunRecords([rec, JObj(map[])], clock, submit).1.Ok?
    ensures RunRecords([rec, JObj(map[])], clock, submit).0.jobs
            == [JobFor(RecordKey(rec).value.s, clock(0)).value, JobFor(RecordKey(rec).value.s, clock(1)).value]
    ensures RunRecords([JObj(map[]), rec], clock, submit) == (LoopState(None, [], None), Err(NameError))
  {
    var key := RecordKey(rec).value.s;
    var job0 := JobFor(key, clock(0)).value;
    var job1 := JobFor(key, clock(1)).value;
    assert ModelName(key).Ok?;
    assert [rec, JObj(map[])][..1] == [rec];
    assert [rec][..0] == [];
    assert RecordKey(rec).value == JStr(key);
    var empty: seq<JobRequest> := [];
    assert empty + [job0] == [job0];
    assert JobFor(key, clock(0)) == Ok(job0);
    assert Step(LoopState(None, [], None), rec, clock(0), submit) == Ok(LoopState(Some(JStr(key)), [job0], Some(submit(job0))));
    assert RunRecords([rec], clock, submit) == (LoopState(Some(JStr(key)), [job0], Some(submit(job0))), Ok(()));
    assert RecordKey(JObj(map[])) == Err(KeyError);
    assert [JObj(map[]), rec][..1] == [JObj(map[])];
    assert [rec][..0] == [];
    assert [JObj(map[])][..0] == [];
    assert JobFor(key, clock(1)).Ok?;
  }
}
