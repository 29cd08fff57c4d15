/** What the state machine does with an execution input: the map state hands
    every record to the task chain; each task evaluates its payload template
    against the state, invokes its handler and stores the handler's result at
    its result path. */
module Pipeline {
  import opened Wrappers
  import opened Json
  import opened StepFunctions
  import opened Handlers
  import Base64

  /** The outcomes of the cloud calls one item's handlers make. */
  datatype Oracles = Oracles(
    env: Env,
    resizeFetch: Option<Error>, resizeUpload: Option<Error>,
    imageBytes: Result<seq<Base64.Byte>>, modelResponse: Result<Option<Json>>,
    freshId: string, metadataLoad: Option<Error>,
    embeddingsFetch: Option<Error>, documentFetch: Option<Error>)

  /** Where one item's run ended. */
  datatype Outcome = Completed(state: Json) | FailedAt(stateName: string, error: Error)

  /** One payload value; a path that selects nothing is a runtime error of
      the orchestrator, and a non-string value cannot be read into the
      handler's string dictionary. */
  function EvalSource(state: Json, src: Source): (r: Result<string>)
    ensures src.Literal? ==> r == Success(src.value)
    ensures src.FromPath? ==> (r.Success? <==> Resolve(state, src.path).Some? && Resolve(state, src.path).value.JString?)
    ensures src.FromPath? && r.Success? ==> Resolve(state, src.path) == Some(JString(r.value))
    ensures src.FromPath? && Resolve(state, src.path).None? ==> r.Failure? && r.error.StatesRuntime?
  {
    match src
    case Literal(v) => Success(v)
    case FromPath(p) =>
      match Resolve(state, p)
      case None => Failure(StatesRuntime("the JsonPath selects nothing in the input"))
      case Some(JString(s)) => Success(s)
      case Some(_) => Failure(Thrown("the value is not a string"))
  }

  /** The payload a template produces from the state, in template order. */
  function EvalPayload(state: Json, payload: seq<(string, Source)>): (r: Result<Entries>)
    ensures r.Success? <==> forall i :: 0 <= i < |payload| ==> EvalSource(state, payload[i].1).Success?
    ensures r.Success? ==> (|r.value| == |payload|
      && forall i :: 0 <= i < |payload| ==> r.value[i] == (payload[i].0, EvalSource(state, payload[i].1).value))
  {
    if |payload| == 0 then Success([])
    else
      var v :- EvalSource(state, payload[0].1);
      var rest :- EvalPayload(state, payload[1..]);
      assert forall i :: 1 <= i < |payload| ==> payload[i] == payload[1..][i - 1];
      Success([(payload[0].0, v)] + rest)
  }

  /** The handler's string dictionary; a repeated name keeps its last value. */
  function InputOf(entries: Entries): (r: Input)
    ensures forall n :: n in r <==> exists i :: 0 <= i < |entries| && entries[i].0 == n
  {
    if |entries| == 0 then map[]
    else
      var init := entries[..|entries| - 1];
      var r := InputOf(init)[entries[|entries| - 1].0 := entries[|entries| - 1].1];
      assert forall i :: 0 <= i < |init| ==> init[i] == entries[i];
      r
  }

  /** A name's value in the dictionary is that of its last entry. */
  lemma {:induction false} InputOfValue(entries: Entries, i: nat)
    requires i < |entries|
    requires forall k :: i < k < |entries| ==> entries[k].0 != entries[i].0
    ensures entries[i].0 in InputOf(entries) && InputOf(entries)[entries[i].0] == entries[i].1
  {
    if i < |entries| - 1 {
      InputOfValue(entries[..|entries| - 1], i);
    }
  }

  /** The `S3Record` the resizer's input deserialises to; the chain always
      supplies both members. */
  function RecordOf(input: Input): Option<S3Record> {
    if "bucket" in input && "key" in input then Some(S3Record(input["bucket"], input["key"])) else None
  }

  /** The handler a task invokes, with its call outcomes. */
  function Invoke(fn: Lambda, input: Input, o: Oracles): Result<Entries> {
    var context := Some(LambdaContext);
    match fn
    case ImageResizerFn => ImageResizer(RecordOf(input), context, o.env, o.resizeFetch, o.resizeUpload).result
    case BedrockInferenceFn => BedrockInference(input, context, o.env, o.imageBytes, o.modelResponse).result
    case AddImageMetadataFn => AddImageMetadata(input, context, o.freshId, o.metadataLoad).result
    case GetImageEmbeddingsFn => GetImageEmbeddings(input, context, o.env, o.embeddingsFetch).result
    case AddDocumentFn => AddToVectorDb(input, context, o.env, o.documentFetch).result
  }

  /** The task's result: with `PayloadResponseOnly` the handler's dictionary
      itself, otherwise wrapped as the invocation's `Payload`. */
  function TaskResult(task: Task, output: Entries): Json {
    if task.payloadResponseOnly then ObjectOf(output) else JObject([("Payload", ObjectOf(output))])
  }

  /** Storing a result: `$` replaces the state; `$.name` sets that member of
      an object state and keeps every other member. */
  function ApplyResult(state: Json, rp: ResultPath, result: Json): (r: Result<Json>)
    ensures rp.Whole? ==> r == Success(result)
    ensures rp.AtField? && state.JObject? ==>
      r.Success? && r.value.JObject? && Get(r.value, rp.name) == Some(result)
      && forall n :: n != rp.name ==> Get(r.value, n) == Get(state, n)
  {
    match rp
    case Whole => Success(result)
    case AtField(name) =>
      if state.JObject? then Success(JObject(SetField(state.fields, name, result)))
      else Failure(StatesRuntime("the result path cannot be applied to the input"))
  }

  /** One task on one state. */
  function Step(task: Task, state: Json, o: Oracles): Result<Json> {
    var payload :- EvalPayload(state, task.payload);
    var output :- Invoke(task.fn, InputOf(payload), o);
    ApplyResult(state, task.resultPath, TaskResult(task, output))
  }

  /** The chain on one item: each task in order, stopping at the first failure. */
  function RunChain(tasks: seq<Task>, state: Json, o: Oracles): Outcome {
    if |tasks| == 0 then Completed(state)
    else match Step(tasks[0], state, o)
      case Failure(e) => FailedAt(tasks[0].stateName, e)
      case Success(next) => RunChain(tasks[1..], next, o)
  }

  /** The map state's iterations: one chain run per item at `ItemsPath`,
      item `i` seeing the call outcomes `oracle(i)`. */
  function ItemRuns(m: MapState, input: Json, oracle: nat -> Oracles): (r: Result<seq<Outcome>>)
    ensures r.Success? <==> Resolve(input, m.itemsPath).Some? && Resolve(input, m.itemsPath).value.JArray?
    ensures r.Success? ==> (|r.value| == |Resolve(input, m.itemsPath).value.items|
      && forall i :: 0 <= i < |r.value| ==>
           r.value[i] == RunChain(m.steps, Resolve(input, m.itemsPath).value.items[i], oracle(i)))
  {
    match Resolve(input, m.itemsPath)
    case Some(JArray(items)) =>
      Success(seq(|items|, i requires 0 <= i < |items| => RunChain(m.steps, items[i], oracle(i))))
    case _ => Failure(StatesRuntime("the items path does not select an array"))
  }

  /** The map state's output from its iterations: the array of their final
      states when every one completes. The map has no `Catch`, so a failed
      iteration fails the map, and with it the execution, with that
      iteration's error. */
  function Collect(runs: seq<Outcome>): (r: Result<seq<Json>>)
    ensures r.Success? <==> forall i :: 0 <= i < |runs| ==> runs[i].Completed?
    ensures r.Success? ==> |r.value| == |runs| && forall i :: 0 <= i < |runs| ==> r.value[i] == runs[i].state
    ensures r.Failure? ==> exists i :: 0 <= i < |runs| && runs[i].FailedAt? && runs[i].error == r.error
                                       && forall k :: 0 <= k < i ==> runs[k].Completed?
  {
    if |runs| == 0 then Success([])
    else match runs[0]
      case FailedAt(_, e) => Failure(e)
      case Completed(s) =>
        match Collect(runs[1..])
        case Failure(e) =>
          ghost var i :| 0 <= i < |runs| - 1 && runs[1..][i].FailedAt? && runs[1..][i].error == e
                         && forall k :: 0 <= k < i ==> runs[1..][k].Completed?;
          assert runs[i + 1] == runs[1..][i];
          Failure(e)
        case Success(rest) => Success([s] + rest)
  }

  /** The map state: a failure to select the items, or the first failed
      iteration's error, fails it; otherwise its output is every item's final
      state, in item order. */
  function RunMap(m: MapState, input: Json, oracle: nat -> Oracles): (r: Result<seq<Json>>)
    ensures ItemRuns(m, input, oracle).Failure? ==> r == Failure(ItemRuns(m, input, oracle).error)
    ensures var runs := ItemRuns(m, input, oracle);
      r.Success? <==> runs.Success? && forall i :: 0 <= i < |runs.value| ==> runs.value[i].Completed?
    ensures var runs := ItemRuns(m, input, oracle);
      r.Success? ==> |r.value| == |runs.value| && forall i :: 0 <= i < |runs.value| ==> r.value[i] == runs.value[i].state
    ensures var runs := ItemRuns(m, input, oracle);
      runs.Success? && r.Failure? ==>
        exists i :: 0 <= i < |runs.value| && runs.value[i].FailedAt? && runs.value[i].error == r.error
  {
    var runs :- ItemRuns(m, input, oracle);
    Collect(runs)
  }

  /** The execution input's records are the items the map state iterates. */
  lemma RecordsAreItems(m: MapState, records: seq<S3Record>)
    requires m.itemsPath == At(RecordsField)
    ensures Resolve(ExecutionInput(records), m.itemsPath) == Some(JArray(EventItems(records)))
  {
    var input := ExecutionInput(records);
    assert Lookup(input.fields, RecordsField) == Some(JArray(EventItems(records)));
  }

  /** The environment the infrastructure gives the event handler. */
  function EventHandlerEnv(base: Env, stateMachineArn: string): Env {
    base[StateMachineArnVar := stateMachineArn]
  }

  /** The event handler starts the state machine whose ARN the
      infrastructure exported, and the map state finds one item per S3
      record, in order: `{bucket, key}` of that record. */
  lemma ExecutionReachesMap(config: Config, destinationBucket: string, records: seq<S3Record>,
                            base: Env, arn: string, start: Option<Error>, oracle: nat -> Oracles)
    ensures var run := S3EventHandler(records, Some(LambdaContext), EventHandlerEnv(base, arn), start);
      run.calls == [StartExecution(Some(arn), ExecutionInput(records))]
    ensures var r := ItemRuns(StateMachine(config, destinationBucket), ExecutionInput(records), oracle);
      r.Success? && |r.value| == |records|
      && forall i :: 0 <= i < |records| ==>
           r.value[i] == RunChain(StateMachine(config, destinationBucket).steps, EventItems(records)[i], oracle(i))
  {
    RecordsAreItems(StateMachine(config, destinationBucket), records);
  }

  /** The entries a template yields when its values are `values`. */
  function Filled(payload: seq<(string, Source)>, values: seq<string>): (r: Entries)
    requires |values| == |payload|
    ensures |r| == |payload| && forall i :: 0 <= i < |r| ==> r[i] == (payload[i].0, values[i])
  {
    seq(|payload|, i requires 0 <= i < |payload| => (payload[i].0, values[i]))
  }

  lemma PayloadOf(state: Json, payload: seq<(string, Source)>, values: seq<string>)
    requires |values| == |payload|
    requires forall i :: 0 <= i < |payload| ==> EvalSource(state, payload[i].1) == Success(values[i])
    ensures EvalPayload(state, payload) == Success(Filled(payload, values))
  {
    assert EvalPayload(state, payload).value == Filled(payload, values);
  }

  /** `$.name` of a string member is that string. */
  lemma FieldValue(state: Json, name: string, v: string)
    requires Get(state, name) == Some(JString(v))
    ensures EvalSource(state, FromPath(At(name))) == Success(v)
  {
    assert Resolve(state, At(name)) == Resolve(JString(v), []);
  }

  /** A two-entry template whose values are known. */
  lemma Payload2(state: Json, t: seq<(string, Source)>, v0: string, v1: string)
    requires |t| == 2 && EvalSource(state, t[0].1) == Success(v0) && EvalSource(state, t[1].1) == Success(v1)
    ensures EvalPayload(state, t) == Success([(t[0].0, v0), (t[1].0, v1)])
    ensures InputOf([(t[0].0, v0), (t[1].0, v1)]) == map[t[0].0 := v0][t[1].0 := v1]
  {
    PayloadOf(state, t, [v0, v1]);
    assert Filled(t, [v0, v1]) == [(t[0].0, v0), (t[1].0, v1)];
    assert [(t[0].0, v0), (t[1].0, v1)][..1] == [(t[0].0, v0)];
  }

  /** A three-entry template whose values are known. */
  lemma Payload3(state: Json, t: seq<(string, Source)>, v0: string, v1: string, v2: string)
    requires |t| == 3 && EvalSource(state, t[0].1) == Success(v0) && EvalSource(state, t[1].1) == Success(v1)
    requires EvalSource(state, t[2].1) == Success(v2)
    ensures EvalPayload(state, t) == Success([(t[0].0, v0), (t[1].0, v1), (t[2].0, v2)])
    ensures InputOf([(t[0].0, v0), (t[1].0, v1), (t[2].0, v2)]) == map[t[0].0 := v0][t[1].0 := v1][t[2].0 := v2]
  {
    var e2 := [(t[0].0, v0), (t[1].0, v1)];
    PayloadOf(state, t, [v0, v1, v2]);
    assert Filled(t, [v0, v1, v2]) == e2 + [(t[2].0, v2)] == [(t[0].0, v0), (t[1].0, v1), (t[2].0, v2)];
    InputOfSnoc([(t[0].0, v0)], t[1].0, v1);
    InputOfSnoc(e2, t[2].0, v2);
  }

  /** A four-entry template whose values are known. */
  lemma Payload4(state: Json, t: seq<(string, Source)>, v0: string, v1: string, v2: string, v3: string)
    requires |t| == 4 && EvalSource(state, t[0].1) == Success(v0) && EvalSource(state, t[1].1) == Success(v1)
    requires EvalSource(state, t[2].1) == Success(v2) && EvalSource(state, t[3].1) == Success(v3)
    ensures EvalPayload(state, t) == Success([(t[0].0, v0), (t[1].0, v1), (t[2].0, v2), (t[3].0, v3)])
    ensures InputOf([(t[0].0, v0), (t[1].0, v1), (t[2].0, v2), (t[3].0, v3)])
         == map[t[0].0 := v0][t[1].0 := v1][t[2].0 := v2][t[3].0 := v3]
  {
    var e2 := [(t[0].0, v0), (t[1].0, v1)];
    var e3 := e2 + [(t[2].0, v2)];
    PayloadOf(state, t, [v0, v1, v2, v3]);
    assert Filled(t, [v0, v1, v2, v3]) == e3 + [(t[3].0, v3)]
        == [(t[0].0, v0), (t[1].0, v1), (t[2].0, v2), (t[3].0, v3)];
    InputOfSnoc([(t[0].0, v0)], t[1].0, v1);
    InputOfSnoc(e2, t[2].0, v2);
    InputOfSnoc(e3, t[3].0, v3);
  }

  /** One more entry sets its name in the dictionary. */
  lemma InputOfSnoc(entries: Entries, name: string, v: string)
    ensures InputOf(entries + [(name, v)]) == InputOf(entries)[name := v]
  {
    assert (entries + [(name, v)])[..|entries|] == entries;
  }

  /** The resize task sends `{bucket, key}` of the item and stores the
      handler's `{key: "resized-" + key}` at `$.resizeResult`, keeping the
      rest of the item. */
  lemma ResizeStep(config: Config, item: Json, bucket: string, key: string, o: Oracles)
    requires item.JObject?
    requires Get(item, "bucket") == Some(JString(bucket)) && Get(item, "key") == Some(JString(key))
    requires o.resizeFetch.None? && o.resizeUpload.None?
    ensures Step(CreateImageResizeTask(config), item, o).Success?
    ensures var next := Step(CreateImageResizeTask(config), item, o).value;
      next.JObject?
      && Get(next, "resizeResult") == Some(JObject([("key", JString(ResizedPrefix + key))]))
      && forall n :: n != "resizeResult" ==> Get(next, n) == Get(item, n)
  {
    var task := CreateImageResizeTask(config);
    FieldValue(item, "bucket", bucket);
    FieldValue(item, "key", key);
    Payload2(item, task.payload, bucket, key);
    var input := map["bucket" := bucket]["key" := key];
    var output := [("key", ResizedPrefix + key)];
    InvokeResize(input, o, bucket, key);
    assert ObjectOf(output).fields == [("key", JString(ResizedPrefix + key))];
  }

  lemma InvokeResize(input: Input, o: Oracles, bucket: string, key: string)
    requires o.resizeFetch.None? && o.resizeUpload.None?
    requires input == map["bucket" := bucket]["key" := key]
    ensures Invoke(ImageResizerFn, input, o) == Success([("key", ResizedPrefix + key)])
  {
    assert RecordOf(input) == Some(S3Record(bucket, key));
  }

  /** As defined, the inference task reads `$[0].resizeResult.key`, a path
      that selects nothing in an object; the state after the resize task is
      an object, so no item ever gets past the inference task. */
  lemma AsWrittenInferenceNeverRuns(config: Config, destinationBucket: string, item: Json, o: Oracles)
    requires item.JObject?
    ensures !RunChain(StateMachine(config, destinationBucket).steps, item, o).Completed?
    ensures Step(CreateImageResizeTask(config), item, o).Success? ==>
      RunChain(StateMachine(config, destinationBucket).steps, item, o)
        == FailedAt(StateName(config, InferenceInfix), StatesRuntime("the JsonPath selects nothing in the input"))
  {
    var steps := StateMachine(config, destinationBucket).steps;
    var resize := CreateImageResizeTask(config);
    assert steps[0] == resize;
    match Step(resize, item, o)
    case Failure(e) =>
    case Success(next) =>
      assert next.JObject?;
      var inference := steps[1];
      var path := [Index(0), Field("resizeResult"), Field("key")];
      assert inference.payload == [("key", FromPath(path))];
      IndexOnObjectSelectsNothing(next.fields, 0, path[1..]);
      assert path == [Index(0)] + path[1..];
      assert EvalSource(next, inference.payload[0].1).Failure?;
      assert Step(inference, next, o) == Failure(StatesRuntime("the JsonPath selects nothing in the input"));
      assert steps[1..][0] == inference;
  }

  /** So, as defined, every execution with at least one record fails: the
      first item's iteration stops at the inference task and the map state
      has no `Catch`. */
  lemma AsWrittenExecutionFails(config: Config, destinationBucket: string, records: seq<S3Record>,
                                oracle: nat -> Oracles)
    requires |records| > 0
    ensures RunMap(StateMachine(config, destinationBucket), ExecutionInput(records), oracle).Failure?
  {
    var m := StateMachine(config, destinationBucket);
    RecordsAreItems(m, records);
    AsWrittenInferenceNeverRuns(config, destinationBucket, EventItems(records)[0], oracle(0));
    assert !ItemRuns(m, ExecutionInput(records), oracle).value[0].Completed?;
  }

  /** The inference task reading the resized key from the object state. */
  function CorrectedInferenceTask(config: Config): Task {
    InferenceTaskReading(config, [Field("resizeResult"), Field("key")])
  }

  function CorrectedChain(config: Config, destinationBucket: string): seq<Task> {
    ChainWith(config, destinationBucket, CorrectedInferenceTask(config))
  }

  /** The map state running the corrected chain. */
  function CorrectedStateMachine(config: Config, destinationBucket: string): MapState {
    StateMachine(config, destinationBucket).(steps := CorrectedChain(config, destinationBucket))
  }

  /** Every call of the item's handlers succeeds and the model answers with
      readable text. */
  predicate AllSucceed(o: Oracles) {
    && o.resizeFetch.None? && o.resizeUpload.None?
    && o.imageBytes.Success? && o.modelResponse.Success?
    && GeneratedText(o.modelResponse.value).Success?
    && o.metadataLoad.None?
    && o.embeddingsFetch.None? && o.documentFetch.None?
  }

  /** With the inference task reading `$.resizeResult.key`, every field a
      task reads was written by the task before it: when all calls succeed,
      the item runs to the end and the final state is `{key}` holding the
      resized image's key. */
  lemma CorrectedChainCompletes(config: Config, destinationBucket: string, bucket: string, key: string, o: Oracles)
    requires AllSucceed(o)
    ensures RunChain(CorrectedChain(config, destinationBucket),
                     JObject([("bucket", JString(bucket)), ("key", JString(key))]), o)
         == Completed(JObject([("key", JString(ResizedPrefix + key))]))
  {
    var item := JObject([("bucket", JString(bucket)), ("key", JString(key))]);
    assert Get(item, "bucket") == Some(JString(bucket)) && Get(item, "key") == Some(JString(key)) by {
      LookupDistinct(item.fields, 0);
      LookupDistinct(item.fields, 1);
    }
    var tasks := CorrectedChain(config, destinationBucket);
    assert |tasks| == 5 && tasks[0] == CreateImageResizeTask(config) && tasks[1] == CorrectedInferenceTask(config)
      && tasks[2] == CreateAddImageMetadataTask(config, destinationBucket)
      && tasks[3] == CreateGetImageEmbeddingsTask(config, destinationBucket)
      && tasks[4] == CreateAddDocumentToVectorDbTask(config, destinationBucket);
    var resized := ResizedPrefix + key;
    var text := GeneratedText(o.modelResponse.value).value;

    ResizeStep(config, item, bucket, key, o);
    var s1 := Step(tasks[0], item, o).value;
    ResizedKeyPath(s1, resized);
    var s2 := InferenceStep(config, s1, resized, text, o);
    var s3 := MetadataStep(config, destinationBucket, s2, resized, text, o);
    var s4 := EmbeddingsStep(config, destinationBucket, s3, resized, text, o);
    AddDocumentStep(config, destinationBucket, s4, resized, o);
    ChainOfSteps(tasks, item, s1, s2, s3, s4, o);
  }

  /** With the corrected chain, an execution whose calls all succeed
      completes, and its output holds `{key: "resized-" + key}` for every
      record, in record order. */
  lemma CorrectedExecutionCompletes(config: Config, destinationBucket: string, records: seq<S3Record>,
                                    oracle: nat -> Oracles)
    requires forall i :: 0 <= i < |records| ==> AllSucceed(oracle(i))
    ensures var r := RunMap(CorrectedStateMachine(config, destinationBucket), ExecutionInput(records), oracle);
      r.Success? && |r.value| == |records|
      && forall i :: 0 <= i < |records| ==> r.value[i] == JObject([("key", JString(ResizedPrefix + records[i].key))])
  {
    var m := CorrectedStateMachine(config, destinationBucket);
    RecordsAreItems(m, records);
    var runs := ItemRuns(m, ExecutionInput(records), oracle).value;
    forall i | 0 <= i < |records|
      ensures runs[i] == Completed(JObject([("key", JString(ResizedPrefix + records[i].key))]))
    {
      CorrectedChainCompletes(config, destinationBucket, records[i].bucket, records[i].key, oracle(i));
    }
  }

  lemma ResizedKeyPath(state: Json, resized: string)
    requires Get(state, "resizeResult") == Some(JObject([("key", JString(resized))]))
    ensures Resolve(state, [Field("resizeResult"), Field("key")]) == Some(JString(resized))
  {
    var rr := JObject([("key", JString(resized))]);
    assert Get(rr, "key") == Some(JString(resized));
    assert Resolve(state, [Field("resizeResult"), Field("key")]) == Resolve(rr, [Field("key")]);
  }

  /** Unfolds a five-task run whose steps all succeed. */
  lemma ChainOfSteps(tasks: seq<Task>, s0: Json, s1: Json, s2: Json, s3: Json, s4: Json, o: Oracles)
    requires |tasks| == 5
    requires Step(tasks[0], s0, o) == Success(s1) && Step(tasks[1], s1, o) == Success(s2)
    requires Step(tasks[2], s2, o) == Success(s3) && Step(tasks[3], s3, o) == Success(s4)
    requires Step(tasks[4], s4, o) == Success(s4)
    ensures RunChain(tasks, s0, o) == Completed(s4)
  {
    assert RunChain(tasks[4..], s4, o) == RunChain([], s4, o);
    assert RunChain(tasks[3..], s3, o) == RunChain(tasks[4..], s4, o);
    assert RunChain(tasks[2..], s2, o) == RunChain(tasks[3..], s3, o);
    assert RunChain(tasks[1..], s1, o) == RunChain(tasks[2..], s2, o);
  }

  /** A step whose payload and handler call are known. */
  lemma StepOf(task: Task, state: Json, o: Oracles, payload: Entries, output: Entries)
    requires EvalPayload(state, task.payload) == Success(payload)
    requires Invoke(task.fn, InputOf(payload), o) == Success(output)
    ensures Step(task, state, o) == ApplyResult(state, task.resultPath, TaskResult(task, output))
  {
  }

  lemma InvokeInference(input: Input, o: Oracles, key: string, text: string)
    requires AllSucceed(o) && text == GeneratedText(o.modelResponse.value).value
    requires "key" in input && input["key"] == key
    ensures Invoke(BedrockInferenceFn, input, o) == Success([("key", key), ("inference", text)])
  {
  }

  lemma InvokeMetadata(input: Input, o: Oracles, key: string, text: string, bucket: string)
    requires o.metadataLoad.None?
    requires "key" in input && "inference" in input && "bucket" in input
    requires input["key"] == key && input["inference"] == text && input["bucket"] == bucket
    ensures Invoke(AddImageMetadataFn, input, o)
         == Success([("dynamoDbId", o.freshId), ("key", key), ("bucket", bucket), ("inference", text)])
  {
  }

  lemma InferencePayload(config: Config, state: Json, resized: string) returns (payload: Entries)
    requires Resolve(state, [Field("resizeResult"), Field("key")]) == Some(JString(resized))
    ensures payload == [("key", resized)]
    ensures EvalPayload(state, CorrectedInferenceTask(config).payload) == Success(payload)
    ensures "key" in InputOf(payload) && InputOf(payload)["key"] == resized
  {
    var template := CorrectedInferenceTask(config).payload;
    assert template == [("key", FromPath([Field("resizeResult"), Field("key")]))];
    payload := [("key", resized)];
    PayloadOf(state, template, [resized]);
    assert Filled(template, [resized]) == payload;
    InputOfValue(payload, 0);
  }

  lemma InferenceStep(config: Config, state: Json, resized: string, text: string, o: Oracles) returns (next: Json)
    requires AllSucceed(o) && text == GeneratedText(o.modelResponse.value).value
    requires Resolve(state, [Field("resizeResult"), Field("key")]) == Some(JString(resized))
    ensures Step(CorrectedInferenceTask(config), state, o) == Success(next)
    ensures next == JObject([("key", JString(resized)), ("inference", JString(text))])
  {
    var payload := InferencePayload(config, state, resized);
    var output := [("key", resized), ("inference", text)];
    InvokeInference(InputOf(payload), o, resized, text);
    StepOf(CorrectedInferenceTask(config), state, o, payload, output);
    next := ObjectOf(output);
    TwoStrings("key", resized, "inference", text);
  }

  /** The object of two string members. */
  lemma TwoStrings(a: string, x: string, b: string, y: string)
    ensures ObjectOf([(a, x), (b, y)]) == JObject([(a, JString(x)), (b, JString(y))])
  {
    assert ObjectOf([(a, x), (b, y)]).fields == [(a, JString(x)), (b, JString(y))];
  }

  lemma MetadataPayload(config: Config, bucket: string, state: Json, resized: string, text: string)
    returns (payload: Entries)
    requires state == JObject([("key", JString(resized)), ("inference", JString(text))])
    ensures EvalPayload(state, CreateAddImageMetadataTask(config, bucket).payload) == Success(payload)
    ensures var input := InputOf(payload);
      "key" in input && "inference" in input && "bucket" in input
      && input["key"] == resized && input["inference"] == text && input["bucket"] == bucket
  {
    var task := CreateAddImageMetadataTask(config, bucket);
    LookupDistinct(state.fields, 0);
    LookupDistinct(state.fields, 1);
    FieldValue(state, "key", resized);
    FieldValue(state, "inference", text);
    Payload3(state, task.payload, resized, text, bucket);
    payload := [("key", resized), ("inference", text), ("bucket", bucket)];
  }

  lemma MetadataStep(config: Config, bucket: string, state: Json, resized: string, text: string, o: Oracles)
    returns (next: Json)
    requires o.metadataLoad.None?
    requires state == JObject([("key", JString(resized)), ("inference", JString(text))])
    ensures Step(CreateAddImageMetadataTask(config, bucket), state, o) == Success(next)
    ensures next.JObject?
    ensures Get(next, "key") == Some(JString(resized)) && Get(next, "inference") == Some(JString(text))
    ensures Get(next, "dynamoDbId") == Some(JString(o.freshId))
  {
    var task := CreateAddImageMetadataTask(config, bucket);
    var payload := MetadataPayload(config, bucket, state, resized, text);
    var output := [("dynamoDbId", o.freshId), ("key", resized), ("bucket", bucket), ("inference", text)];
    InvokeMetadata(InputOf(payload), o, resized, text, bucket);
    StepOf(task, state, o, payload, output);
    next := ObjectOf(output);
    MetadataResult(o.freshId, resized, bucket, text);
  }

  lemma MetadataResult(id: string, key: string, bucket: string, text: string)
    ensures var r := ObjectOf([("dynamoDbId", id), ("key", key), ("bucket", bucket), ("inference", text)]);
      r.JObject? && Get(r, "dynamoDbId") == Some(JString(id)) && Get(r, "key") == Some(JString(key))
      && Get(r, "inference") == Some(JString(text))
  {
    var r := ObjectOf([("dynamoDbId", id), ("key", key), ("bucket", bucket), ("inference", text)]);
    assert r.fields == [("dynamoDbId", JString(id)), ("key", JString(key)),
                        ("bucket", JString(bucket)), ("inference", JString(text))];
    LookupDistinct(r.fields, 0);
    LookupDistinct(r.fields, 1);
    LookupDistinct(r.fields, 3);
  }

  lemma EmbeddingsPayload(config: Config, bucket: string, state: Json, resized: string, text: string)
    returns (payload: Entries)
    requires state.JObject?
    requires Get(state, "key") == Some(JString(resized)) && Get(state, "inference") == Some(JString(text))
    requires Get(state, "dynamoDbId").Some? && Get(state, "dynamoDbId").value.JString?
    ensures EvalPayload(state, CreateGetImageEmbeddingsTask(config, bucket).payload) == Success(payload)
    ensures var input := InputOf(payload);
      "key" in input && "inference" in input && input["key"] == resized
  {
    var task := CreateGetImageEmbeddingsTask(config, bucket);
    var id := Get(state, "dynamoDbId").value.s;
    FieldValue(state, "key", resized);
    FieldValue(state, "inference", text);
    FieldValue(state, "dynamoDbId", id);
    Payload4(state, task.payload, resized, text, id, bucket);
    payload := [("key", resized), ("inference", text), ("dynamoDbId", id), ("bucket", bucket)];
  }

  lemma InvokeEmbeddings(input: Input, o: Oracles, key: string)
    requires o.embeddingsFetch.None?
    requires "key" in input && "inference" in input && input["key"] == key
    ensures Invoke(GetImageEmbeddingsFn, input, o) == Success([("key", key)])
  {
  }

  lemma EmbeddingsStep(config: Config, bucket: string, state: Json, resized: string, text: string, o: Oracles)
    returns (next: Json)
    requires o.embeddingsFetch.None?
    requires state.JObject?
    requires Get(state, "key") == Some(JString(resized)) && Get(state, "inference") == Some(JString(text))
    requires Get(state, "dynamoDbId").Some? && Get(state, "dynamoDbId").value.JString?
    ensures Step(CreateGetImageEmbeddingsTask(config, bucket), state, o) == Success(next)
    ensures next == JObject([("key", JString(resized))])
  {
    var payload := EmbeddingsPayload(config, bucket, state, resized, text);
    var output := [("key", resized)];
    InvokeEmbeddings(InputOf(payload), o, resized);
    StepOf(CreateGetImageEmbeddingsTask(config, bucket), state, o, payload, output);
    next := ObjectOf(output);
    assert next.fields == [("key", JString(resized))];
  }

  lemma InvokeAddDocument(input: Input, o: Oracles, key: string)
    requires o.documentFetch.None?
    requires "key" in input && input["key"] == key
    ensures Invoke(AddDocumentFn, input, o) == Success([("key", key)])
  {
  }

  lemma AddDocumentStep(config: Config, bucket: string, state: Json, resized: string, o: Oracles)
    requires o.documentFetch.None?
    requires state == JObject([("key", JString(resized))])
    ensures Step(CreateAddDocumentToVectorDbTask(config, bucket), state, o) == Success(state)
  {
    var task := CreateAddDocumentToVectorDbTask(config, bucket);
    LookupDistinct(state.fields, 0);
    FieldValue(state, "key", resized);
    Payload2(state, task.payload, resized, bucket);
    var payload := [("key", resized), ("bucket", bucket)];
    var output := [("key", resized)];
    InvokeAddDocument(InputOf(payload), o, resized);
    StepOf(task, state, o, payload, output);
    assert ObjectOf(output).fields == state.fields;
  }
}
