/** The Lambda functions of the image-ingestion state machine: the S3 event
    handler that starts an execution, and the five per-image tasks. Every
    cloud call is recorded in the run's call list and its outcome is a
    parameter; a failing call's exception is rethrown unchanged. */
module Handlers {
  import opened Wrappers
  import opened Json
  import opened ModelBodies
  import Base64

  /** The Lambda context; only whether it is null matters. */
  datatype LambdaContext = LambdaContext

  /** A task's input, deserialised into `Dictionary<string, string>`. */
  type Input = map<string, string>

  /** `S3Record(Bucket, Key)`: the resize task's input. */
  datatype S3Record = S3Record(bucket: string, key: string)

  /** The item written to the image table. */
  datatype ImageItem = ImageItem(id: string, key: string, bucket: string, text: string, score: real)

  /** The cloud calls a handler issues, in order. */
  datatype Call =
    | GetObject(bucket: Option<string>, key: string)
    | PutObject(destination: string, key: string)
    | InvokeModel(modelId: string, body: Json)
    | DescribeTable(table: string)                 // `Table.LoadTable` reads the table's description
    | PutItem(table: string, item: ImageItem)
    | StartExecution(stateMachineArn: Option<string>, input: Json)

  /** What one invocation did and what it returned or threw. */
  datatype Run<T> = Run(calls: seq<Call>, result: Result<T>)

  const DestinationBucketVar := "destinationBucketName"
  const StateMachineArnVar := "stateMachineArn"
  const ResizedPrefix := "resized-"
  const ImagesTable := "dotnet-genai-images"
  const ClaudeModelId := "anthropic.claude-3-5-sonnet-20240620-v1:0"
  const DescribePrompt := "Provide a comprehensive description of this image, ensuring you cover every detail with meticulous attention to even the smallest elements.  Search the internet for more background information."

  /** The `ArgumentException` message for a missing input key. */
  function MissingMessage(name: string): string {
    "Image " + name + " not provided in the input."
  }

  /** The first of `names` absent from `input`, in the order they are checked. */
  function FirstMissing(input: Input, names: seq<string>): (r: Option<string>)
    ensures r.None? <==> forall k :: 0 <= k < |names| ==> names[k] in input
    ensures r.Some? ==> exists i :: 0 <= i < |names| && names[i] == r.value
                          && r.value !in input && forall k :: 0 <= k < i ==> names[k] in input
  {
    if |names| == 0 then None
    else if names[0] !in input then Some(names[0])
    else
      var rest := FirstMissing(input, names[1..]);
      if rest.Some? then
        ghost var i :| 0 <= i < |names| - 1 && names[1..][i] == rest.value
                      && rest.value !in input && forall k :: 0 <= k < i ==> names[1..][k] in input;
        assert names[i + 1] == rest.value;
        rest
      else
        rest
  }

  /** The required-key check: the first missing name throws. */
  function Require(input: Input, names: seq<string>): (r: Result<()>)
    ensures r.Success? <==> forall k :: 0 <= k < |names| ==> names[k] in input
    ensures r.Failure? ==> r.error == Argument(MissingMessage(FirstMissing(input, names).value))
  {
    match FirstMissing(input, names)
    case None => Success(())
    case Some(n) => Failure(Argument(MissingMessage(n)))
  }

  // ---------------------------------------------------------------------
  // S3EventHandler

  /** One `{bucket, key}` item per record, in record order. */
  function EventItems(records: seq<S3Record>): (r: seq<Json>)
    ensures |r| == |records|
    ensures forall i :: 0 <= i < |records| ==>
      r[i] == JObject([("bucket", JString(records[i].bucket)), ("key", JString(records[i].key))])
  {
    seq(|records|, i requires 0 <= i < |records| =>
      JObject([("bucket", JString(records[i].bucket)), ("key", JString(records[i].key))]))
  }

  /** The execution input: an object with the single member `s3EventRecords`. */
  function ExecutionInput(records: seq<S3Record>): Json {
    JObject([("s3EventRecords", JArray(EventItems(records)))])
  }

  /** The records an execution input carries, read back as the map state
      reads them; `None` when an item is not a `{bucket, key}` object. */
  function ReadRecords(items: seq<Json>): Option<seq<S3Record>> {
    if |items| == 0 then Some([])
    else
      match (Get(items[0], "bucket"), Get(items[0], "key"), ReadRecords(items[1..]))
      case (Some(JString(b)), Some(JString(k)), Some(rest)) => Some([S3Record(b, k)] + rest)
      case _ => None
  }

  /** Reading back the execution input's items yields exactly the records,
      in order, and nothing else is in the input. */
  lemma {:induction false} ExecutionInputRoundTrip(records: seq<S3Record>)
    ensures ExecutionInput(records).fields == [("s3EventRecords", JArray(EventItems(records)))]
    ensures ReadRecords(EventItems(records)) == Some(records)
  {
    if |records| > 0 {
      ExecutionInputRoundTrip(records[1..]);
      assert EventItems(records)[1..] == EventItems(records[1..]);
      var item := EventItems(records)[0];
      assert Lookup(item.fields, "key") == Some(JString(records[0].key));
      assert Lookup(item.fields, "bucket") == Some(JString(records[0].bucket));
      assert records == [records[0]] + records[1..];
    }
  }

  /** `S3EventHandler.FunctionHandler`: one StartExecution per invocation,
      with the ARN from `stateMachineArn`, even for an empty record list. */
  function S3EventHandler(records: seq<S3Record>, context: Option<LambdaContext>, env: Env,
                          start: Option<Error>): (r: Run<()>)
    ensures context.None? ==> r == Run([], Failure(NullReference))
    ensures context.Some? ==> r.calls == [StartExecution(GetEnv(env, StateMachineArnVar), ExecutionInput(records))]
    ensures r.result.Success? <==> context.Some? && start.None?
    ensures context.Some? && start.Some? ==> r.result == Failure(start.value)
  {
    if context.None? then Run([], Failure(NullReference))
    else
      var call := StartExecution(GetEnv(env, StateMachineArnVar), ExecutionInput(records));
      Run([call], if start.Some? then Failure(start.value) else Success(()))
  }

  // ---------------------------------------------------------------------
  // ImageResizer

  /** `ImageResizer.FunctionHandler`. The context is used for logging before
      it is checked, so a null context is a null dereference. `fetch` is the
      outcome of downloading and decoding the image, `upload` that of the
      upload. */
  function ImageResizer(s3: Option<S3Record>, context: Option<LambdaContext>, env: Env,
                        fetch: Option<Error>, upload: Option<Error>): (r: Run<Entries>)
    ensures context.None? ==> r == Run([], Failure(NullReference))
    ensures context.Some? && s3.None? ==> r == Run([], Failure(ArgumentNull("s3")))
    ensures r.result.Success? <==> context.Some? && s3.Some? && fetch.None? && upload.None?
    ensures r.result.Success? ==> r.result.value == [("key", ResizedPrefix + s3.value.key)]
    ensures r.result.Success? ==>
      r.calls == [GetObject(Some(s3.value.bucket), s3.value.key),
                  PutObject(EnvOr(env, DestinationBucketVar, ""), r.result.value[0].1)]
    ensures context.Some? && s3.Some? && fetch.Some? ==> r.result == Failure(fetch.value)
    ensures context.Some? && s3.Some? && fetch.None? && upload.Some? ==> r.result == Failure(upload.value)
  {
    if context.None? then Run([], Failure(NullReference))
    else if s3.None? then Run([], Failure(ArgumentNull("s3")))
    else
      var dest := EnvOr(env, DestinationBucketVar, "");
      var key := s3.value.key;
      var get := GetObject(Some(s3.value.bucket), key);
      if fetch.Some? then Run([get], Failure(fetch.value))
      else
        var put := PutObject(dest, ResizedPrefix + key);
        if upload.Some? then Run([get, put], Failure(upload.value))
        else Run([get, put], Success([("key", ResizedPrefix + key)]))
  }

  // ---------------------------------------------------------------------
  // BedrockInference

  /** A JSON node as `System.Text.Json.Nodes` holds it: a JSON null is a
      null node. */
  function Node(j: Json): (r: Option<Json>)
    ensures r.None? <==> j == JNull
    ensures r.Some? ==> r.value == j
  {
    if j == JNull then None else Some(j)
  }

  /** `node?[name]`: null on a null node, null for an absent member, and an
      `InvalidOperationException` on a node that is not an object. */
  function Member(n: Option<Json>, name: string): Result<Option<Json>> {
    match n
    case None => Success(None)
    case Some(JObject(fields)) =>
      (match Lookup(fields, name)
       case None => Success(None)
       case Some(v) => Success(Node(v)))
    case Some(_) => Failure(InvalidOperation)
  }

  /** `node?[i]`: null on a null node, an `ArgumentOutOfRangeException` past
      the end, and an `InvalidOperationException` on a node that is not an
      array. */
  function Element(n: Option<Json>, i: nat): Result<Option<Json>> {
    match n
    case None => Success(None)
    case Some(JArray(items)) => if i < |items| then Success(Node(items[i])) else Failure(ArgumentOutOfRange)
    case Some(_) => Failure(InvalidOperation)
  }

  /** `node?.GetValue<string>() ?? ""`. */
  function StringValue(n: Option<Json>): Result<string> {
    match n
    case None => Success("")
    case Some(JString(s)) => Success(s)
    case Some(_) => Failure(InvalidOperation)
  }

  const TextPath: Path := [Field("content"), Index(0), Field("text")]

  /** `response?["content"]?[0]?["text"]?.GetValue<string>() ?? ""`. A
      non-empty text is the string found at `content[0].text`; an absent or
      null `content` gives the empty text. */
  function GeneratedText(response: Option<Json>): (r: Result<string>)
    ensures response.None? ==> r == Success("")
    ensures r.Success? && r.value != "" ==>
      response.Some? && Resolve(response.value, TextPath) == Some(JString(r.value))
    ensures response.Some? && response.value.JObject? && Get(response.value, "content") in {None, Some(JNull)} ==>
      r == Success("")
  {
    var c :- Member(if response.Some? then Node(response.value) else None, "content");
    var e :- Element(c, 0);
    var t :- Member(e, "text");
    var s :- StringValue(t);
    if s != "" then
      ResolveText(response, c, e, t, s);
      Success(s)
    else
      Success(s)
  }

  lemma ResolveText(response: Option<Json>, c: Option<Json>, e: Option<Json>, t: Option<Json>, s: string)
    requires Member(if response.Some? then Node(response.value) else None, "content") == Success(c)
    requires Element(c, 0) == Success(e)
    requires Member(e, "text") == Success(t)
    requires StringValue(t) == Success(s)
    requires s != ""
    ensures response.Some? && Resolve(response.value, TextPath) == Some(JString(s))
  {
    var j := response.value;
    assert Resolve(j, TextPath) == Resolve(c.value, TextPath[1..]);
    assert Resolve(c.value, TextPath[1..]) == Resolve(e.value, TextPath[2..]);
  }

  /** Conversely, a string at `content[0].text` is the generated text. */
  lemma GeneratedTextFindsString(j: Json, s: string)
    requires Resolve(j, TextPath) == Some(JString(s))
    ensures GeneratedText(Some(j)) == Success(s)
  {
    var c := Get(j, "content").value;
    assert Resolve(j, TextPath) == Resolve(c, TextPath[1..]);
    var e := c.items[0];
    assert Resolve(c, TextPath[1..]) == Resolve(e, TextPath[2..]);
  }

  /** `BedrockInference.FunctionHandler`: reads the image named by `key` from
      the destination bucket, sends it to Claude declared as `image/jpeg`,
      and returns `{key, inference}`. */
  function BedrockInference(input: Input, context: Option<LambdaContext>, env: Env,
                            fetch: Result<seq<Base64.Byte>>, response: Result<Option<Json>>): (r: Run<Entries>)
    ensures context.None? ==> r == Run([], Failure(NullReference))
    ensures context.Some? && "key" !in input ==> r == Run([], Failure(Argument(MissingMessage("key"))))
    ensures context.Some? && "key" in input ==> |r.calls| >= 1 && r.calls[0] == GetObject(GetEnv(env, DestinationBucketVar), input["key"])
    ensures forall c :: c in r.calls && c.InvokeModel? ==>
      c.modelId == ClaudeModelId && Resolve(c.body, ImageSourcePath("media_type")) == Some(JString("image/jpeg"))
    ensures r.result.Success? ==>
      |r.result.value| == 2 && r.result.value[0] == ("key", input["key"]) && r.result.value[1].0 == "inference"
    ensures r.result.Success? ==> response.Success? && GeneratedText(response.value) == Success(r.result.value[1].1)
    ensures context.Some? && "key" in input && fetch.Failure? ==> r.result == Failure(fetch.error)
    ensures context.Some? && "key" in input && fetch.Success? && response.Failure? ==> r.result == Failure(response.error)
  {
    if context.None? then Run([], Failure(NullReference))
    else if "key" !in input then Run([], Failure(Argument(MissingMessage("key"))))
    else
      var key := input["key"];
      var get := GetObject(GetEnv(env, DestinationBucketVar), key);
      if fetch.Failure? then Run([get], Failure(fetch.error))
      else
        var body := Claude3Body(Some(DescribePrompt), Some(BinaryData(fetch.value, Some("image/jpeg"))));
        var invoke := InvokeModel(ClaudeModelId, body);
        if response.Failure? then Run([get, invoke], Failure(response.error))
        else match GeneratedText(response.value)
          case Failure(e) => Run([get, invoke], Failure(e))
          case Success(text) => Run([get, invoke], Success([("key", key), ("inference", text)]))
  }

  // ---------------------------------------------------------------------
  // AddImageMetadata

  const MetadataInputs := ["key", "bucket", "inference"]

  /** `AddImageMetadata.FunctionHandler`: checks `key`, `bucket` and
      `inference` in that order, loads the table description (`load` is the
      outcome; a failure is not caught), writes one item under the fresh id
      `freshId`, and echoes the inputs with the id. The write's own outcome
      is caught and only logged, so it is no parameter here. */
  function AddImageMetadata(input: Input, context: Option<LambdaContext>, freshId: string,
                            load: Option<Error>): (r: Run<Entries>)
    ensures context.None? ==> r == Run([], Failure(NullReference))
    ensures r.result.Success? <==> context.Some? && "key" in input && "bucket" in input && "inference" in input && load.None?
    ensures context.Some? && FirstMissing(input, MetadataInputs).Some? ==>
      r.calls == [] && r.result == Failure(Argument(MissingMessage(FirstMissing(input, MetadataInputs).value)))
    ensures context.Some? && FirstMissing(input, MetadataInputs).None? && load.Some? ==>
      r.calls == [DescribeTable(ImagesTable)] && r.result == Failure(load.value)
    ensures r.result.Success? ==>
      r.calls == [DescribeTable(ImagesTable),
                  PutItem(ImagesTable, ImageItem(freshId, input["key"], input["bucket"], input["inference"], 1.0))]
    ensures r.result.Success? ==>
      r.result.value == [("dynamoDbId", freshId), ("key", input["key"]),
                         ("bucket", input["bucket"]), ("inference", input["inference"])]
  {
    if context.None? then Run([], Failure(NullReference))
    else match Require(input, MetadataInputs)
      case Failure(e) =>
        assert !("key" in input && "bucket" in input && "inference" in input) by {
          var i :| 0 <= i < 3 && MetadataInputs[i] !in input;
        }
        Run([], Failure(e))
      case Success(_) =>
        assert MetadataInputs[1] in input && MetadataInputs[2] in input;
        if load.Some? then Run([DescribeTable(ImagesTable)], Failure(load.value))
        else
          var item := ImageItem(freshId, input["key"], input["bucket"], input["inference"], 1.0);
          Run([DescribeTable(ImagesTable), PutItem(ImagesTable, item)],
              Success([("dynamoDbId", item.id), ("key", item.key), ("bucket", item.bucket), ("inference", input["inference"])]))
  }

  // ---------------------------------------------------------------------
  // GetImageEmbeddings and AddToVectorDb

  const EmbeddingsInputs := ["key", "inference"]

  /** `GetImageEmbeddings.FunctionHandler`: checks `key` and then
      `inference`, reads the image, and returns only `{key}`. */
  function GetImageEmbeddings(input: Input, context: Option<LambdaContext>, env: Env,
                              fetch: Option<Error>): (r: Run<Entries>)
    ensures context.None? ==> r == Run([], Failure(NullReference))
    ensures context.Some? && FirstMissing(input, EmbeddingsInputs).Some? ==>
      r == Run([], Failure(Argument(MissingMessage(FirstMissing(input, EmbeddingsInputs).value))))
    ensures r.result.Success? <==> context.Some? && FirstMissing(input, EmbeddingsInputs).None? && fetch.None?
    ensures r.result.Success? ==> r.result.value == [("key", input["key"])]
    ensures forall c :: c in r.calls ==> c == GetObject(GetEnv(env, DestinationBucketVar), input["key"])
    ensures context.Some? && FirstMissing(input, EmbeddingsInputs).None? && fetch.Some? ==> r.result == Failure(fetch.value)
  {
    if context.None? then Run([], Failure(NullReference))
    else match Require(input, EmbeddingsInputs)
      case Failure(e) => Run([], Failure(e))
      case Success(_) =>
        var get := GetObject(GetEnv(env, DestinationBucketVar), input["key"]);
        Run([get], if fetch.Some? then Failure(fetch.value) else Success([("key", input["key"])]))
  }

  /** `AddToVectorDb.FunctionHandler`: checks `key`, reads the image, and
      returns `{key}`. Its bulk request is built but never sent: the only
      call it makes is the read. */
  function AddToVectorDb(input: Input, context: Option<LambdaContext>, env: Env,
                         fetch: Option<Error>): (r: Run<Entries>)
    ensures context.None? ==> r == Run([], Failure(NullReference))
    ensures context.Some? && "key" !in input ==> r == Run([], Failure(Argument(MissingMessage("key"))))
    ensures r.result.Success? <==> context.Some? && "key" in input && fetch.None?
    ensures r.result.Success? ==> r.result.value == [("key", input["key"])]
    ensures forall c :: c in r.calls ==> c.GetObject?
    ensures context.Some? && "key" in input && fetch.Some? ==> r.result == Failure(fetch.value)
  {
    if context.None? then Run([], Failure(NullReference))
    else if "key" !in input then Run([], Failure(Argument(MissingMessage("key"))))
    else
      var get := GetObject(GetEnv(env, DestinationBucketVar), input["key"]);
      Run([get], if fetch.Some? then Failure(fetch.value) else Success([("key", input["key"])]))
  }
}
