/** The image-ingestion state machine as the infrastructure code defines it:
    five Lambda tasks, each with a payload template and a result path, run in
    a fixed order by a map state over the execution input's records. */
module StepFunctions {
  import opened Json

  /** The naming configuration every resource name is built from. */
  datatype Config = Config(namePrefix: string, nameSuffix: string)

  /** The Lambda function a task invokes. */
  datatype Lambda =
    | ImageResizerFn
    | BedrockInferenceFn
    | AddImageMetadataFn
    | GetImageEmbeddingsFn
    | AddDocumentFn

  /** A payload value: `JsonPath.StringAt(path)` or a fixed string. */
  datatype Source = FromPath(path: Path) | Literal(value: string)

  /** Where a task's result goes: `"$"` replaces the state, `"$.name"` sets
      one member of it. */
  datatype ResultPath = Whole | AtField(name: string)

  /** A `LambdaInvoke` task. */
  datatype Task = Task(stateName: string, fn: Lambda, payloadResponseOnly: bool,
                       payload: seq<(string, Source)>, resultPath: ResultPath)

  /** A map state running `steps` on every item at `itemsPath`. */
  datatype MapState = MapState(stateName: string, maxConcurrency: nat, itemsPath: Path, steps: seq<Task>)

  /** `"{NamePrefix}<infix>{NameSuffix}"`. */
  function StateName(config: Config, infix: string): (r: string)
    ensures |r| == |config.namePrefix| + |infix| + |config.nameSuffix|
  {
    config.namePrefix + infix + config.nameSuffix
  }

  const ResizeInfix := "-image-resize-task-"
  const InferenceInfix := "-bedrock-inference-task-"
  const MetadataInfix := "-add-image-metadata-task-"
  const EmbeddingsInfix := "-get-image-embeddings-task-"
  const AddDocumentInfix := "-add-document-to-vectordb-task-"
  const MapInfix := "-map-state-"

  /** `$.name`. */
  function At(name: string): Path {
    [Field(name)]
  }

  function CreateImageResizeTask(config: Config): Task {
    Task(StateName(config, ResizeInfix), ImageResizerFn, true,
         [("bucket", FromPath(At("bucket"))), ("key", FromPath(At("key")))],
         AtField("resizeResult"))
  }

  /** The inference task as defined: its key is read from `$[0].resizeResult.key`. */
  function CreateBedrockInferenceTask(config: Config): Task {
    InferenceTaskReading(config, [Index(0), Field("resizeResult"), Field("key")])
  }

  /** The inference task reading its key from `keyPath`. */
  function InferenceTaskReading(config: Config, keyPath: Path): Task {
    Task(StateName(config, InferenceInfix), BedrockInferenceFn, true,
         [("key", FromPath(keyPath))], Whole)
  }

  function CreateAddImageMetadataTask(config: Config, destinationBucket: string): Task {
    Task(StateName(config, MetadataInfix), AddImageMetadataFn, true,
         [("key", FromPath(At("key"))), ("inference", FromPath(At("inference"))),
          ("bucket", Literal(destinationBucket))],
         Whole)
  }

  function CreateGetImageEmbeddingsTask(config: Config, destinationBucket: string): Task {
    Task(StateName(config, EmbeddingsInfix), GetImageEmbeddingsFn, true,
         [("key", FromPath(At("key"))), ("inference", FromPath(At("inference"))),
          ("dynamoDbId", FromPath(At("dynamoDbId"))), ("bucket", Literal(destinationBucket))],
         Whole)
  }

  function CreateAddDocumentToVectorDbTask(config: Config, destinationBucket: string): Task {
    Task(StateName(config, AddDocumentInfix), AddDocumentFn, true,
         [("key", FromPath(At("key"))), ("bucket", Literal(destinationBucket))],
         Whole)
  }

  const MaxConcurrency := 10
  const RecordsField := "s3EventRecords"

  /** The chain given the inference task to use. */
  function ChainWith(config: Config, destinationBucket: string, inference: Task): seq<Task> {
    [CreateImageResizeTask(config), inference, CreateAddImageMetadataTask(config, destinationBucket),
     CreateGetImageEmbeddingsTask(config, destinationBucket), CreateAddDocumentToVectorDbTask(config, destinationBucket)]
  }

  /** `StepFunctionsStack`: the map state over `$.s3EventRecords`, at most ten
      items at a time, each running resize, inference, metadata, embeddings
      and add-document in that order. */
  function StateMachine(config: Config, destinationBucket: string): (m: MapState)
    ensures m.maxConcurrency == 10
    ensures m.itemsPath == At(RecordsField)
    ensures |m.steps| == 5
    ensures m.steps[0].fn == ImageResizerFn && m.steps[1].fn == BedrockInferenceFn
         && m.steps[2].fn == AddImageMetadataFn && m.steps[3].fn == GetImageEmbeddingsFn
         && m.steps[4].fn == AddDocumentFn
    ensures forall i :: 0 <= i < |m.steps| ==> m.steps[i].payloadResponseOnly
  {
    MapState(StateName(config, MapInfix), MaxConcurrency, At(RecordsField),
             ChainWith(config, destinationBucket, CreateBedrockInferenceTask(config)))
  }

  /** The state names of the chain and of the map state are pairwise
      distinct, whatever the prefix and suffix: their infixes have different
      lengths. */
  lemma StateNamesDistinct(config: Config, destinationBucket: string)
    ensures var m := StateMachine(config, destinationBucket);
      var names := [m.steps[0].stateName, m.steps[1].stateName, m.steps[2].stateName,
                    m.steps[3].stateName, m.steps[4].stateName, m.stateName];
      forall i, j :: 0 <= i < j < |names| ==> names[i] != names[j]
  {
    var m := StateMachine(config, destinationBucket);
    var names := [m.steps[0].stateName, m.steps[1].stateName, m.steps[2].stateName,
                  m.steps[3].stateName, m.steps[4].stateName, m.stateName];
    var base := |config.namePrefix| + |config.nameSuffix|;
    var lengths := [19, 24, 25, 27, 31, 11];
    forall i | 0 <= i < |names| ensures |names[i]| == base + lengths[i] {
    }
  }
}
