# dotnet-genai-samples core, modelled in Dafny

This project models the decision and transformation logic of the dotnet-genai
samples. In those samples, every AWS service (S3, DynamoDB, Bedrock, OpenSearch,
Systems Manager parameters, Step Functions) is reached through one SDK call. Each
call is a parameter of the model. Depending on the call, it is either an outcome
given in advance, a function from attempt number to response, or a sequence of
listing pages.

The model covers these parts:

- **Image-ingestion state machine.**
  - The S3 event handler, which builds the execution input.
  - The five `Create*Task` definitions and the map state over `$.s3EventRecords`.
  - The five Lambda handlers the chain invokes: resize, Bedrock inference, image metadata, embeddings, and add to the vector database.
  - The run of the chain over one item, in which a task's payload is evaluated from its JSONPath templates and its result is stored at its `ResultPath` (`pipeline.dfy`).
- **Backfill dispatcher.** `ListAndFilterS3Objects` decides, for one key or for a whole bucket listing, which executions to start.
- **Metadata and classification readers.**
  - `S3Wrapper.GetMetaDataFromS3` paginates a listing and extracts `metadataAttributes` from each matching file.
  - `ClassificationRetriever` splits, trims, lowercases and de-duplicates labels across a paginated DynamoDB scan.
- **Vector stores and the OpenSearch handlers.**
  - Deriving the collection id and endpoint from an ARN.
  - Zero-padded `Dimensions` buffers that are concatenated into one vector.
  - `GetInputValues` and the `imageEmbeddings` parser.
  - Text and image bulk records.
  - Search-result filtering.
- **Model request bodies.** The Claude 3, Claude, and three Titan multimodal-embedding `CreateBodyJson` builders. The request JSON is a datatype, and the image's base64 text is the encoding of section 4 of RFC 4648.
- **Knowledge-base custom resource.**
  - The handler's `RequestType` dispatch and response.
  - The `Create` sequence: policies, collection, index, knowledge base, data source and ingestion.
  - The collection polling loop of at most 30 attempts, and the parameter-store names.
  - The `Delete` operations that read those names back.
- **In-memory chat history.** `AddMessage` behind an acceptance predicate, `Clear`, `AddMessages`, `SetMessages`, and the convenience adders. There are two variants: the library's, which stamps each message with the current time, and the test project's, which stores messages unchanged.
- **`ToHypenCase` and the test project's helpers.** The helpers are the DynamoDB key-condition builder, the polling in `CreateCollection` and the `CreateIndexWrapper` retry.

Supporting modules:

- `Wrappers`: `Option`, `Result`, `Error` and environment variables.
- `Text`: the .NET string operations, restricted to ASCII case and whitespace.
- `Json`: JSON values with ordered members and last-wins lookup, and JSONPath resolution.
- `Base64`: the RFC 4648 encoder and decoder.

## Model

| member | source | states |
|---|---|---|
| Handlers.FirstMissing | src/Amazon.GenAI.ImageIngestionLambda/src/AddImageMetadata.cs:14-30 | The required input keys are checked in their listed order; the result is absent exactly when every key is present, and otherwise it is one of the listed keys |
| Handlers.Require | src/Amazon.GenAI.ImageIngestionLambda/src/GetImageEmbeddings.cs:19-28 | The check succeeds iff every required key is present; otherwise the `ArgumentException` names the first missing key |
| Handlers.EventItems | src/Amazon.GenAI.ImageIngestionLambda/src/S3EventHandler.cs:27-31 | Exactly one `{bucket, key}` item per S3 record, in record order |
| Handlers.ExecutionInputRoundTrip | src/Amazon.GenAI.ImageIngestionLambda/src/S3EventHandler.cs:27-33 | The execution input has the single member `s3EventRecords`, and reading its items back gives exactly the records that produced them |
| Handlers.S3EventHandler | src/Amazon.GenAI.ImageIngestionLambda/src/S3EventHandler.cs:19-43 | One StartExecution per invocation, even for no records, against the ARN from `stateMachineArn`. A null context throws before any call, and a failed start is rethrown |
| Handlers.ImageResizer | src/Amazon.GenAI.ImageIngestionLambda/src/ImageResizer.cs:20-83 | The context is dereferenced before its null check, a null record throws `ArgumentNullException`, and a failed download or upload is rethrown. On success the only output entry is `key = "resized-" + key`, the same key the upload used |
| Handlers.Node | src/Amazon.GenAI.ImageIngestionLambda/src/BedrockInference.cs:44 | A JSON null reads as a null node, and every other value reads as itself |
| Handlers.GeneratedText | src/Amazon.GenAI.ImageIngestionLambda/src/BedrockInference.cs:44 | A null response, or a response without `content`, gives `""`. Any non-empty result is the string found at `content[0].text` |
| Handlers.GeneratedTextFindsString | src/Amazon.GenAI.ImageIngestionLambda/src/BedrockInference.cs:44 | Conversely, a string at `content[0].text` is exactly the generated text |
| Handlers.BedrockInference | src/Amazon.GenAI.ImageIngestionLambda/src/BedrockInference.cs:18-58 | A missing `key` throws before any I/O. The image is read from the destination bucket under that key, and every model call uses the Claude model. The output is exactly `{key, inference}`, with the key echoed and the inference being the generated text. A failure is rethrown |
| Handlers.AddImageMetadata | src/Amazon.GenAI.ImageIngestionLambda/src/AddImageMetadata.cs:10-61 | The keys are checked in the order key, bucket, inference, and the first missing one throws with no call made. Then the table is loaded, and a failed load is thrown with no PutItem. Otherwise one PutItem stores the fresh id, key, bucket, inference and score. The output `{dynamoDbId, key, bucket, inference}` is returned whatever the put does, because its failure is caught |
| Handlers.GetImageEmbeddings | src/Amazon.GenAI.ImageIngestionLambda/src/GetImageEmbeddings.cs:15-96 | `key` is checked, then `inference`. The only service call reads the keyed image from the destination bucket. The output is exactly `{key}`, and a failed read is rethrown |
| Handlers.AddToVectorDb | src/Amazon.GenAI.ImageIngestionLambda/src/AddToVectorDb.cs:17-46 | A missing `key` throws. The only calls are object reads, so no bulk request is ever sent. The output is exactly `{key}` |
| StepFunctions.StateName | src/Amazon.GenAI.Cdk/StepFunctionsBuilder.cs:23 | A state name is `prefix + infix + suffix`, with its length the sum of the three |
| StepFunctions.StateMachine | src/Amazon.GenAI.Cdk/StepFunctionsStack.cs:25-33 | The map runs at most 10 items at once over `$.s3EventRecords`. The chain is resize, inference, metadata, embeddings, add-document, in that order, and every task is `PayloadResponseOnly` |
| StepFunctions.StateNamesDistinct | src/Amazon.GenAI.Cdk/StepFunctionsBuilder.cs:23-93 | The five task names and the map state's name are pairwise distinct for every prefix and suffix |
| Pipeline.EvalSource | src/Amazon.GenAI.Cdk/StepFunctionsBuilder.cs:29-34 | A literal is its own value. A path value succeeds iff the path selects a string, and then it is that string. A path that selects nothing is a `States.Runtime` error |
| Pipeline.EvalPayload | src/Amazon.GenAI.Cdk/StepFunctionsBuilder.cs:29-104 | A payload succeeds iff each of its values does, and it keeps the template's names in the template's order |
| Pipeline.InputOf | src/Amazon.GenAI.Cdk/StepFunctionsBuilder.cs:28 | The handler's dictionary holds exactly the payload's names |
| Pipeline.InputOfValue | src/Amazon.GenAI.Cdk/StepFunctionsBuilder.cs:28 | A name's dictionary value is the value of its last payload entry |
| Pipeline.ApplyResult | src/Amazon.GenAI.Cdk/StepFunctionsBuilder.cs:34 | Result path `$` replaces the state. `$.name` sets that member of an object state and keeps every other member |
| Pipeline.ItemRuns | src/Amazon.GenAI.Cdk/StepFunctionsStack.cs:26-33 | The iterations fail to start iff `ItemsPath` does not select an array. Otherwise there is one chain run per item, in item order |
| Pipeline.Collect | src/Amazon.GenAI.Cdk/StepFunctionsStack.cs:22-33 | With no `Catch` on the map, its output exists iff every iteration completes, and it is then their final states in order. Otherwise the map fails with the error of a failed iteration, the first in item order |
| Pipeline.RunMap | src/Amazon.GenAI.Cdk/StepFunctionsStack.cs:22-40 | The map, and so the execution, succeeds iff the items are an array and every iteration completes. Its output is then each iteration's final state, in item order. Otherwise it fails with the items error or with a failed iteration's error |
| Pipeline.ExecutionReachesMap | src/Amazon.GenAI.Cdk/StepFunctionsStack.cs:42 | The ARN the stack exports under `stateMachineArn` is the one the event handler starts. The map then runs the chain once on each record's `{bucket, key}` item |
| Pipeline.ResizeStep | src/Amazon.GenAI.Cdk/StepFunctionsBuilder.cs:29-34 | The resize task sends `{bucket, key}` from the item and stores `{key: "resized-" + key}` at `$.resizeResult`. Every other member of the item is kept |
| Pipeline.AsWrittenInferenceNeverRuns | src/Amazon.GenAI.Cdk/StepFunctionsBuilder.cs:46-50 | As defined, no item's chain completes. Whenever the resize succeeds, the chain fails at the inference task because `$[0].resizeResult.key` selects nothing in the object state |
| Pipeline.AsWrittenExecutionFails | src/Amazon.GenAI.Cdk/StepFunctionsStack.cs:22-40 | As defined, every execution with at least one record fails as a whole, because the first item stops at the inference task and the map has no `Catch` |
| Pipeline.CorrectedChainCompletes | src/Amazon.GenAI.Cdk/StepFunctionsBuilder.cs:46-104 | When the inference task reads `$.resizeResult.key`, every field a task reads was written by the step before it. With all calls succeeding, the chain completes with `{key: "resized-" + key}` |
| Pipeline.CorrectedExecutionCompletes | src/Amazon.GenAI.Cdk/StepFunctionsStack.cs:22-40 | With the corrected inference path and every call succeeding, the execution completes with `{key: "resized-" + key}` for each record, in record order |
| Pipeline.MetadataStep | src/Amazon.GenAI.Cdk/StepFunctionsBuilder.cs:62-68 | The metadata payload takes `key` and `inference` from the state and `bucket` from the destination bucket. The handler's map replaces the state and carries the fresh `dynamoDbId` |
| Pipeline.EmbeddingsStep | src/Amazon.GenAI.Cdk/StepFunctionsBuilder.cs:80-87 | The embeddings payload takes `key`, `inference` and `dynamoDbId` from the state plus the bucket. The state becomes `{key}`, dropping the other fields |
| Pipeline.AddDocumentStep | src/Amazon.GenAI.Cdk/StepFunctionsBuilder.cs:99-104 | The add-document payload takes `key` plus the bucket. Its `{key}` result leaves the state as it was |
| Backfill.BucketName | src/Amazon.GenAI.ImageIngestion/src/Amazon.GenAI.ImageIngestion/ListAndFilterS3Objects.cs:34 | The event's `detail.bucketName` when present, otherwise the `DESTINATION_BUCKET` variable |
| Backfill.ExecutionInputFields | src/Amazon.GenAI.ImageIngestion/src/Amazon.GenAI.ImageIngestion/ListAndFilterS3Objects.cs:104-111 | The execution input carries the key at `detail.object.key` and the bucket at `detail.bucket.name`, and leaves `detail.bucketName` null |
| Backfill.CheckAndStart | src/Amazon.GenAI.ImageIngestion/src/Amazon.GenAI.ImageIngestion/ListAndFilterS3Objects.cs:45-49 | A lookup always comes first. A lookup that throws ends the check with that error, and otherwise an execution is started iff the `(key, bucket)` pair is absent from the table. A start that throws ends it with that error |
| Backfill.WalkPage | src/Amazon.GenAI.ImageIngestion/src/Amazon.GenAI.ImageIngestion/ListAndFilterS3Objects.cs:61-70 | Every start follows the lookup of its own key, and that key was absent from the table. Lookups go to `DESTINATION_BUCKET` and starts use `bucketName`. The walk stops at the first lookup or start that throws, and every request before it was answered |
| Backfill.WalkPageStartsPending | src/Amazon.GenAI.ImageIngestion/src/Amazon.GenAI.ImageIngestion/ListAndFilterS3Objects.cs:61-70 | One walk over a page starts the listed `.jpg`/`.jpeg`/`.png` keys that are missing from the table, in listing order: all of them when nothing throws, and a prefix of them otherwise |
| Backfill.FunctionHandler | src/Amazon.GenAI.ImageIngestion/src/Amazon.GenAI.ImageIngestion/ListAndFilterS3Objects.cs:25-120 | A null context throws at the first log line, before any request. Otherwise a `.jpg`/`.png` key (in any letter case) starts at most one execution, and only when it is not in the table. Any other key, including a null or `.jpeg` key, lists the bucket. A failed listing, lookup or start is rethrown and ends the invocation, and the handler completes iff every lookup and start was answered. Without a failure, the listing repeats iff the first response carries a non-empty token |
| Backfill.DoWhileRepeats | src/Amazon.GenAI.ImageIngestion/src/Amazon.GenAI.ImageIngestion/ListAndFilterS3Objects.cs:55-74 | With a non-empty token the `do … while` never exits: after `n` iterations it has issued the same round `n` times. An empty token exits after one round |
| Backfill.HandlerFollowsLoop | src/Amazon.GenAI.ImageIngestion/src/Amazon.GenAI.ImageIngestion/ListAndFilterS3Objects.cs:55-74 | The handler's outcome is the loop's outcome. If it repeats, no number of iterations ever exits |
| Backfill.AsWrittenRestartsForever | src/Amazon.GenAI.ImageIngestion/src/Amazon.GenAI.ImageIngestion/ListAndFilterS3Objects.cs:55-74 | A listing of one new `.jpg` that carries a continuation token makes the handler start the same execution over and over |
| Backfill.WalkAllStartsPending | src/Amazon.GenAI.ImageIngestion/src/Amazon.GenAI.ImageIngestion/ListAndFilterS3Objects.cs:55-74 | The corrected walk over a complete listing terminates. It starts exactly the pending keys of all pages, and each start follows its own lookup |
| Backfill.CorrectedHandlerAgrees | src/Amazon.GenAI.ImageIngestion/src/Amazon.GenAI.ImageIngestion/ListAndFilterS3Objects.cs:25-90 | On a single page with no continuation token, the corrected handler behaves exactly as the handler as written, with or without a context |
| Backfill.WalkAllStopsAtFailure | src/Amazon.GenAI.ImageIngestion/src/Amazon.GenAI.ImageIngestion/ListAndFilterS3Objects.cs:55-100 | Over a complete listing, the corrected walk completes iff every lookup and start was answered. Otherwise it ends with the request that threw, and the error is that request's |
| Backfill.CorrectedHandlerStartsPending | src/Amazon.GenAI.ImageIngestion/src/Amazon.GenAI.ImageIngestion/ListAndFilterS3Objects.cs:52-74 | In the listing branch, the corrected handler starts a prefix of the image keys that are missing from the table under `DESTINATION_BUCKET`. When it completes, it has started exactly those keys |
| Backfill.CorrectedHandlerStopsAtFailure | src/Amazon.GenAI.ImageIngestion/src/Amazon.GenAI.ImageIngestion/ListAndFilterS3Objects.cs:52-120 | In the listing branch, the corrected handler completes iff every lookup and start was answered, and otherwise rethrows the error of the request that threw |
| S3Metadata.StringOf | src/Amazon.GenAI/Abstractions/S3Wrapper.cs:79 | `GetString` succeeds exactly on strings and JSON null, and it gives null exactly for JSON null |
| S3Metadata.AttributesOf | src/Amazon.GenAI/Abstractions/S3Wrapper.cs:74-80 | One entry per property name, where a repeated name keeps its last value. The extraction fails iff some value is neither a string nor null |
| S3Metadata.ProcessJson | src/Amazon.GenAI/Abstractions/S3Wrapper.cs:69-88 | A file contributes nothing exactly when its root object has no `metadataAttributes`. Otherwise it contributes that member's attributes |
| S3Metadata.ProcessKey | src/Amazon.GenAI/Abstractions/S3Wrapper.cs:37-43 | A key is downloaded from the bucket exactly when it ends in the extension. The key fails exactly when that download fails or the file does not parse |
| S3Metadata.ProcessKeys | src/Amazon.GenAI/Abstractions/S3Wrapper.cs:35-44 | Every download is a `GetObject` from the given bucket of a key that ends in the extension. The page succeeds exactly when every matching file downloads and parses |
| S3Metadata.KeysOkAll | src/Amazon.GenAI/Abstractions/S3Wrapper.cs:35-44 | A page's keys are all fine exactly when each key, read by index, is fine |
| S3Metadata.ProcessKeysResult | src/Amazon.GenAI/Abstractions/S3Wrapper.cs:35-44 | On a page whose files are all fine, the keys downloaded are exactly the matching keys in listing order. The result is the parsed attributes of those files that have them |
| S3Metadata.Loop | src/Amazon.GenAI/Abstractions/S3Wrapper.cs:31-47 | Every request goes to the given bucket, the first being a listing with the starting token, and every download matches the extension |
| S3Metadata.GetMetaDataFromS3 | src/Amazon.GenAI/Abstractions/S3Wrapper.cs:21-50 | The prefix is ignored and the listing starts with no token at the bucket root. Only keys that end in the extension, in any letter case, are downloaded |
| S3Metadata.LoopCollectsAll | src/Amazon.GenAI/Abstractions/S3Wrapper.cs:31-49 | Over a complete listing, the result holds every matching file's attributes in listing order across pages |
| S3Metadata.LoopRound | src/Amazon.GenAI/Abstractions/S3Wrapper.cs:31-48 | One round of the listing loop: the request carries the current token, and a truncated response hands its `NextContinuationToken` to the next request |
| S3Metadata.LoopCarriesTokens | src/Amazon.GenAI/Abstractions/S3Wrapper.cs:46-47 | The listing requests carry the starting token, then each truncated response's `NextContinuationToken`, in order |
| Classifications.Normalise | src/Amazon.GenAI.ImageIngestion/src/Amazon.GenAI.ImageIngestion/ClassificationRetriever.cs:39-42 | A normalised label has no capitals, and it is `""` exactly when the piece was all whitespace |
| Classifications.Pieces | src/Amazon.GenAI.ImageIngestion/src/Amazon.GenAI.ImageIngestion/ClassificationRetriever.cs:38-39 | One label per non-empty comma-separated piece, each normalised, in order |
| Classifications.ItemLabels | src/Amazon.GenAI.ImageIngestion/src/Amazon.GenAI.ImageIngestion/ClassificationRetriever.cs:35-36 | An item without a string `classifications` attribute contributes no labels |
| Classifications.ScanCount | src/Amazon.GenAI.ImageIngestion/src/Amazon.GenAI.ImageIngestion/ClassificationRetriever.cs:46-47 | At least one scan is made, and scans stop at the first response without a `LastEvaluatedKey` |
| Classifications.ContainsIgnoreCase | src/Amazon.GenAI.ImageIngestion/src/Amazon.GenAI.ImageIngestion/ClassificationRetriever.cs:27 | The hash set's lookup finds a label iff some stored label equals it ignoring case |
| Classifications.Add | src/Amazon.GenAI.ImageIngestion/src/Amazon.GenAI.ImageIngestion/ClassificationRetriever.cs:42 | After an add, the set holds the old labels plus the new one, all lowercase and pairwise distinct ignoring case |
| Classifications.GetUniqueClassifications | src/Amazon.GenAI.ImageIngestion/src/Amazon.GenAI.ImageIngestion/ClassificationRetriever.cs:19-52 | Scanning continues while `LastEvaluatedKey` is non-empty, and a scan that throws ends the call with its error. Otherwise the result is exactly the normalised labels of every scanned page, and nothing else. Labels are lowercase and no two are equal ignoring case |
| Classifications.BlankPieceIsEmptyLabel | src/Amazon.GenAI.ImageIngestion/src/Amazon.GenAI.ImageIngestion/ClassificationRetriever.cs:38-39 | For any list of parts, `""` is among the normalised non-empty parts exactly when some part is non-empty but all whitespace |
| Classifications.EmptyLabel | src/Amazon.GenAI.ImageIngestion/src/Amazon.GenAI.ImageIngestion/ClassificationRetriever.cs:38-39 | `""` is a label exactly when some comma-separated piece is non-empty but all whitespace |
| VectorRecords.CollectionId | src/Amazon.GenAI/Abstractions/OpenSearch/OpenSearchServerlessVectorStore.cs:31 | The id is the non-empty run of non-`/` characters after the ARN's last `/`. It is `""` when the ARN has no `/` or ends in one |
| VectorRecords.CollectionIdOfArn | src/Amazon.GenAI.ImageIngestion/src/Amazon.GenAI.ImageIngestion/AddToOpenSearch.cs:176 | The id is recovered from any ARN of the form `prefix/id` |
| VectorRecords.EndpointOfArn | src/Amazon.GenAI/Abstractions/OpenSearch/OpenSearchServerlessVectorStore.cs:31-32 | The endpoint built from `…/{id}` has the host `{id}.{region}.aoss.amazonaws.com` |
| VectorRecords.EnsureIndex | src/Amazon.GenAI/Abstractions/OpenSearch/OpenSearchServerlessVectorStore.cs:37-41 | An existence check always comes first, and the index is created iff it is missing |
| VectorRecords.Buffer | src/Amazon.GenAI/Abstractions/OpenSearch/OpenSearchServerlessVectorStore.cs:88-92 | An embedding no longer than the buffer is copied to its front and the rest is zero. A longer one overruns the buffer and throws |
| VectorRecords.AssembleVector | src/Amazon.GenAI/Abstractions/OpenSearch/OpenSearchServerlessVectorStore.cs:85-101 | Null responses are skipped. The vector's length is `Dimensions` times the number of kept responses, and it fails iff a kept response is longer than `Dimensions` |
| VectorRecords.AssembleVectorBlocks | src/Amazon.GenAI/Abstractions/OpenSearch/OpenSearchVectorStore.cs:66-83 | The `k`-th kept response fills exactly the `k`-th `Dimensions`-sized block of the vector, zero-padded |
| VectorRecords.ParseAll | src/Amazon.GenAI.ImageIngestion/src/Amazon.GenAI.ImageIngestion/AddToOpenSearch.cs:143 | Parsing succeeds iff every piece does, giving one number per piece in order |
| VectorRecords.ParseEmbeddings | src/Amazon.GenAI.ImageIngestion/src/Amazon.GenAI.ImageIngestion/AddToOpenSearch.cs:140-143 | After the outer brackets are stripped, the component count is the number of commas plus one. Any failure is a format error |
| VectorRecords.EmptyBracketsFail | src/Amazon.GenAI.ImageIngestion/src/Amazon.GenAI.ImageIngestion/AddToOpenSearch.cs:142-143 | `"[]"` leaves one empty piece, which fails to parse |
| VectorRecords.GetInputValues | src/Amazon.GenAI.ImageIngestion/src/Amazon.GenAI.ImageIngestion/AddToOpenSearch.cs:109-155 | A missing `key` throws. `imageText` and `classifications` default to `""`. `textEmbeddings` is always empty, and `imageEmbeddings` is empty when absent. The call fails iff the embeddings text is present and does not parse |
| VectorRecords.FirstGenAi | src/Amazon.GenAI.ImageIngestion/src/Amazon.GenAI.ImageIngestion/AddToOpenSearch.cs:162-165 | The first collection whose name contains `dotnet-genai`, or none iff no name does |
| VectorRecords.CreateClient | src/Amazon.GenAI.ImageIngestion/src/Amazon.GenAI.ImageIngestion/AddToOpenSearch.cs:157-183 | The endpoint is derived from the first matching collection's ARN with the region fixed to us-west-2. With no match it throws, and a failed listing is rethrown |
| VectorRecords.AddToOpenSearch | src/Amazon.GenAI.ImageIngestion/src/Amazon.GenAI.ImageIngestion/AddToOpenSearch.cs:26-80 | A null context throws, and so does a missing `key`. The index is created iff it is missing. The last request is one bulk record with path `DISTRIBUTION_DOMAIN_NAME + "/" + key`, and an invalid bulk response throws its debug text |
| VectorRecords.GetImageEmbeddings | src/Amazon.GenAI.ImageIngestion/src/Amazon.GenAI.ImageIngestion/GetImageEmbeddings.cs:14-64 | `key` is checked, then `origBucketName`. A response without an embedding returns null. Otherwise the output echoes both inputs and holds one 1024-slot vector: the embedding zero-padded, where a longer one overruns and throws |
| VectorRecords.OpenServerlessStore | src/Amazon.GenAI/Abstractions/OpenSearch/OpenSearchServerlessVectorStore.cs:19-58 | A null ARN throws. Otherwise the endpoint comes from the ARN's id and the region, and the index is created iff it is missing |
| VectorRecords.OpenStore | src/Amazon.GenAI/Abstractions/OpenSearch/OpenSearchVectorStore.cs:34-38 | The index is created iff it is missing |
| VectorRecords.MetadataString | src/Amazon.GenAI/Abstractions/OpenSearch/OpenSearchServerlessVectorStore.cs:100 | Reading a metadata entry succeeds iff the name is present; a missing name throws `KeyNotFoundException` |
| VectorRecords.Gather | src/Amazon.GenAI/Abstractions/OpenSearch/OpenSearchServerlessVectorStore.cs:79-81 | The chunk requests succeed together exactly when every request is answered, and then the responses come back in request order. Otherwise the error is that of the first request that threw |
| VectorRecords.TextDocument | src/Amazon.GenAI/Abstractions/OpenSearch/OpenSearchServerlessVectorStore.cs:70-102 | A document is skipped exactly when its trimmed text is empty. A non-blank document whose embedding requests throw fails with the first request's error |
| VectorRecords.TextDocumentRecord | src/Amazon.GenAI/Abstractions/OpenSearch/OpenSearchServerlessVectorStore.cs:70-102 | A stored document issues one embedding request per chunk, each of the whole text. Its record keeps the original text and the `path` metadata, and its vector is assembled from those responses. A non-blank document is stored exactly when every embedding request is answered, the vector assembles and `path` is present |
| VectorRecords.NonBlankDocs | src/Amazon.GenAI/Abstractions/OpenSearch/OpenSearchVectorStore.cs:53-54 | Exactly the documents whose trimmed text is non-empty |
| VectorRecords.StoreText | src/Amazon.GenAI/Abstractions/OpenSearch/OpenSearchVectorStore.cs:49-85 | Storing succeeds exactly when the first document and then each later one is stored or skipped without an error |
| VectorRecords.AllStoredAt | src/Amazon.GenAI/Abstractions/OpenSearch/OpenSearchVectorStore.cs:49-85 | Storing succeeds exactly when every document, taken on its own, succeeds |
| VectorRecords.StoreTextIssues | src/Amazon.GenAI/Abstractions/OpenSearch/OpenSearchServerlessVectorStore.cs:70-108 | The embedding requests sent are those of the non-blank documents, in order: all of them, or those up to and including the first document that fails. The failing document has sent every chunk request, because `Task.WhenAll` waits for all of them |
| VectorRecords.StoreTextError | src/Amazon.GenAI/Abstractions/OpenSearch/OpenSearchServerlessVectorStore.cs:70-108 | When the loop fails, its error is that of the first document that fails |
| VectorRecords.StoreTextRecords | src/Amazon.GenAI/Abstractions/OpenSearch/OpenSearchVectorStore.cs:49-85 | When storing succeeds there is one record per non-blank document, in order, each the record that document produces. The requests are those of the non-blank documents only, in order |
| VectorRecords.AddTextDocuments | src/Amazon.GenAI/Abstractions/OpenSearch/OpenSearchServerlessVectorStore.cs:60-114 | Every input document's text is returned in input order, skipped documents included. On success the requests are the non-blank documents' embedding requests, then one bulk request carrying a record per non-blank document. On failure the error is the first failing document's, the requests are the embedding requests of the non-blank documents up to and including it, and no bulk request is sent |
| VectorRecords.EmbeddingFailureStopsBulk | src/Amazon.GenAI/Abstractions/OpenSearch/OpenSearchServerlessVectorStore.cs:60-114 | An embedding request of any non-blank document that throws makes the whole call fail, on that document or an earlier one, and no bulk request is sent |
| VectorRecords.ImageDocument | src/Amazon.GenAI/Abstractions/OpenSearch/OpenSearchServerlessVectorStore.cs:185-220 | A missing `base64` entry throws, and so does a null one. After a present one, an embedding request that throws fails the document with the first such error |
| VectorRecords.ImageDocumentRecord | src/Amazon.GenAI/Abstractions/OpenSearch/OpenSearchServerlessVectorStore.cs:185-220 | A document is stored exactly when its `base64` entry is present and non-null, every embedding request is answered, the vector assembles and `path` is present. Its requests then send the decoded image with the whole text, one per chunk, and its record keeps the text, the path, the base64 text and the vector assembled from the responses |
| VectorRecords.ImageRecords | src/Amazon.GenAI/Abstractions/OpenSearch/OpenSearchServerlessVectorStore.cs:181-227 | Building succeeds exactly when the first document and then each later one succeeds, and then there is one record per document |
| VectorRecords.ImageRecordsAt | src/Amazon.GenAI/Abstractions/OpenSearch/OpenSearchServerlessVectorStore.cs:181-227 | Building succeeds exactly when every document succeeds on its own, including all of its embedding requests |
| VectorRecords.ImageRecordsValues | src/Amazon.GenAI/Abstractions/OpenSearch/OpenSearchServerlessVectorStore.cs:181-227 | When building succeeds, the records are in document order, each the one its document produces |
| VectorRecords.ImageRecordsIssue | src/Amazon.GenAI/Abstractions/OpenSearch/OpenSearchServerlessVectorStore.cs:185-218 | The embedding requests sent are those of the documents up to and including the first that fails, or of all of them. A document whose `base64` entry is missing or null sends none, and any other sends every chunk request |
| VectorRecords.ImageRecordsError | src/Amazon.GenAI/Abstractions/OpenSearch/OpenSearchServerlessVectorStore.cs:185-218 | When building fails, its error is that of the first document that fails |
| VectorRecords.SearchDocuments | src/Amazon.GenAI/Abstractions/OpenSearch/OpenSearchVectorStore.cs:171-176 | Hits whose text is null or whitespace are dropped, and every other hit's text is kept |
| VectorRecords.SearchKeepsOrder | src/Amazon.GenAI/Abstractions/OpenSearch/OpenSearchVectorStore.cs:172-176 | The surviving texts are in hit order: filtering a concatenation concatenates the filtered parts |
| ModelBodies.OptString | src/Amazon.GenAI/Abstractions/Bedrock/AnthropicClaude.cs:47 | A null string becomes a JSON null, and any other string is kept |
| ModelBodies.Claude3Body | src/Amazon.GenAI.ImageIngestionLambda/src/Abstractions/AnthropicClaude3.cs:7-51 | Version `bedrock-2023-05-31` and 8000 output tokens. There is one `user` message whose first part is the text; an image adds exactly one second part, with `media_type` defaulting to `image/jpeg` and `data` as the base64 of the bytes |
| ModelBodies.ClaudeBody | src/Amazon.GenAI/Abstractions/Bedrock/AnthropicClaude.cs:11-54 | The fixed fields are version, 2048 tokens, `top_p` 1 and `temperature` 0, with the same message shape. `media_type` is copied with no fallback |
| ModelBodies.ClaudeImageRoundTrip | src/Amazon.GenAI.ImageIngestionLambda/src/Abstractions/AnthropicClaude3.cs:34-43 | Decoding either Claude body's image `data` gives back exactly the bytes given, and a body has no image source iff none was given |
| ModelBodies.TitanBody | src/Amazon.GenAI.ImageIngestionLambda/src/Abstractions/AmazonTitanEmbedding.cs:7-19 | `inputText` is the prompt. There is one key without an image, and two with one, where `inputImage` is the base64 of the bytes |
| ModelBodies.TitanBodyWithNull | src/Amazon.GenAI/Abstractions/Bedrock/AmazonTitanEmbedding.cs:7-22 | There are always exactly two keys. `inputImage` is null iff no image is given, and otherwise it is the base64 of the bytes |
| ModelBodies.TitanImageRoundTrip | src/Amazon.GenAI.ImageIngestion/src/Amazon.GenAI.ImageIngestion/Abstractions/Bedrock/AmazonTitanEmbedding.cs:7-19 | Every Titan body carries back exactly the image it was given |
| Base64.DecodeEncode | src/Amazon.GenAI.ImageIngestionLambda/src/Abstractions/AnthropicClaude3.cs:43 | Decoding undoes the base64 encoding of any bytes |
| KbLambda.Name | src/Amazon.GenAI.KbLambda/src/Amazon.GenAI.KbLambda/Create.cs:29 | A resource name is the prefix, `-`, then the suffix, and both parts can be read back from it |
| KbLambda.ParameterNamesDiffer | src/Amazon.GenAI.KbLambda/src/Amazon.GenAI.KbLambda/Create.cs:62-80 | Parameters of one resource with different leaves have different names |
| KbLambda.StoreParameter | src/Amazon.GenAI.KbLambda/src/Amazon.GenAI.KbLambda/Create.cs:292-315 | A non-null value makes one PutParameter of `"/" + name`. It succeeds iff the service accepts it, and then overwrites that entry. A refused put is rethrown with the service's error and stores nothing. A null value fails with the service's validation error and stores nothing. Every other entry is unchanged |
| KbLambda.StoreParameterOverwrites | src/Amazon.GenAI.KbLambda/src/Amazon.GenAI.KbLambda/Create.cs:303 | The stored value does not depend on what was there before |
| KbLambda.ReadParameter | src/Amazon.GenAI.KbLambda/src/Amazon.GenAI.KbLambda/SmsParameters.cs:8-24 | One GetParameter request, which changes nothing. It succeeds iff the name is stored and the request is answered, and then returns the stored value. A missing name fails with `ParameterNotFound`, and a failed request is rethrown with its own error |
| KbLambda.StoreAll | src/Amazon.GenAI.KbLambda/src/Amazon.GenAI.KbLambda/Create.cs:62-80 | Consecutive stores succeed iff every entry's put completes, with a non-null value the service accepts. They make at most one request per entry, and exactly one each on success |
| KbLambda.StoreAllCalls | src/Amazon.GenAI.KbLambda/src/Amazon.GenAI.KbLambda/Create.cs:62-80 | The `i`-th request is the put of the `i`-th entry's parameter with its value |
| KbLambda.StoreAllFails | src/Amazon.GenAI.KbLambda/src/Amazon.GenAI.KbLambda/Create.cs:62-80 | A failure is that of the first entry whose put does not complete. It comes after the puts of the entries before it, plus that entry's own put when its value is non-null |
| KbLambda.StoreAllFrame | src/Amazon.GenAI.KbLambda/src/Amazon.GenAI.KbLambda/Create.cs:62-80 | Only the entries' own parameters can change |
| KbLambda.StoreAllRecords | src/Amazon.GenAI.KbLambda/src/Amazon.GenAI.KbLambda/Create.cs:62-80 | When every put completes and the leaves are distinct, each parameter holds its own entry's value |
| KbLambda.StoreCollection | src/Amazon.GenAI.KbLambda/src/Amazon.GenAI.KbLambda/Create.cs:62-80 | Four puts record the collection's id, ARN, name and endpoint under `/{p}-{s}/…`. This succeeds iff all four are non-null and every put is accepted, and then makes four requests and stores all four values. Otherwise the first put that does not complete is rethrown |
| KbLambda.Poll | src/Amazon.GenAI.KbLambda/src/Amazon.GenAI.KbLambda/Create.cs:37-96 | Polling runs up to and including the first attempt that fails or sees `ACTIVE`, and never more than 30 attempts. With no such attempt it returns an empty detail and stores nothing. A failed poll is rethrown. An active one stores its first collection and returns it, or rethrows the failure of the first put that does not complete |
| KbLambda.PollBound | src/Amazon.GenAI.KbLambda/src/Amazon.GenAI.KbLambda/Create.cs:37-40 | At most 30 status requests |
| KbLambda.PollExhausted | src/Amazon.GenAI.KbLambda/src/Amazon.GenAI.KbLambda/Create.cs:86-96 | When no poll settles, exactly 30 polls are made and an empty detail is returned with the store unchanged |
| KbLambda.PollStopsAtFirstActive | src/Amazon.GenAI.KbLambda/src/Amazon.GenAI.KbLambda/Create.cs:53-82 | The first active poll `k` ends the loop after `k+1` polls. The loop returns that collection iff its four puts complete, after four stores, and its id is then stored. Otherwise it rethrows the failure of the collection's first put that does not complete |
| KbLambda.PollCallCount | src/Amazon.GenAI.KbLambda/src/Amazon.GenAI.KbLambda/Create.cs:40-82 | A successful active poll makes the polls up to the settling one plus four stores |
| KbLambda.RecordKnowledgeBase | src/Amazon.GenAI.KbLambda/src/Amazon.GenAI.KbLambda/Create.cs:216-233 | The id and ARN are put iff the response, the knowledge base, its id and its ARN are all non-null, and otherwise nothing is requested or changed. A refused id put is rethrown after one request, and a refused ARN put after two. On success both are stored and the response is returned unchanged. No other parameter changes |
| KbLambda.RecordDataSource | src/Amazon.GenAI.KbLambda/src/Amazon.GenAI.KbLambda/Create.cs:272-283 | `dataSourceId` is put, in one request, iff it is present. A refused put is rethrown and stores nothing. On success the id is stored and the response is returned unchanged |
| KbLambda.SettingsOf | src/Amazon.GenAI.KbLambda/src/Amazon.GenAI.KbLambda/Function.cs:25-31 | Every unset variable reads as `""` |
| KbLambda.Policies | src/Amazon.GenAI.KbLambda/src/Amazon.GenAI.KbLambda/Create.cs:317-491 | The access (`data`), network and encryption policies are created in that order under the name `{p}-{s}`. The first failure stops the sequence and is rethrown |
| KbLambda.MakeCollection | src/Amazon.GenAI.KbLambda/src/Amazon.GenAI.KbLambda/Create.cs:18-97 | One CreateCollection of type `VECTORSEARCH` named `{p}-{s}`, then polling on the returned id |
| KbLambda.MakeIndex | src/Amazon.GenAI.KbLambda/src/Amazon.GenAI.KbLambda/Create.cs:99-162 | A null host throws before any request. Otherwise one index `{p}-{s}` is created with vector field `{p}-vector` and dimension 1536 |
| KbLambda.StartDataSync | src/Amazon.GenAI.KbLambda/src/Amazon.GenAI.KbLambda/Function.cs:217-228 | A data-source response without a data source throws before any request. Otherwise one ingestion job starts for the knowledge base and data-source ids |
| KbLambda.SourceAndSync | src/Amazon.GenAI.KbLambda/src/Amazon.GenAI.KbLambda/Function.cs:93-100 | On success, the data source is created for the knowledge base id, then the ingestion job starts |
| KbLambda.AfterCollection | src/Amazon.GenAI.KbLambda/src/Amazon.GenAI.KbLambda/Function.cs:79-100 | A collection without an endpoint throws. On success, the index, knowledge base, data source and ingestion steps follow in order |
| KbLambda.CreateAll | src/Amazon.GenAI.KbLambda/src/Amazon.GenAI.KbLambda/Function.cs:56-100 | On success, the resource-creating requests are, in order: the three policies, the collection, the index on its endpoint, the knowledge base on its ARN, the data source, then ingestion. A failed access policy stops everything and is rethrown |
| KbLambda.FunctionHandler | src/Amazon.GenAI.KbLambda/src/Amazon.GenAI.KbLambda/Function.cs:19-215 | A null context throws. Each normal return has status `SUCCESS`, the fixed physical id and empty data, with the stack, request and logical ids echoed. Only `Create` makes requests, and any exception is rethrown |
| KbLambda.HandlerReasons | src/Amazon.GenAI.KbLambda/src/Amazon.GenAI.KbLambda/Function.cs:111-193 | `Create`, `Update` and `Delete` each get their own fixed reason, and any other request type leaves the reason null |
| KbLambda.DeleteAccess | src/Amazon.GenAI.KbLambda/src/Amazon.GenAI.KbLambda/Delete.cs:12-35 | The access policy is deleted by type `data`. A failed delete is rethrown with its own error, and the store is untouched |
| KbLambda.DeleteSecurity | src/Amazon.GenAI.KbLambda/src/Amazon.GenAI.KbLambda/Delete.cs:37-60 | A security policy is deleted by the caller's type. A failed delete is rethrown with its own error, and the store is untouched |
| KbLambda.DeleteCollectionByName | src/Amazon.GenAI.KbLambda/src/Amazon.GenAI.KbLambda/Delete.cs:62-83 | The id is read from `/{p}-{s}/collectionId`. The delete follows iff that parameter exists and the read is answered. A missing parameter fails with `ParameterNotFound`, and a failed read or delete is rethrown. The call succeeds iff both requests do, and the store is untouched |
| KbLambda.DeleteKnowledgeBaseByName | src/Amazon.GenAI.KbLambda/src/Amazon.GenAI.KbLambda/Delete.cs:85-106 | The id is read from `/{p}-{s}/knowledgeBaseId`. The delete follows iff that parameter exists and the read is answered. A missing parameter fails with `ParameterNotFound`, and a failed read or delete is rethrown. The call succeeds iff both requests do, and the store is untouched |
| KbLambda.DeleteFindsPolicies | src/Amazon.GenAI.KbLambda/src/Amazon.GenAI.KbLambda/Delete.cs:12-47 | Although the arguments arrive suffix first, Delete addresses the same three policies, with the same names and types, that Create made |
| KbLambda.DeleteFindsCollection | src/Amazon.GenAI.KbLambda/src/Amazon.GenAI.KbLambda/Delete.cs:70 | Delete reads back the collection id that polling stored and deletes that collection |
| KbLambda.DeleteFindsKnowledgeBase | src/Amazon.GenAI.KbLambda/src/Amazon.GenAI.KbLambda/Delete.cs:93 | Delete reads back the knowledge base id that Create stored and deletes that knowledge base |
| ChatHistory.Stored | src/Amazon.GenAI/Abstractions/ChatHistory/ChatMessageHistory.cs:26 | A stored message keeps its content and role. The library's history changes only the time, and the test project's keeps the message as it is |
| ChatHistory.AddMessage | src/Amazon.GenAI/Abstractions/ChatHistory/ChatMessageHistory.cs:22-31 | One element is appended at the end iff the predicate accepts the message, and earlier elements are untouched. Otherwise the history is unchanged |
| ChatHistory.AddMessages | src/Amazon.GenAI/Abstractions/ChatHistory/BaseChatMessageHistory.cs:56-64 | Null throws and adds nothing. Otherwise it is `AddMessage` applied to each element in order |
| ChatHistory.SetMessages | src/Amazon.GenAI/Abstractions/ChatHistory/BaseChatMessageHistory.cs:73-79 | Null throws before `Clear`, so the history is untouched. Otherwise the history is cleared, then refilled with the accepted messages |
| ChatHistory.KeptAcceptAll | src/Amazon.GenAI/Abstractions/ChatHistory/ChatMessageHistory.cs:16 | Under the default predicate every message is kept, in order. The test project's history then holds exactly the messages given |
| ChatHistory.KeptRejects | src/Amazon.GenAI/Abstractions/ChatHistory/BaseChatMessageHistory.cs:60-63 | A rejected message leaves the history as it was |
| ChatHistory.AddUserMessage | src/Amazon.GenAI/Abstractions/ChatHistory/BaseChatMessageHistory.cs:23-26 | At most one message is appended: the text as a human message, iff it is accepted |
| ChatHistory.AddAiMessageBase | src/Amazon.GenAI/Abstractions/ChatHistory/BaseChatMessageHistory.cs:38-41 | At most one message is appended: the text as an AI message, iff it is accepted |
| ChatHistory.AddAiMessageText | src/Amazon.GenAI/Abstractions/ChatHistory/ChatMessageHistory.cs:40-51 | The predicate is asked about an empty default message, and the stored message has the text, the time and role `System` |
| ChatHistory.AddAiMessageTextDiscards | src/Amazon.GenAI/Abstractions/ChatHistory/ChatMessageHistory.cs:42-48 | A predicate that refuses empty messages makes the override drop a text that the base method keeps, and an accepted text is stored as `System` |
| ChatHistory.AddAiMessageCorrected | src/Amazon.GenAI/Abstractions/ChatHistory/ChatMessageHistory.cs:40-51 | The predicate sees the AI message that is stored, and the stored message has the text, role `Ai` and the time |
| ChatHistory.AddAiMessageValue | src/Amazon.GenAI/Abstractions/ChatHistory/ChatMessageHistory.cs:53-63 | Null throws at `.Value` with nothing appended. Otherwise the message, stamped with the time, is appended iff it is accepted |
| ChatHistory.AddAiMessageValueIsAddMessage | src/Amazon.GenAI/Abstractions/ChatHistory/ChatMessageHistory.cs:53-63 | On a present message it is the library's `AddMessage` |
| Naming.ToHyphenCase | src/Amazon.GenAI.Cdk/Constants.cs:39-42 | The output has no upper-case letters |
| Naming.ToHyphenCaseLength | src/Amazon.GenAI.Cdk/Constants.cs:41 | Output length is the input length plus the number of capitals after the first character |
| Naming.ToHyphenCaseAt | src/Amazon.GenAI.Cdk/Constants.cs:41 | Each character appears lowercased at its shifted position. Every capital after index 0, consecutive ones included, is preceded by its own `-` |
| Naming.ToHyphenCaseFixes | src/Amazon.GenAI.Cdk/Constants.cs:41 | A string with no capitals maps to itself |
| Naming.ToHyphenCaseIdempotent | src/Amazon.GenAI.Cdk/Constants.cs:41 | Applying the conversion twice is applying it once |
| Naming.AppNameIsHyphenCase | src/Amazon.GenAI.Cdk/Constants.cs:8 | `dotnet-genai` maps to itself |
| KeyCondition.BuildQuery | src/TestProject1/UnitTest1.cs:317-376 | An empty key schema throws `Table has no key schema`. Otherwise the condition is the `#attr_N = :value_N` clauses joined by ` AND ` in key-schema order, with the name and value bindings collected over the schema |
| KeyCondition.QueryBindings | src/TestProject1/UnitTest1.cs:343-369 | Every key attribute N has `#attr_N` bound to N. `:value_N` is bound, to the key or the bucket name, iff N is `key` or `bucketname` ignoring case |
| KeyCondition.TwoClauseCondition | src/TestProject1/UnitTest1.cs:362-366 | A two-attribute schema gives `clause1 AND clause2` |
| KeyCondition.PollUntilActive | src/TestProject1/UnitTest1.cs:91-127 | Between 1 and 30 status requests are made. No poll before the last settles, and stopping early means the last one did. An active last poll records its first collection, and a failed one is rethrown |
| KeyCondition.CreateCollection | src/TestProject1/UnitTest1.cs:72-134 | One create request is made, then polling as above. A failed create is rethrown with no poll |
| KeyCondition.CreateIndexWrapper | src/TestProject1/UnitTest1.cs:150-214 | The collection is created first if the detail has no endpoint. A missing endpoint, or one `new Uri` rejects, throws before any index request. Otherwise there are at most `attempt + 1` index requests, each retried only after a refusal. The call succeeds iff the last request is acknowledged, and a final refusal means the budget is spent |

## Left out

- Network, SDK clients, credentials, logging, `Console` output, `Thread.Sleep`, `Guid.NewGuid` and `DateTime.Now` are not modelled. Fresh ids and clock readings are parameters instead, and so are the outcomes of the service calls the contracts name. Each call whose outcome is a parameter can fail in the model, and its failure is rethrown or caught as the code does. The throws the model does not reproduce are those named in the lines below.
- The event object a handler receives is never null here, while a null Lambda context is modelled. Nulls inside the event are modelled only where a member's row says so. The Handlers.S3EventHandler line below names the ones that handler does not model.
- Image decoding and resizing (ImageSharp) are left out. The resized image is whatever the upload receives.
- Floating-point values are out of scope: vector elements are an opaque type `F` with a given zero, and `float.Parse` is an oracle. The model states only that blank text never parses. `Score = 1.0` is kept as a literal. Each response is taken to hold an array of numbers under `embedding`, or nothing there. The throws of `AsArray()` on an `embedding` that is not an array, and of `(float)embedding[j]?.AsValue()!` on a null or non-numeric element, are not modelled. Those reads are in src/Amazon.GenAI/Abstractions/OpenSearch/OpenSearchServerlessVectorStore.cs:85-91 and 200-206, src/Amazon.GenAI/Abstractions/OpenSearch/OpenSearchVectorStore.cs:66-72 and src/Amazon.GenAI.ImageIngestion/src/Amazon.GenAI.ImageIngestion/GetImageEmbeddings.cs:42-48.
- .NET casing and whitespace are ASCII-only here. `ToLower`, `char.IsUpper`, `Trim` and `OrdinalIgnoreCase` follow the ASCII rules.
- The `$` of the ARN regex also matches before a trailing newline. ARNs are taken to have no newline.
- The text splitter (`RecursiveCharacterTextSplitter`) is given as a function from text to number of chunks. Only the number matters, because every chunk request embeds the whole text.
- `AsHumanMessage`/`AsAiMessage` are not part of this model. They are taken to set the content and the role.
- `Message.DateTime` is an opaque number.
- The serverless store's `SimilaritySearchByVectorAsync` is left out. Only the non-serverless store's result filter is modelled.
- The test project's `CreateKnowledgeBase`, `DoesIndexExist`, `DescribeTable` and `Query` response handling are left out. The key schema is a parameter.
- The CDK stacks other than the state machine are left out, as are the web UI, the MCP servers and the cleanup tests. They declare resources or call external services and make no decisions.
- Handlers.S3EventHandler: a null `Records` list, or a record whose `S3`, `Bucket` or `Object` is null, throws `NullReferenceException` before StartExecution. The model takes all of them as present. A null bucket name or key would be written as JSON `null` in the execution input, but the model takes both as strings.
- VectorRecords.ImageDocument: invalid base64 text in the `base64` metadata, which `Convert.FromBase64String` rejects, is not modelled as a failure. The text is taken to be well formed.
- VectorRecords.CreateClient: a collection list that is null is read as empty. The `Uri` format check on a non-null host is not modelled.
- KbLambda.MakeIndex: the `Uri` format check on a non-null host is not modelled. Only a null host throws.
- KbLambda.StoreParameter: a null value is modelled as the service's validation failure, without its exception text. No request is recorded for it, because a request's value is a string in the model.
- KbLambda.ReadParameter: a missing parameter fails with a service error named `ParameterNotFound`, not with the SDK's exception type.
- Handlers.AddImageMetadata: the put's outcome is no parameter, because a failed put is caught and only logged. The item's `Score` is the literal 1.0, not a verified floating-point value.
- StepFunctions.StateMachine: map-state concurrency is stated as the constant 10. Items run one after another in the model.
- Pipeline.RunMap: the iterations run concurrently, so which failed iteration's error fails the map depends on timing. The model reports the first failed item in item order, and it does not model iterations that are still running when the map fails.
- Pipeline.EvalSource: a path that selects JSON null fails here. In the deployed machine, the handler's `Dictionary<string, string>` would receive a null value for that name. Handler inputs are strings only in this model.

## Findings

| source | as written | input that shows it | evidently intended | confidence | as-written member | corrected member |
|---|---|---|---|---|---|---|
| src/Amazon.GenAI.Cdk/StepFunctionsBuilder.cs:48 | The inference task reads `key` from `$[0].resizeResult.key`, but each map item's state is the object `{bucket, key, resizeResult}`. An array index selects nothing on an object, so the task fails with a States.Runtime error for every item | Any item `{bucket: "b", key: "k"}` whose resize succeeds | Read `$.resizeResult.key`, which the resize task has just written | high (not executed) | Pipeline.AsWrittenInferenceNeverRuns | Pipeline.CorrectedChainCompletes |
| src/Amazon.GenAI.ImageIngestion/src/Amazon.GenAI.ImageIngestion/ListAndFilterS3Objects.cs:55-74 | The listing is requested once, before the `do … while`. The loop sets the token on the request but never sends it again, so a non-empty continuation token re-walks the same page forever, restarting the same executions | A bucket with one new `a.jpg` whose first listing response carries `NextContinuationToken = "t"` | Request the next page inside the loop with the carried token, and stop when the token is empty | high (not executed) | Backfill.AsWrittenRestartsForever | Backfill.CorrectedHandlerStartsPending |
| src/Amazon.GenAI/Abstractions/ChatHistory/ChatMessageHistory.cs:42-48 | `AddAiMessage(string)` asks the predicate about `new Message()` with no content, then stores the text with the default role `System` | A predicate accepting only messages with content, and the text `"hello"`: nothing is stored, while the base class's `AddAiMessage` stores it | Ask the predicate about the AI message carrying the text, and store it with role `Ai` | medium (not executed) | ChatHistory.AddAiMessageTextDiscards | ChatHistory.AddAiMessageCorrected |
