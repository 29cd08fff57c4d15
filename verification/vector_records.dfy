/** Vector records and where they go: the OpenSearch Serverless endpoint
    derived from a collection ARN, the `AddToOpenSearch` handler, the image
    embedding handler with its fixed-size buffer, and the two vector stores'
    assembly of one vector per document. Embedding components are an opaque
    type `F` with a zero value `zero`: only lengths and positions are
    modelled. The services are oracles. */
module VectorRecords {
  import opened Wrappers
  import opened Text
  import Base64

  // ---------------------------------------------------------------------------
  // Collection ARN and endpoint
  // ---------------------------------------------------------------------------

  /** The longest suffix of `s` without a `/`. */
  function Tail(s: string): (r: string)
    ensures |r| <= |s| && s[|s| - |r|..] == r
    ensures '/' !in r
    ensures |r| < |s| ==> s[|s| - |r| - 1] == '/'
  {
    if |s| == 0 || s[|s| - 1] == '/' then ""
    else
      var t := Tail(s[..|s| - 1]);
      t + [s[|s| - 1]]
  }

  /** The match of `(?<=\/)[^\/]+$` in the ARN, or `""` when it does not
      match: the non-empty run of non-`/` characters after the last `/`. */
  function CollectionId(arn: string): (r: string)
    ensures '/' !in r
    ensures '/' !in arn ==> r == ""
    ensures r != "" ==> |r| < |arn| && arn[|arn| - |r| - 1] == '/' && arn[|arn| - |r|..] == r
    ensures '/' in arn && arn[|arn| - 1] != '/' ==> r != ""
  {
    if '/' in arn then Tail(arn) else ""
  }

  /** The id is recovered from any ARN that ends in `/` and the id. */
  lemma {:induction false} CollectionIdOfArn(prefix: string, id: string)
    requires '/' !in id
    ensures CollectionId(prefix + "/" + id) == id
  {
    var arn := prefix + "/" + id;
    assert arn[|prefix|] == '/';
    TailOfSuffix(prefix + "/", id);
  }

  lemma {:induction false} TailOfSuffix(p: string, id: string)
    requires |p| > 0 && p[|p| - 1] == '/' && '/' !in id
    ensures Tail(p + id) == id
    decreases |id|
  {
    if |id| == 0 {
      assert p + id == p;
    } else {
      var s := p + id;
      assert s[..|s| - 1] == p + id[..|id| - 1];
      TailOfSuffix(p, id[..|id| - 1]);
      assert id == id[..|id| - 1] + [id[|id| - 1]];
    }
  }

  const EndpointSuffix := ".aoss.amazonaws.com"

  /** `$"https://{id}.{region}.aoss.amazonaws.com"`. */
  function Endpoint(id: string, region: string): (r: string)
    ensures |r| == 8 + |id| + 1 + |region| + |EndpointSuffix|
  {
    "https://" + id + "." + region + EndpointSuffix
  }

  /** The host of the endpoint built from `…/{id}` is `{id}.{region}.aoss…`. */
  lemma EndpointOfArn(prefix: string, id: string, region: string)
    requires '/' !in id
    ensures Endpoint(CollectionId(prefix + "/" + id), region)[8..8 + |id|] == id
    ensures Endpoint(CollectionId(prefix + "/" + id), region)[8 + |id|] == '.'
  {
    CollectionIdOfArn(prefix, id);
    var e := Endpoint(id, region);
    assert e == "https://" + id + "." + region + EndpointSuffix;
    assert e[8..8 + |id|] == id;
  }

  // ---------------------------------------------------------------------------
  // Records, requests and buffers
  // ---------------------------------------------------------------------------

  datatype VectorRecord<F> = VectorRecord(text: Option<string>, path: Option<string>, base64: Option<string>,
                                          classifications: Option<string>, vector: seq<F>)

  /** A response to a request that reports validity, with its debug text. */
  datatype Response = Valid | Invalid(debugInformation: string)

  datatype Call<F> =
    | ListCollections
    | IndexExists(index: Option<string>)
    | CreateIndex(index: Option<string>, dimension: Option<nat>)
    | GetObject(bucket: Option<string>, key: string)
    | Embed(text: string, image: Option<seq<Base64.Byte>>)
    | Bulk(index: Option<string>, records: seq<VectorRecord<F>>)

  datatype Run<F, T> = Run(calls: seq<Call<F>>, result: Result<T>)

  /** `IndicesExists`, then `CreateIndex` only when the index is missing. */
  function EnsureIndex<F>(index: Option<string>, dimension: Option<nat>, present: bool): (r: seq<Call<F>>)
    ensures |r| >= 1 && r[0] == IndexExists(index)
    ensures |r| == 2 <==> !present
    ensures |r| == 1 || (|r| == 2 && r[1] == CreateIndex(index, dimension))
  {
    [IndexExists(index)] + (if present then [] else [CreateIndex(index, dimension)])
  }

  /** `new float[dims]` filled from `embedding[0..]`: zero-padded when
      shorter, and an `IndexOutOfRangeException` when longer. */
  function Buffer<F>(embedding: seq<F>, dims: nat, zero: F): (r: Result<seq<F>>)
    ensures r.Success? <==> |embedding| <= dims
    ensures r.Failure? ==> r.error == IndexOutOfRange
    ensures r.Success? ==> |r.value| == dims && r.value[..|embedding|] == embedding
    ensures r.Success? ==> forall i :: |embedding| <= i < dims ==> r.value[i] == zero
  {
    if |embedding| > dims then Failure(IndexOutOfRange)
    else Success(embedding + seq(dims - |embedding|, _ => zero))
  }

  /** How many responses carry an embedding. */
  function Kept<F>(responses: seq<Option<seq<F>>>): (r: nat)
    ensures r <= |responses|
  {
    if |responses| == 0 then 0
    else Kept(responses[..|responses| - 1]) + (if responses[|responses| - 1].Some? then 1 else 0)
  }

  /** The `foreach` over a document's embedding responses followed by
      `SelectMany`: null responses are skipped and each other one fills a
      fresh buffer of `Dimensions`; the buffers are concatenated in order.
      An unset `Dimensions` fails (`Nullable.Value`) as soon as a buffer is
      needed. */
  function AssembleVector<F>(responses: seq<Option<seq<F>>>, dims: Option<nat>, zero: F): (r: Result<seq<F>>)
    ensures r.Success? <==> forall i :: 0 <= i < |responses| && responses[i].Some? ==>
                              dims.Some? && |responses[i].value| <= dims.value
    ensures r.Success? && dims.Some? ==> |r.value| == dims.value * Kept(responses)
    ensures r.Success? && dims.None? ==> r.value == [] && Kept(responses) == 0
  {
    if |responses| == 0 then Success([])
    else
      var init := responses[..|responses| - 1];
      assert forall i :: 0 <= i < |init| ==> init[i] == responses[i];
      match AssembleVector(init, dims, zero)
      case Failure(e) => Failure(e)
      case Success(v) =>
        match responses[|responses| - 1]
        case None => Success(v)
        case Some(e) =>
          if dims.None? then Failure(InvalidOperation)
          else match Buffer(e, dims.value, zero)
            case Failure(err) => Failure(err)
            case Success(b) =>
              assert dims.value * Kept(init) + dims.value == dims.value * (Kept(init) + 1);
              Success(v + b)
  }

  /** Where the `k`-th block of `dims` components starts. */
  function Offset(dims: nat, k: nat): nat {
    dims * k
  }

  lemma SliceOfPrefix<T>(v: seq<T>, w: seq<T>, lo: nat, hi: nat)
    requires |w| <= |v| && v[..|w|] == w && lo <= hi <= |w|
    ensures v[lo..hi] == w[lo..hi]
  {
    assert forall j :: lo <= j < hi ==> v[j] == v[..|w|][j];
  }

  /** One step of the assembly: the last response either leaves the vector
      as it was or appends its buffer. */
  lemma AssembleVectorStep<F>(responses: seq<Option<seq<F>>>, dims: nat, zero: F)
    requires |responses| > 0 && AssembleVector(responses, Some(dims), zero).Success?
    ensures var init := responses[..|responses| - 1];
      var last := responses[|responses| - 1];
      var v := AssembleVector(responses, Some(dims), zero).value;
      AssembleVector(init, Some(dims), zero).Success?
      && (last.None? ==> v == AssembleVector(init, Some(dims), zero).value)
      && (last.Some? ==>
            Buffer(last.value, dims, zero).Success?
            && v == AssembleVector(init, Some(dims), zero).value + Buffer(last.value, dims, zero).value)
  {
    var init := responses[..|responses| - 1];
    assert forall j :: 0 <= j < |init| ==> init[j] == responses[j];
  }

  /** The `k`-th kept response occupies the `k`-th block of `Dimensions`
      components, zero-padded. */
  lemma {:induction false} AssembleVectorBlocks<F>(responses: seq<Option<seq<F>>>, dims: nat, zero: F, i: nat)
    requires AssembleVector(responses, Some(dims), zero).Success?
    requires i < |responses| && responses[i].Some?
    ensures var v := AssembleVector(responses, Some(dims), zero).value;
      var lo := Offset(dims, Kept(responses[..i]));
      lo + dims <= |v| && Buffer(responses[i].value, dims, zero) == Success(v[lo..lo + dims])
  {
    var n := |responses|;
    var init := responses[..n - 1];
    if i < n - 1 {
      AssembleVectorStep(responses, dims, zero);
      AssembleVectorBlocks(init, dims, zero, i);
      assert init[..i] == responses[..i];
      BlockSurvivesAppend(responses, dims, zero, Offset(dims, Kept(init[..i])));
    } else {
      assert responses[..i] == init;
      LastBlock(responses, dims, zero);
    }
  }

  /** A block of the vector so far is unchanged by the last response. */
  lemma BlockSurvivesAppend<F>(responses: seq<Option<seq<F>>>, dims: nat, zero: F, lo: nat)
    requires |responses| > 0 && AssembleVector(responses, Some(dims), zero).Success?
    requires AssembleVector(responses[..|responses| - 1], Some(dims), zero).Success?
    requires var w := AssembleVector(responses[..|responses| - 1], Some(dims), zero).value;
      lo + dims <= |w|
    ensures var w := AssembleVector(responses[..|responses| - 1], Some(dims), zero).value;
      var v := AssembleVector(responses, Some(dims), zero).value;
      lo + dims <= |v| && v[lo..lo + dims] == w[lo..lo + dims]
  {
    AssembleVectorStep(responses, dims, zero);
    var w := AssembleVector(responses[..|responses| - 1], Some(dims), zero).value;
    var v := AssembleVector(responses, Some(dims), zero).value;
    assert |w| <= |v| && v[..|w|] == w;
    SliceOfPrefix(v, w, lo, lo + dims);
  }

  /** The last response, when kept, fills the block after every earlier one. */
  lemma LastBlock<F>(responses: seq<Option<seq<F>>>, dims: nat, zero: F)
    requires |responses| > 0 && responses[|responses| - 1].Some?
    requires AssembleVector(responses, Some(dims), zero).Success?
    ensures var v := AssembleVector(responses, Some(dims), zero).value;
      var lo := Offset(dims, Kept(responses[..|responses| - 1]));
      lo + dims <= |v| && Buffer(responses[|responses| - 1].value, dims, zero) == Success(v[lo..lo + dims])
  {
    AssembleVectorStep(responses, dims, zero);
    var init := responses[..|responses| - 1];
    var w := AssembleVector(init, Some(dims), zero).value;
    var b := Buffer(responses[|responses| - 1].value, dims, zero).value;
    var v := AssembleVector(responses, Some(dims), zero).value;
    assert v == w + b;
    assert |w| == dims * Kept(init) && |b| == dims;
    assert v[|w|..|w| + dims] == b;
  }

  // ---------------------------------------------------------------------------
  // AddToOpenSearch
  // ---------------------------------------------------------------------------

  const IndexName := "my-images-index"
  const ImagesDimension := 1024
  const CollectionNamePart := "dotnet-genai"
  const HandlerRegion := "us-west-2"
  const KeyMissing := "Image key not provided in the input."

  /** What `GetInputValues` hands back. */
  datatype InputValues<F> = InputValues(key: string, imageText: string, textEmbeddings: seq<F>,
                                        imageEmbeddings: seq<F>, classifications: string)

  /** `float.Parse` on one piece: blank text is never a number, anything else
      is up to the `parse` oracle. */
  function ParseFloat<F>(piece: string, parse: string -> Option<F>): (r: Result<F>)
    ensures IsNullOrWhiteSpace(Some(piece)) ==> r == Failure(Format)
    ensures r.Failure? ==> r.error == Format
  {
    if IsNullOrWhiteSpace(Some(piece)) then Failure(Format)
    else match parse(piece)
      case None => Failure(Format)
      case Some(v) => Success(v)
  }

  function ParseAll<F>(pieces: seq<string>, parse: string -> Option<F>): (r: Result<seq<F>>)
    ensures r.Success? ==> |r.value| == |pieces|
    ensures r.Success? <==> forall i :: 0 <= i < |pieces| ==> ParseFloat(pieces[i], parse).Success?
    ensures r.Success? ==> forall i :: 0 <= i < |pieces| ==> Success(r.value[i]) == ParseFloat(pieces[i], parse)
    ensures r.Failure? ==> r.error == Format
  {
    if |pieces| == 0 then Success([])
    else
      assert forall i :: 1 <= i < |pieces| ==> pieces[i] == pieces[1..][i - 1];
      match ParseFloat(pieces[0], parse)
      case Failure(e) => Failure(e)
      case Success(v) =>
        match ParseAll(pieces[1..], parse)
        case Failure(e) => Failure(e)
        case Success(vs) => Success([v] + vs)
  }

  predicate IsBracket(c: char) {
    c == '[' || c == ']'
  }

  /** `s.Trim('[', ']').Split(',').Select(float.Parse)`. */
  function ParseEmbeddings<F>(s: string, parse: string -> Option<F>): (r: Result<seq<F>>)
    ensures r.Success? ==> |r.value| == Count(TrimBy(s, IsBracket), ',') + 1
    ensures r.Failure? ==> r.error == Format
  {
    var pieces := Split(TrimBy(s, IsBracket), ',');
    SplitJoin(TrimBy(s, IsBracket), ',');
    ParseAll(pieces, parse)
  }

  /** `"[]"` leaves one empty piece, which is not a number. */
  lemma EmptyBracketsFail<F>(parse: string -> Option<F>)
    ensures ParseEmbeddings("[]", parse) == Failure(Format)
  {
    assert TrimBy("[]", IsBracket) == "" by {
      var i := StartIndex("[]", IsBracket, 0);
      assert i == 2;
    }
    assert Split("", ',') == [""];
    assert ParseFloat("", parse) == Failure(Format);
  }

  /** `GetInputValues`: `key` is required, `imageText` and `classifications`
      default to `""`, `textEmbeddings` is always empty, and `imageEmbeddings`
      is parsed when present. */
  function GetInputValues<F>(input: map<string, string>, parse: string -> Option<F>): (r: Result<InputValues<F>>)
    ensures "key" !in input ==> r == Failure(Argument(KeyMissing))
    ensures r.Success? ==> r.value.key == input["key"] && r.value.textEmbeddings == []
    ensures r.Success? ==> r.value.imageText == (if "imageText" in input then input["imageText"] else "")
    ensures r.Success? ==> r.value.classifications == (if "classifications" in input then input["classifications"] else "")
    ensures r.Success? && "imageEmbeddings" !in input ==> r.value.imageEmbeddings == []
    ensures r.Success? && "imageEmbeddings" in input ==>
              Success(r.value.imageEmbeddings) == ParseEmbeddings(input["imageEmbeddings"], parse)
    ensures "key" in input ==> (r.Failure? <==> "imageEmbeddings" in input && ParseEmbeddings(input["imageEmbeddings"], parse).Failure?)
  {
    if "key" !in input then Failure(Argument(KeyMissing))
    else
      var imageText := if "imageText" in input then input["imageText"] else "";
      var classifications := if "classifications" in input then input["classifications"] else "";
      if "imageEmbeddings" in input then
        match ParseEmbeddings(input["imageEmbeddings"], parse)
        case Failure(e) => Failure(e)
        case Success(v) => Success(InputValues(input["key"], imageText, [], v, classifications))
      else Success(InputValues(input["key"], imageText, [], [], classifications))
  }

  /** A collection as `ListCollections` summarises it. */
  datatype CollectionSummary = CollectionSummary(name: string, arn: string)

  /** The first collection whose name contains `dotnet-genai`. */
  function FirstGenAi(collections: seq<CollectionSummary>): (r: Option<CollectionSummary>)
    ensures r.Some? ==> r.value in collections && Contains(r.value.name, CollectionNamePart)
    ensures r.None? <==> forall i :: 0 <= i < |collections| ==> !Contains(collections[i].name, CollectionNamePart)
    ensures r.Some? ==>
              exists i :: (0 <= i < |collections| && collections[i] == r.value
                           && forall j :: 0 <= j < i ==> !Contains(collections[j].name, CollectionNamePart))
  {
    if |collections| == 0 then None
    else if Contains(collections[0].name, CollectionNamePart) then Some(collections[0])
    else
      var r := FirstGenAi(collections[1..]);
      assert forall i :: 1 <= i < |collections| ==> collections[i] == collections[1..][i - 1];
      if r.Some? then
        var i :| 0 <= i < |collections[1..]| && collections[1..][i] == r.value
                && forall j :: 0 <= j < i ==> !Contains(collections[1..][j].name, CollectionNamePart);
        assert collections[i + 1] == r.value;
        r
      else r
  }

  /** `CreateClient`: the endpoint of the first matching collection, in
      us-west-2. With no match the ARN is null and `Regex.Match` throws. */
  function CreateClient(collections: Result<seq<CollectionSummary>>): (r: Result<string>)
    ensures collections.Failure? ==> r == Failure(collections.error)
    ensures collections.Success? && FirstGenAi(collections.value).None? ==> r == Failure(ArgumentNull("input"))
    ensures collections.Success? && FirstGenAi(collections.value).Some? ==>
      r == Success(Endpoint(CollectionId(FirstGenAi(collections.value).value.arn), HandlerRegion))
  {
    match collections
    case Failure(e) => Failure(e)
    case Success(cs) =>
      match FirstGenAi(cs)
      case None => Failure(ArgumentNull("input"))
      case Some(c) => Success(Endpoint(CollectionId(c.arn), HandlerRegion))
  }

    /** The requests of a successful image indexing: list the collections,
      ensure the image index, then one bulk request with the record. */
  function ImageIndexCalls<F>(indexExists: bool, record: VectorRecord<F>): (r: seq<Call<F>>)
    ensures |r| >= 3 && r[0] == ListCollections && r[|r| - 1] == Bulk(Some(IndexName), [record])
    ensures CreateIndex(Some(IndexName), Some(ImagesDimension)) in r <==> !indexExists
  {
    var calls := [ListCollections] + EnsureIndex(Some(IndexName), Some(ImagesDimension), indexExists)
                 + [Bulk(Some(IndexName), [record])];
    assert CreateIndex(Some(IndexName), Some(ImagesDimension)) in calls <==> !indexExists by {
      assert calls[0] == ListCollections && calls[1] == IndexExists(Some(IndexName));
      if !indexExists { assert calls[2] == CreateIndex(Some(IndexName), Some(ImagesDimension)); }
      else { assert |calls| == 3; }
    }
    calls
  }

/** `AddToOpenSearch.FunctionHandler`. The context is dereferenced first;
      the inputs are read before any service call; the index is created only
      when missing; an invalid index creation or bulk response throws its
      debug text. The handler returns a fresh, empty descriptor, so only the
      calls and the failure matter. */
  function AddToOpenSearch<F>(input: map<string, string>, hasContext: bool, env: Env, parse: string -> Option<F>,
                              collections: Result<seq<CollectionSummary>>, indexExists: bool,
                              createIndex: Response, bulk: Response): (r: Run<F, ()>)
    ensures !hasContext ==> r == Run([], Failure(NullReference))
    ensures hasContext && "key" !in input ==> r == Run([], Failure(Argument(KeyMissing)))
    ensures r.result.Success? ==>
              GetInputValues(input, parse).Success? && CreateClient(collections).Success?
              && bulk.Valid? && (indexExists || createIndex.Valid?)
    ensures r.result.Success? ==>
              var values := GetInputValues(input, parse).value;
              var path := Interp(GetEnv(env, "DISTRIBUTION_DOMAIN_NAME")) + "/" + input["key"];
              var record := VectorRecord(Some(values.imageText), Some(path), None, Some(values.classifications),
                                         values.imageEmbeddings);
              |r.calls| >= 3 && r.calls[|r.calls| - 1] == Bulk(Some(IndexName), [record])
              && (CreateIndex(Some(IndexName), Some(ImagesDimension)) in r.calls <==> !indexExists)
    ensures bulk.Invalid? && r.calls != [] && r.calls[|r.calls| - 1].Bulk? ==>
              r.result == Failure(Thrown(bulk.debugInformation))
  {
    if !hasContext then Run([], Failure(NullReference))
    else match GetInputValues(input, parse)
      case Failure(e) => Run([], Failure(e))
      case Success(values) =>
        var list: seq<Call<F>> := [ListCollections];
        match CreateClient(collections)
        case Failure(e) => Run(list, Failure(e))
        case Success(_) =>
          var index: seq<Call<F>> := EnsureIndex(Some(IndexName), Some(ImagesDimension), indexExists);
          if !indexExists && createIndex.Invalid? then Run(list + index, Failure(Thrown(createIndex.debugInformation)))
          else
            var record := VectorRecord(Some(values.imageText), Some(Interp(GetEnv(env, "DISTRIBUTION_DOMAIN_NAME")) + "/" + values.key),
                                       None, Some(values.classifications), values.imageEmbeddings);
            var calls := ImageIndexCalls(indexExists, record);
            if bulk.Invalid? then Run(calls, Failure(Thrown(bulk.debugInformation)))
            else Run(calls, Success(()))
  }

  // ---------------------------------------------------------------------------
  // ImageIngestion GetImageEmbeddings
  // ---------------------------------------------------------------------------

  const OrigBucketMissing := "origBucketName not provided in the input."

  /** `{ key, embeddings, origBucketName }`, with `embeddings` a list of vectors. */
  datatype EmbeddingsOutput<F> = EmbeddingsOutput(key: string, embeddings: seq<seq<F>>, origBucketName: string)

  /** `GetImageEmbeddings.FunctionHandler`: `key` and then `origBucketName`
      are required; the image is read from the destination bucket; a
      response without `embedding` yields `null`; otherwise the embedding is
      copied into a 1024-slot buffer. Failures inside the handler are
      rethrown after logging through the context, which is a null reference
      of its own when the context is null. */
  function GetImageEmbeddings<F>(input: map<string, string>, hasContext: bool, env: Env,
                                 image: Result<seq<Base64.Byte>>, embedding: Result<Option<seq<F>>>, zero: F)
    : (r: Run<F, Option<EmbeddingsOutput<F>>>)
    ensures "key" !in input ==> r == Run([], Failure(Argument(KeyMissing)))
    ensures "key" in input && "origBucketName" !in input ==> r == Run([], Failure(Argument(OrigBucketMissing)))
    ensures r.result.Success? && r.result.value.Some? ==>
              var out := r.result.value.value;
              out.key == input["key"] && out.origBucketName == input["origBucketName"]
              && embedding.Success? && embedding.value.Some? && |embedding.value.value| <= ImagesDimension
              && |out.embeddings| == 1 && |out.embeddings[0]| == ImagesDimension
              && out.embeddings[0][..|embedding.value.value|] == embedding.value.value
              && (forall i :: |embedding.value.value| <= i < ImagesDimension ==> out.embeddings[0][i] == zero)
    ensures r.result == Success(None) <==>
              "key" in input && "origBucketName" in input && image.Success? && embedding == Success(None)
    ensures ("key" in input && "origBucketName" in input && image.Success? && embedding.Success?
             && embedding.value.Some? && |embedding.value.value| > ImagesDimension) ==>
              r.result == Failure(if hasContext then IndexOutOfRange else NullReference)
    ensures r.calls != [] ==> r.calls[0] == GetObject(GetEnv(env, "DESTINATION_BUCKET"), input["key"])
  {
    if "key" !in input then Run([], Failure(Argument(KeyMissing)))
    else if "origBucketName" !in input then Run([], Failure(Argument(OrigBucketMissing)))
    else
      var key := input["key"];
      var get: seq<Call<F>> := [GetObject(GetEnv(env, "DESTINATION_BUCKET"), key)];
      var rethrow := (e: Error) => if hasContext then e else NullReference;
      match image
      case Failure(e) => Run(get, Failure(rethrow(e)))
      case Success(bytes) =>
        var calls := get + [Embed("describe image", Some(bytes))];
        match embedding
        case Failure(e) => Run(calls, Failure(rethrow(e)))
        case Success(None) => Run(calls, Success(None))
        case Success(Some(values)) =>
          match Buffer(values, ImagesDimension, zero)
          case Failure(e) => Run(calls, Failure(rethrow(e)))
          case Success(f) => Run(calls, Success(Some(EmbeddingsOutput(key, [f], input["origBucketName"]))))
  }

  // ---------------------------------------------------------------------------
  // The vector stores
  // ---------------------------------------------------------------------------

  /** A document: its text and its metadata, where a value that is not a
      string reads as `null` through `as string`. */
  datatype Document = Document(pageContent: string, metadata: map<string, Option<string>>)

  datatype StoreOptions = StoreOptions(indexName: Option<string>, dimensions: Option<nat>,
                                       region: Option<string>, collectionArn: Option<string>)

  /** The serverless store's constructor: the endpoint from the collection
      ARN and region (a null ARN makes `Regex.Match` throw), then the index
      is created only when it does not exist. */
  function OpenServerlessStore<F>(options: StoreOptions, indexExists: bool): (r: Run<F, string>)
    ensures options.collectionArn.None? ==> r == Run([], Failure(ArgumentNull("input")))
    ensures options.collectionArn.Some? ==>
      r.result == Success(Endpoint(CollectionId(options.collectionArn.value), Interp(options.region)))
      && (CreateIndex(options.indexName, options.dimensions) in r.calls <==> !indexExists)
  {
    match options.collectionArn
    case None => Run([], Failure(ArgumentNull("input")))
    case Some(arn) =>
      var calls: seq<Call<F>> := EnsureIndex(options.indexName, options.dimensions, indexExists);
      assert !indexExists ==> calls[1] == CreateIndex(options.indexName, options.dimensions);
      Run(calls, Success(Endpoint(CollectionId(arn), Interp(options.region))))
  }

  /** The non-serverless store's constructor: only the index check. */
  function OpenStore<F>(options: StoreOptions, indexExists: bool): (r: seq<Call<F>>)
    ensures CreateIndex(options.indexName, options.dimensions) in r <==> !indexExists
  {
    var calls: seq<Call<F>> := EnsureIndex(options.indexName, options.dimensions, indexExists);
    assert !indexExists ==> calls[1] == CreateIndex(options.indexName, options.dimensions);
    calls
  }

  /** `Metadata[name] as string`: a missing name throws. */
  function MetadataString(doc: Document, name: string): (r: Result<Option<string>>)
    ensures r.Success? <==> name in doc.metadata
    ensures r.Success? ==> r.value == doc.metadata[name]
    ensures r.Failure? ==> r.error == KeyNotFound(name)
  {
    if name in doc.metadata then Success(doc.metadata[name]) else Failure(KeyNotFound(name))
  }

  /** `n` copies of one request. */
  function Copies<F>(call: Call<F>, n: nat): (r: seq<Call<F>>)
    ensures |r| == n && forall i :: 0 <= i < n ==> r[i] == call
  {
    seq(n, _ => call)
  }

  /** `await Task.WhenAll` over the `n` chunk requests for one text: every
      request is issued, and the result is all `n` responses in order, or
      the exception of the first request, in task order, that threw. */
  function Gather<F>(text: string, n: nat, embed: (string, nat) -> Result<Option<seq<F>>>)
    : (r: Result<seq<Option<seq<F>>>>)
    ensures r.Success? <==> forall j :: 0 <= j < n ==> embed(text, j).Success?
    ensures r.Success? ==> |r.value| == n && forall j :: 0 <= j < n ==> r.value[j] == embed(text, j).value
    ensures r.Failure? ==> exists j :: 0 <= j < n && embed(text, j) == Failure(r.error)
                                       && forall k :: 0 <= k < j ==> embed(text, k).Success?
  {
    if n == 0 then Success([])
    else
      match Gather(text, n - 1, embed)
      case Failure(e) => Failure(e)
      case Success(init) =>
        match embed(text, n - 1)
        case Failure(e) => Failure(e)
        case Success(last) => Success(init + [last])
  }

  /** One document of `AddTextDocumentsAsync` / `AddDocumentsAsync`. A
      document whose trimmed text is empty is skipped. Otherwise the trimmed
      text is split into `chunks(trimmed)` chunks, but every chunk's request
      embeds the whole untrimmed text; `embed(text, j)` answers the `j`-th,
      and a request that throws is rethrown by `Task.WhenAll`. */
  function TextDocument<F>(doc: Document, dims: Option<nat>, chunks: string -> nat,
                           embed: (string, nat) -> Result<Option<seq<F>>>, zero: F)
    : (r: Result<Option<(seq<Call<F>>, VectorRecord<F>)>>)
    ensures Trim(doc.pageContent) == "" <==> r == Success(None)
    ensures var g := Gather(doc.pageContent, chunks(Trim(doc.pageContent)), embed);
      Trim(doc.pageContent) != "" && g.Failure? ==> r == Failure(g.error)
  {
    var content := Trim(doc.pageContent);
    if content == "" then Success(None)
    else
      var n := chunks(content);
      match Gather(doc.pageContent, n, embed)
      case Failure(e) => Failure(e)
      case Success(responses) =>
        match AssembleVector(responses, dims, zero)
        case Failure(e) => Failure(e)
        case Success(vector) =>
          match MetadataString(doc, "path")
          case Failure(e) => Failure(e)
          case Success(path) =>
            Success(Some((Copies(Embed(doc.pageContent, None), n), VectorRecord(Some(doc.pageContent), path, None, None, vector))))
  }

  /** A non-blank document's requests all embed its whole text, once per
      chunk; it is stored exactly when every request is answered, the
      vector assembles and `path` is present, and then its record carries
      the text, the `path` metadata and the vector assembled from the
      responses. */
  lemma TextDocumentRecord<F>(doc: Document, dims: Option<nat>, chunks: string -> nat,
                              embed: (string, nat) -> Result<Option<seq<F>>>, zero: F)
    ensures var r := TextDocument(doc, dims, chunks, embed, zero);
      var n := chunks(Trim(doc.pageContent));
      var g := Gather(doc.pageContent, n, embed);
      Trim(doc.pageContent) != "" ==>
        (r.Success? <==> g.Success? && AssembleVector(g.value, dims, zero).Success? && "path" in doc.metadata)
    ensures var r := TextDocument(doc, dims, chunks, embed, zero);
      r.Success? && r.value.Some? ==>
        var n := chunks(Trim(doc.pageContent));
        var g := Gather(doc.pageContent, n, embed);
        r.value.value.0 == TextCalls(doc, chunks)
        && |r.value.value.0| == n
        && r.value.value.1.text == Some(doc.pageContent)
        && Success(r.value.value.1.path) == MetadataString(doc, "path")
        && g.Success? && Success(r.value.value.1.vector) == AssembleVector(g.value, dims, zero)
  {
  }

  /** The documents with non-blank text, in order. */
  function NonBlankDocs(docs: seq<Document>): (r: seq<Document>)
    ensures |r| <= |docs|
    ensures forall d :: d in r <==> d in docs && Trim(d.pageContent) != ""
  {
    if |docs| == 0 then []
    else
      var rest := NonBlankDocs(docs[1..]);
      assert forall d :: d in docs <==> d == docs[0] || d in docs[1..];
      if Trim(docs[0].pageContent) == "" then rest else [docs[0]] + rest
  }

  /** The requests one document of the text pass issues, whether they are
      answered or not: none when it is skipped, one per chunk otherwise. */
  function DocCalls<F>(doc: Document, chunks: string -> nat): seq<Call<F>>
  {
    if Trim(doc.pageContent) == "" then [] else TextCalls(doc, chunks)
  }

  /** The index of the first document the text pass fails on, or the number
      of documents when none fails. */
  function FirstFailing<F>(docs: seq<Document>, dims: Option<nat>, chunks: string -> nat,
                           embed: (string, nat) -> Result<Option<seq<F>>>, zero: F): (r: nat)
    ensures r <= |docs|
    ensures forall j :: 0 <= j < r ==> TextDocument(docs[j], dims, chunks, embed, zero).Success?
    ensures r < |docs| ==> TextDocument(docs[r], dims, chunks, embed, zero).Failure?
  {
    if |docs| == 0 || TextDocument(docs[0], dims, chunks, embed, zero).Failure? then 0
    else
      var rest := docs[1..];
      var m := FirstFailing(rest, dims, chunks, embed, zero);
      assert forall j :: 0 <= j <= m && j < |rest| ==> rest[j] == docs[j + 1];
      1 + m
  }


  /** The documents up to and including index `m`, or all of them when there
      is no such index. */
  function UpTo(docs: seq<Document>, m: nat): (r: seq<Document>)
  {
    if m < |docs| then docs[..m + 1] else docs
  }

  /** The loop over the documents: each non-blank document issues its chunk
      requests, all at once, and then yields its record. A document that
      fails ends the loop after its own requests and its error is rethrown;
      otherwise the records of the non-blank documents come back in order. */
  function StoreText<F>(docs: seq<Document>, dims: Option<nat>, chunks: string -> nat,
                        embed: (string, nat) -> Result<Option<seq<F>>>, zero: F)
    : (r: Run<F, seq<VectorRecord<F>>>)
    ensures r.result.Success? <==> AllStored(docs, dims, chunks, embed, zero)
  {
    if |docs| == 0 then Run([], Success([]))
    else
      var issued: seq<Call<F>> := DocCalls(docs[0], chunks);
      match TextDocument(docs[0], dims, chunks, embed, zero)
      case Failure(e) => Run(issued, Failure(e))
      case Success(first) =>
        var rest := StoreText(docs[1..], dims, chunks, embed, zero);
        var records :=
          if rest.result.Failure? || first.None? then rest.result
          else Success([first.value.1] + rest.result.value);
        Run(issued + rest.calls, records)
  }

  /** Every document of the list, taken on its own, is stored or skipped
      without an error. */
  predicate AllStored<F>(docs: seq<Document>, dims: Option<nat>, chunks: string -> nat,
                         embed: (string, nat) -> Result<Option<seq<F>>>, zero: F)
  {
    |docs| == 0 || (TextDocument(docs[0], dims, chunks, embed, zero).Success? && AllStored(docs[1..], dims, chunks, embed, zero))
  }

  /** Storing succeeds exactly when no single document fails. */
  lemma {:induction false} AllStoredAt<F>(docs: seq<Document>, dims: Option<nat>, chunks: string -> nat,
                                          embed: (string, nat) -> Result<Option<seq<F>>>, zero: F)
    ensures StoreText(docs, dims, chunks, embed, zero).result.Success?
            <==> forall i :: 0 <= i < |docs| ==> TextDocument(docs[i], dims, chunks, embed, zero).Success?
  {
    if |docs| > 0 {
      AllStoredAt(docs[1..], dims, chunks, embed, zero);
      assert forall i :: 1 <= i < |docs| ==> docs[i] == docs[1..][i - 1];
    }
  }

  /** The text pass when its first document fails: that document's
      requests, and its error. */
  lemma StoreTextHead<F>(docs: seq<Document>, dims: Option<nat>, chunks: string -> nat,
                         embed: (string, nat) -> Result<Option<seq<F>>>, zero: F)
    requires |docs| > 0 && FirstFailing(docs, dims, chunks, embed, zero) == 0
    ensures Trim(docs[0].pageContent) != ""
    ensures StoreText(docs, dims, chunks, embed, zero)
            == Run(TextCalls(docs[0], chunks), Failure(TextDocument(docs[0], dims, chunks, embed, zero).error))
  {
  }

  /** The requests of a text pass whose first document fails. */
  lemma StoreTextHeadIssues<F>(docs: seq<Document>, dims: Option<nat>, chunks: string -> nat,
                               embed: (string, nat) -> Result<Option<seq<F>>>, zero: F)
    requires |docs| > 0 && FirstFailing(docs, dims, chunks, embed, zero) == 0
    ensures StoreText(docs, dims, chunks, embed, zero).calls == AllTextCalls(NonBlankDocs(UpTo(docs, 0)), chunks)
  {
    StoreTextHead(docs, dims, chunks, embed, zero);
    var d := docs[0];
    calc {
      AllTextCalls(NonBlankDocs(UpTo(docs, 0)), chunks);
      { assert UpTo(docs, 0) == [d] + []; }
      AllTextCalls(NonBlankDocs([d] + []), chunks);
      { NonBlankCons(d, []); }
      AllTextCalls<F>([d] + [], chunks);
      { AllTextCallsCons<F>(d, [], chunks); }
      TextCalls<F>(d, chunks) + [];
    }
  }

  /** The text pass when its first document succeeds: that document's
      requests, then the rest of the pass. */
  lemma StoreTextTail<F>(docs: seq<Document>, dims: Option<nat>, chunks: string -> nat,
                         embed: (string, nat) -> Result<Option<seq<F>>>, zero: F)
    requires |docs| > 0 && FirstFailing(docs, dims, chunks, embed, zero) > 0
    ensures var r := StoreText(docs, dims, chunks, embed, zero);
      var tail := StoreText(docs[1..], dims, chunks, embed, zero);
      r.calls == DocCalls(docs[0], chunks) + tail.calls
      && (r.result.Failure? <==> tail.result.Failure?)
      && (r.result.Failure? ==> r.result.error == tail.result.error)
      && FirstFailing(docs, dims, chunks, embed, zero) == FirstFailing(docs[1..], dims, chunks, embed, zero) + 1
  {
  }

  /** The requests of the text pass are the chunk requests of the non-blank
      documents it reaches, in order: all of them, or those up to and
      including the first that fails. */
  lemma {:induction false} StoreTextIssues<F>(docs: seq<Document>, dims: Option<nat>, chunks: string -> nat,
                                              embed: (string, nat) -> Result<Option<seq<F>>>, zero: F)
    ensures StoreText(docs, dims, chunks, embed, zero).calls
            == AllTextCalls(NonBlankDocs(UpTo(docs, FirstFailing(docs, dims, chunks, embed, zero))), chunks)
  {
    if |docs| > 0 {
      var d := docs[0];
      var rest := docs[1..];
      if FirstFailing(docs, dims, chunks, embed, zero) == 0 {
        StoreTextHeadIssues(docs, dims, chunks, embed, zero);
      } else {
        StoreTextIssues(docs[1..], dims, chunks, embed, zero);
        StoreTextIssuesStep(docs, dims, chunks, embed, zero);
      }
    }
  }

  /** The step of `StoreTextIssues` for a first document that succeeds. */
  lemma StoreTextIssuesStep<F>(docs: seq<Document>, dims: Option<nat>, chunks: string -> nat,
                               embed: (string, nat) -> Result<Option<seq<F>>>, zero: F)
    requires |docs| > 0 && FirstFailing(docs, dims, chunks, embed, zero) > 0
    requires StoreText(docs[1..], dims, chunks, embed, zero).calls
             == AllTextCalls(NonBlankDocs(UpTo(docs[1..], FirstFailing(docs[1..], dims, chunks, embed, zero))), chunks)
    ensures StoreText(docs, dims, chunks, embed, zero).calls
            == AllTextCalls(NonBlankDocs(UpTo(docs, FirstFailing(docs, dims, chunks, embed, zero))), chunks)
  {
    StoreTextTail(docs, dims, chunks, embed, zero);
    var rest := docs[1..];
    TextIssuedCons(docs, FirstFailing(rest, dims, chunks, embed, zero), StoreText(rest, dims, chunks, embed, zero).calls, chunks);
  }

  /** The requests of the non-blank documents up to index `m + 1`: the
      first document's, then those of the rest up to index `m`. */
  lemma TextIssuedCons<F>(docs: seq<Document>, m: nat, tail: seq<Call<F>>, chunks: string -> nat)
    requires |docs| > 0
    requires tail == AllTextCalls(NonBlankDocs(UpTo(docs[1..], m)), chunks)
    ensures DocCalls(docs[0], chunks) + tail == AllTextCalls(NonBlankDocs(UpTo(docs, m + 1)), chunks)
  {
    var d := docs[0];
    var later := NonBlankDocs(UpTo(docs[1..], m));
    calc {
      DocCalls(d, chunks) + tail;
      { NonBlankCons(d, UpTo(docs[1..], m));
        if Trim(d.pageContent) != "" { AllTextCallsCons<F>(d, later, chunks); } }
      AllTextCalls(NonBlankDocs([d] + UpTo(docs[1..], m)), chunks);
      { UpToCons(docs, m); }
      AllTextCalls(NonBlankDocs(UpTo(docs, m + 1)), chunks);
    }
  }

  /** When the text pass fails, its error is that of the first document
      that fails. */
  lemma {:induction false} StoreTextError<F>(docs: seq<Document>, dims: Option<nat>, chunks: string -> nat,
                                             embed: (string, nat) -> Result<Option<seq<F>>>, zero: F)
    ensures var r := StoreText(docs, dims, chunks, embed, zero);
      var m := FirstFailing(docs, dims, chunks, embed, zero);
      r.result.Failure? ==> m < |docs| && r.result.error == TextDocument(docs[m], dims, chunks, embed, zero).error
  {
    if |docs| > 0 {
      if FirstFailing(docs, dims, chunks, embed, zero) == 0 {
        StoreTextHead(docs, dims, chunks, embed, zero);
      } else {
        StoreTextError(docs[1..], dims, chunks, embed, zero);
        StoreTextErrorStep(docs, dims, chunks, embed, zero);
      }
    }
  }

  /** The step of `StoreTextError` for a first document that succeeds. */
  lemma StoreTextErrorStep<F>(docs: seq<Document>, dims: Option<nat>, chunks: string -> nat,
                              embed: (string, nat) -> Result<Option<seq<F>>>, zero: F)
    requires |docs| > 0 && FirstFailing(docs, dims, chunks, embed, zero) > 0
    requires var r := StoreText(docs[1..], dims, chunks, embed, zero);
      var m := FirstFailing(docs[1..], dims, chunks, embed, zero);
      r.result.Failure? ==> m < |docs[1..]| && r.result.error == TextDocument(docs[1..][m], dims, chunks, embed, zero).error
    ensures var r := StoreText(docs, dims, chunks, embed, zero);
      var m := FirstFailing(docs, dims, chunks, embed, zero);
      r.result.Failure? ==> m < |docs| && r.result.error == TextDocument(docs[m], dims, chunks, embed, zero).error
  {
    StoreTextTail(docs, dims, chunks, embed, zero);
    var m := FirstFailing(docs[1..], dims, chunks, embed, zero);
    assert m < |docs[1..]| ==> docs[m + 1] == docs[1..][m];
  }

  /** The documents up to a later index, with the head split off. */
  lemma UpToCons(docs: seq<Document>, m: nat)
    requires |docs| > 0
    ensures UpTo(docs, m + 1) == [docs[0]] + UpTo(docs[1..], m)
  {
    if m + 1 < |docs| {
      assert docs[..m + 2] == [docs[0]] + docs[1..][..m + 1];
    } else {
      assert docs == [docs[0]] + docs[1..];
    }
  }

  /** The non-blank documents of a list headed by `d`. */
  lemma NonBlankCons(d: Document, docs: seq<Document>)
    ensures NonBlankDocs([d] + docs) == (if Trim(d.pageContent) == "" then [] else [d]) + NonBlankDocs(docs)
  {
    assert ([d] + docs)[0] == d && ([d] + docs)[1..] == docs;
  }

  /** `records[k]` is the record document `kept[k]` produces, for every `k`. */
  ghost predicate Describes<F>(kept: seq<Document>, records: seq<VectorRecord<F>>, dims: Option<nat>,
                               chunks: string -> nat, embed: (string, nat) -> Result<Option<seq<F>>>, zero: F)
    decreases |kept|
  {
    if |kept| == 0 then records == []
    else
      |records| > 0
      && TextDocument(kept[0], dims, chunks, embed, zero) == Success(Some((TextCalls(kept[0], chunks), records[0])))
      && Describes(kept[1..], records[1..], dims, chunks, embed, zero)
  }

  /** `Describes` read index by index. */
  lemma {:induction false} DescribesAt<F>(kept: seq<Document>, records: seq<VectorRecord<F>>, dims: Option<nat>,
                                          chunks: string -> nat, embed: (string, nat) -> Result<Option<seq<F>>>, zero: F, k: nat)
    requires Describes(kept, records, dims, chunks, embed, zero)
    ensures |records| == |kept|
    ensures k < |kept| ==>
      TextDocument(kept[k], dims, chunks, embed, zero) == Success(Some((TextCalls(kept[k], chunks), records[k])))
    decreases |kept|
  {
    if |kept| > 0 {
      DescribesAt(kept[1..], records[1..], dims, chunks, embed, zero, if k > 0 then k - 1 else 0);
    }
  }

  /** The stored records are those of the non-blank documents, each as that
      document's processing defines it, and the requests are theirs. */
  lemma {:induction false} StoreTextRecords<F>(docs: seq<Document>, dims: Option<nat>, chunks: string -> nat,
                                               embed: (string, nat) -> Result<Option<seq<F>>>, zero: F)
    requires StoreText(docs, dims, chunks, embed, zero).result.Success?
    ensures var r := StoreText(docs, dims, chunks, embed, zero);
      Describes(NonBlankDocs(docs), r.result.value, dims, chunks, embed, zero)
      && r.calls == AllTextCalls(NonBlankDocs(docs), chunks)
  {
    if |docs| > 0 {
      var rest := docs[1..];
      StoreTextRecords(rest, dims, chunks, embed, zero);
      var first := TextDocument(docs[0], dims, chunks, embed, zero).value;
      var tail := StoreText(rest, dims, chunks, embed, zero);
      if first.None? {
        assert NonBlankDocs(docs) == NonBlankDocs(rest);
      } else {
        KeepFirst(docs, dims, chunks, embed, zero, tail);
      }
    }
  }

  /** The documents a non-blank first document heads. */
  lemma KeptOfFirst(docs: seq<Document>)
    requires |docs| > 0 && Trim(docs[0].pageContent) != ""
    ensures NonBlankDocs(docs) == [docs[0]] + NonBlankDocs(docs[1..])
  {
  }

  lemma DescribesCons<F>(d: Document, kept: seq<Document>, rec: VectorRecord<F>, records: seq<VectorRecord<F>>,
                         dims: Option<nat>, chunks: string -> nat, embed: (string, nat) -> Result<Option<seq<F>>>, zero: F)
    requires TextDocument(d, dims, chunks, embed, zero) == Success(Some((TextCalls(d, chunks), rec)))
    requires Describes(kept, records, dims, chunks, embed, zero)
    ensures Describes([d] + kept, [rec] + records, dims, chunks, embed, zero)
  {
    assert ([d] + kept)[1..] == kept && ([rec] + records)[1..] == records;
  }

  lemma AllTextCallsCons<F>(d: Document, kept: seq<Document>, chunks: string -> nat)
    ensures AllTextCalls<F>([d] + kept, chunks) == TextCalls<F>(d, chunks) + AllTextCalls<F>(kept, chunks)
  {
    assert ([d] + kept)[1..] == kept;
  }

  /** The step of `StoreTextRecords` for a non-blank first document. */
  lemma KeepFirst<F>(docs: seq<Document>, dims: Option<nat>, chunks: string -> nat,
                     embed: (string, nat) -> Result<Option<seq<F>>>, zero: F, tail: Run<F, seq<VectorRecord<F>>>)
    requires |docs| > 0 && StoreText(docs, dims, chunks, embed, zero).result.Success?
    requires TextDocument(docs[0], dims, chunks, embed, zero).value.Some?
    requires StoreText(docs[1..], dims, chunks, embed, zero) == tail && tail.result.Success?
    requires Describes(NonBlankDocs(docs[1..]), tail.result.value, dims, chunks, embed, zero)
    requires tail.calls == AllTextCalls(NonBlankDocs(docs[1..]), chunks)
    ensures var r := StoreText(docs, dims, chunks, embed, zero);
      Describes(NonBlankDocs(docs), r.result.value, dims, chunks, embed, zero)
      && r.calls == AllTextCalls(NonBlankDocs(docs), chunks)
  {
    var first := TextDocument(docs[0], dims, chunks, embed, zero).value.value;
    var r := StoreText(docs, dims, chunks, embed, zero);
    assert r == Run(TextCalls(docs[0], chunks) + tail.calls, Success([first.1] + tail.result.value));
    var later := NonBlankDocs(docs[1..]);
    KeptOfFirst(docs);
    TextDocumentRecord(docs[0], dims, chunks, embed, zero);
    DescribesCons(docs[0], later, first.1, tail.result.value, dims, chunks, embed, zero);
    AllTextCallsCons<F>(docs[0], later, chunks);
  }

  /** The requests one non-blank document issues. */
  function TextCalls<F>(doc: Document, chunks: string -> nat): (r: seq<Call<F>>)
    ensures forall k :: 0 <= k < |r| ==> r[k] == Embed(doc.pageContent, None)
  {
    Copies(Embed(doc.pageContent, None), chunks(Trim(doc.pageContent)))
  }

  function AllTextCalls<F>(docs: seq<Document>, chunks: string -> nat): (r: seq<Call<F>>)
    ensures forall k :: 0 <= k < |r| ==> r[k].Embed? && r[k].image.None? && exists d :: d in docs && r[k].text == d.pageContent
  {
    if |docs| == 0 then []
    else
      var first: seq<Call<F>> := TextCalls(docs[0], chunks);
      var rest := AllTextCalls(docs[1..], chunks);
      assert forall k :: |first| <= k < |first + rest| ==> (first + rest)[k] == rest[k - |first|];
      assert forall k :: 0 <= k < |first| ==> (first + rest)[k] == Embed(docs[0].pageContent, None);
      first + rest
  }

  /** `AddTextDocumentsAsync` (serverless) and `AddDocumentsAsync`: one
      record per non-blank document, one bulk request with all of them
      whatever its response, and every input document's text returned in
      input order, skipped ones included. A document that fails ends the
      call after its own embedding requests and before the bulk request. */
  function AddTextDocuments<F>(index: Option<string>, docs: seq<Document>, dims: Option<nat>, chunks: string -> nat,
                               embed: (string, nat) -> Result<Option<seq<F>>>, zero: F): (r: Run<F, seq<string>>)
    ensures r.result.Success? <==> StoreText(docs, dims, chunks, embed, zero).result.Success?
    ensures r.result.Success? ==>
              |r.result.value| == |docs| && forall i :: 0 <= i < |docs| ==> r.result.value[i] == docs[i].pageContent
    ensures r.result.Success? ==>
              var records := StoreText(docs, dims, chunks, embed, zero).result.value;
              r.calls == AllTextCalls(NonBlankDocs(docs), chunks) + [Bulk(index, records)]
              && |records| == |NonBlankDocs(docs)|
    ensures var m := FirstFailing(docs, dims, chunks, embed, zero);
      r.result.Failure? ==>
        m < |docs| && r.result.error == TextDocument(docs[m], dims, chunks, embed, zero).error
        && r.calls == AllTextCalls(NonBlankDocs(docs[..m + 1]), chunks)
    ensures r.result.Failure? ==> forall k :: 0 <= k < |r.calls| ==> !r.calls[k].Bulk?
  {
    var stored := StoreText(docs, dims, chunks, embed, zero);
    StoreTextIssues(docs, dims, chunks, embed, zero);
    StoreTextError(docs, dims, chunks, embed, zero);
    match stored.result
    case Failure(e) => Run(stored.calls, Failure(e))
    case Success(records) =>
      StoreTextRecords(docs, dims, chunks, embed, zero);
      DescribesAt(NonBlankDocs(docs), records, dims, chunks, embed, zero, 0);
      Run(stored.calls + [Bulk(index, records)],
          Success(seq(|docs|, (i: int) requires 0 <= i < |docs| => docs[i].pageContent)))
  }

  /** An embedding request of a non-blank document that throws makes the
      whole call fail on that document or an earlier one, and no bulk
      request is sent. */
  lemma EmbeddingFailureStopsBulk<F>(index: Option<string>, docs: seq<Document>, dims: Option<nat>, chunks: string -> nat,
                                     embed: (string, nat) -> Result<Option<seq<F>>>, zero: F, i: nat, j: nat)
    requires i < |docs| && Trim(docs[i].pageContent) != ""
    requires j < chunks(Trim(docs[i].pageContent)) && embed(docs[i].pageContent, j).Failure?
    ensures var r := AddTextDocuments(index, docs, dims, chunks, embed, zero);
      r.result.Failure? && FirstFailing(docs, dims, chunks, embed, zero) <= i
      && forall k :: 0 <= k < |r.calls| ==> !r.calls[k].Bulk?
  {
    AllStoredAt(docs, dims, chunks, embed, zero);
    assert TextDocument(docs[i], dims, chunks, embed, zero).Failure?;
  }

  /** One document of `CreateBulkDescriptorFromImageDocuments`: no document
      is skipped; `Metadata["base64"]` is read first (missing throws, null
      makes `FromBase64String` throw), then every chunk embeds the whole text
      with the decoded image (a request that throws is rethrown by
      `Task.WhenAll`), then `path` is read. */
  function ImageDocument<F>(doc: Document, dims: Option<nat>, chunks: string -> nat,
                            embed: (string, nat) -> Result<Option<seq<F>>>, zero: F): (r: Result<(seq<Call<F>>, VectorRecord<F>)>)
    ensures "base64" !in doc.metadata ==> r == Failure(KeyNotFound("base64"))
    ensures "base64" in doc.metadata && doc.metadata["base64"].None? ==> r == Failure(ArgumentNull("s"))
    ensures var g := Gather(doc.pageContent, chunks(Trim(doc.pageContent)), embed);
      "base64" in doc.metadata && doc.metadata["base64"].Some? && g.Failure? ==> r == Failure(g.error)
  {
    match MetadataString(doc, "base64")
    case Failure(e) => Failure(e)
    case Success(None) => Failure(ArgumentNull("s"))
    case Success(Some(image)) =>
      var n := chunks(Trim(doc.pageContent));
      match Gather(doc.pageContent, n, embed)
      case Failure(e) => Failure(e)
      case Success(responses) =>
        match AssembleVector(responses, dims, zero)
        case Failure(e) => Failure(e)
        case Success(vector) =>
          match MetadataString(doc, "path")
          case Failure(e) => Failure(e)
          case Success(path) =>
            Success((Copies(Embed(doc.pageContent, Some(Base64.Decode(image))), n),
                     VectorRecord(Some(doc.pageContent), path, Some(image), None, vector)))
  }

  /** A document of the image pass is stored exactly when its `base64` entry
      is present and non-null, every request is answered, the vector
      assembles and `path` is present. Its requests then send the decoded
      image with the text, and its record keeps the text, the base64 text,
      the `path` metadata and the vector assembled from the responses. */
  lemma ImageDocumentRecord<F>(doc: Document, dims: Option<nat>, chunks: string -> nat,
                               embed: (string, nat) -> Result<Option<seq<F>>>, zero: F)
    ensures var r := ImageDocument(doc, dims, chunks, embed, zero);
      var g := Gather(doc.pageContent, chunks(Trim(doc.pageContent)), embed);
      r.Success? <==> "base64" in doc.metadata && doc.metadata["base64"].Some? && g.Success?
                      && AssembleVector(g.value, dims, zero).Success? && "path" in doc.metadata
    ensures var r := ImageDocument(doc, dims, chunks, embed, zero);
      var g := Gather(doc.pageContent, chunks(Trim(doc.pageContent)), embed);
      r.Success? ==>
        r.value.0 == ImageCalls(doc, chunks)
        && r.value.1.text == Some(doc.pageContent) && r.value.1.base64 == doc.metadata["base64"]
        && g.Success? && Success(r.value.1.vector) == AssembleVector(g.value, dims, zero)
        && r.value.1.path == doc.metadata["path"]
  {
  }

  /** The requests one document of the image pass issues, whether they are
      answered or not: none when its `base64` entry is missing or null, as
      reading it throws first, and otherwise one per chunk, each with the
      decoded image. */
  function ImageCalls<F>(doc: Document, chunks: string -> nat): seq<Call<F>>
  {
    if "base64" in doc.metadata && doc.metadata["base64"].Some? then
      Copies(Embed(doc.pageContent, Some(Base64.Decode(doc.metadata["base64"].value))), chunks(Trim(doc.pageContent)))
    else []
  }

  function AllImageCalls<F>(docs: seq<Document>, chunks: string -> nat): seq<Call<F>>
  {
    if |docs| == 0 then [] else ImageCalls(docs[0], chunks) + AllImageCalls(docs[1..], chunks)
  }

  /** The index of the first document the image pass fails on, or the
      number of documents when none fails. */
  function FirstImageFailing<F>(docs: seq<Document>, dims: Option<nat>, chunks: string -> nat,
                                embed: (string, nat) -> Result<Option<seq<F>>>, zero: F): (r: nat)
    ensures r <= |docs|
    ensures forall j :: 0 <= j < r ==> ImageDocument(docs[j], dims, chunks, embed, zero).Success?
    ensures r < |docs| ==> ImageDocument(docs[r], dims, chunks, embed, zero).Failure?
  {
    if |docs| == 0 || ImageDocument(docs[0], dims, chunks, embed, zero).Failure? then 0
    else
      var rest := docs[1..];
      var m := FirstImageFailing(rest, dims, chunks, embed, zero);
      assert forall j :: 0 <= j <= m && j < |rest| ==> rest[j] == docs[j + 1];
      1 + m
  }


  /** `CreateBulkDescriptorFromImageDocuments`: one record per document, in
      order. A document that fails ends the loop after its own requests and
      its error is rethrown. */
  function ImageRecords<F>(docs: seq<Document>, dims: Option<nat>, chunks: string -> nat,
                           embed: (string, nat) -> Result<Option<seq<F>>>, zero: F)
    : (r: Run<F, seq<VectorRecord<F>>>)
    ensures r.result.Success? <==> AllImagesStored(docs, dims, chunks, embed, zero)
    ensures r.result.Success? ==> |r.result.value| == |docs|
  {
    if |docs| == 0 then Run([], Success([]))
    else
      var issued: seq<Call<F>> := ImageCalls(docs[0], chunks);
      match ImageDocument(docs[0], dims, chunks, embed, zero)
      case Failure(e) => Run(issued, Failure(e))
      case Success(first) =>
        var rest := ImageRecords(docs[1..], dims, chunks, embed, zero);
        Run(issued + rest.calls,
            if rest.result.Failure? then Failure(rest.result.error) else Success([first.1] + rest.result.value))
  }

  /** Every document of the list, taken on its own, is stored without an
      error. */
  predicate AllImagesStored<F>(docs: seq<Document>, dims: Option<nat>, chunks: string -> nat,
                               embed: (string, nat) -> Result<Option<seq<F>>>, zero: F)
  {
    |docs| == 0 || (ImageDocument(docs[0], dims, chunks, embed, zero).Success? && AllImagesStored(docs[1..], dims, chunks, embed, zero))
  }

  /** Building succeeds exactly when no single document fails. */
  lemma {:induction false} ImageRecordsAt<F>(docs: seq<Document>, dims: Option<nat>, chunks: string -> nat,
                                             embed: (string, nat) -> Result<Option<seq<F>>>, zero: F)
    ensures ImageRecords(docs, dims, chunks, embed, zero).result.Success?
            <==> forall i :: 0 <= i < |docs| ==> ImageDocument(docs[i], dims, chunks, embed, zero).Success?
  {
    if |docs| > 0 {
      ImageRecordsAt(docs[1..], dims, chunks, embed, zero);
      assert forall i :: 1 <= i < |docs| ==> docs[i] == docs[1..][i - 1];
    }
  }

  /** When building succeeds, the `i`-th record is the one the `i`-th
      document produces. */
  lemma {:induction false} ImageRecordsValues<F>(docs: seq<Document>, dims: Option<nat>, chunks: string -> nat,
                                                 embed: (string, nat) -> Result<Option<seq<F>>>, zero: F)
    ensures var r := ImageRecords(docs, dims, chunks, embed, zero);
      r.result.Success? ==>
        forall i :: 0 <= i < |docs| ==>
          ImageDocument(docs[i], dims, chunks, embed, zero).Success?
          && r.result.value[i] == ImageDocument(docs[i], dims, chunks, embed, zero).value.1
  {
    var r := ImageRecords(docs, dims, chunks, embed, zero);
    if |docs| > 0 && r.result.Success? {
      var rest := docs[1..];
      ImageRecordsValues(rest, dims, chunks, embed, zero);
      var tail := ImageRecords(rest, dims, chunks, embed, zero);
      assert r.result.value == [ImageDocument(docs[0], dims, chunks, embed, zero).value.1] + tail.result.value;
      forall i | 0 <= i < |docs|
        ensures ImageDocument(docs[i], dims, chunks, embed, zero).Success?
                && r.result.value[i] == ImageDocument(docs[i], dims, chunks, embed, zero).value.1
      {
        if i > 0 { assert docs[i] == rest[i - 1]; }
      }
    }
  }

  /** The image pass when its first document fails: that document's
      requests, and its error. */
  lemma ImageRecordsHead<F>(docs: seq<Document>, dims: Option<nat>, chunks: string -> nat,
                            embed: (string, nat) -> Result<Option<seq<F>>>, zero: F)
    requires |docs| > 0 && FirstImageFailing(docs, dims, chunks, embed, zero) == 0
    ensures ImageRecords(docs, dims, chunks, embed, zero)
            == Run(ImageCalls(docs[0], chunks), Failure(ImageDocument(docs[0], dims, chunks, embed, zero).error))
  {
  }

  /** The requests of an image pass whose first document fails. */
  lemma ImageRecordsHeadIssues<F>(docs: seq<Document>, dims: Option<nat>, chunks: string -> nat,
                                  embed: (string, nat) -> Result<Option<seq<F>>>, zero: F)
    requires |docs| > 0 && FirstImageFailing(docs, dims, chunks, embed, zero) == 0
    ensures ImageRecords(docs, dims, chunks, embed, zero).calls == AllImageCalls(UpTo(docs, 0), chunks)
  {
    ImageRecordsHead(docs, dims, chunks, embed, zero);
    var d := docs[0];
    calc {
      AllImageCalls(UpTo(docs, 0), chunks);
      { assert UpTo(docs, 0) == [d] + []; }
      AllImageCalls<F>([d] + [], chunks);
      { AllImageCallsCons<F>(d, [], chunks); }
      ImageCalls<F>(d, chunks) + [];
    }
  }

  /** The image pass when its first document succeeds: that document's
      requests, then the rest of the pass. */
  lemma ImageRecordsTail<F>(docs: seq<Document>, dims: Option<nat>, chunks: string -> nat,
                            embed: (string, nat) -> Result<Option<seq<F>>>, zero: F)
    requires |docs| > 0 && FirstImageFailing(docs, dims, chunks, embed, zero) > 0
    ensures var r := ImageRecords(docs, dims, chunks, embed, zero);
      var tail := ImageRecords(docs[1..], dims, chunks, embed, zero);
      r.calls == ImageCalls(docs[0], chunks) + tail.calls
      && (r.result.Failure? <==> tail.result.Failure?)
      && (r.result.Failure? ==> r.result.error == tail.result.error)
      && FirstImageFailing(docs, dims, chunks, embed, zero) == FirstImageFailing(docs[1..], dims, chunks, embed, zero) + 1
  {
  }

  /** The requests of the image pass are those of the documents it reaches,
      in order: all of them, or those up to and including the first that
      fails. */
  lemma {:induction false} ImageRecordsIssue<F>(docs: seq<Document>, dims: Option<nat>, chunks: string -> nat,
                                                embed: (string, nat) -> Result<Option<seq<F>>>, zero: F)
    ensures ImageRecords(docs, dims, chunks, embed, zero).calls
            == AllImageCalls(UpTo(docs, FirstImageFailing(docs, dims, chunks, embed, zero)), chunks)
  {
    if |docs| > 0 {
      var d := docs[0];
      var rest := docs[1..];
      if FirstImageFailing(docs, dims, chunks, embed, zero) == 0 {
        ImageRecordsHeadIssues(docs, dims, chunks, embed, zero);
      } else {
        ImageRecordsIssue(docs[1..], dims, chunks, embed, zero);
        ImageRecordsIssueStep(docs, dims, chunks, embed, zero);
      }
    }
  }

  /** The step of `ImageRecordsIssue` for a first document that succeeds. */
  lemma ImageRecordsIssueStep<F>(docs: seq<Document>, dims: Option<nat>, chunks: string -> nat,
                                 embed: (string, nat) -> Result<Option<seq<F>>>, zero: F)
    requires |docs| > 0 && FirstImageFailing(docs, dims, chunks, embed, zero) > 0
    requires ImageRecords(docs[1..], dims, chunks, embed, zero).calls
             == AllImageCalls(UpTo(docs[1..], FirstImageFailing(docs[1..], dims, chunks, embed, zero)), chunks)
    ensures ImageRecords(docs, dims, chunks, embed, zero).calls
            == AllImageCalls(UpTo(docs, FirstImageFailing(docs, dims, chunks, embed, zero)), chunks)
  {
    ImageRecordsTail(docs, dims, chunks, embed, zero);
    var rest := docs[1..];
    ImageIssuedCons(docs, FirstImageFailing(rest, dims, chunks, embed, zero), ImageRecords(rest, dims, chunks, embed, zero).calls, chunks);
  }

  /** The requests of the documents up to index `m + 1`: the first
      document's, then those of the rest up to index `m`. */
  lemma ImageIssuedCons<F>(docs: seq<Document>, m: nat, tail: seq<Call<F>>, chunks: string -> nat)
    requires |docs| > 0
    requires tail == AllImageCalls(UpTo(docs[1..], m), chunks)
    ensures ImageCalls(docs[0], chunks) + tail == AllImageCalls(UpTo(docs, m + 1), chunks)
  {
    AllImageCallsCons<F>(docs[0], UpTo(docs[1..], m), chunks);
    UpToCons(docs, m);
  }

  /** When the image pass fails, its error is that of the first document
      that fails. */
  lemma {:induction false} ImageRecordsError<F>(docs: seq<Document>, dims: Option<nat>, chunks: string -> nat,
                                                embed: (string, nat) -> Result<Option<seq<F>>>, zero: F)
    ensures var r := ImageRecords(docs, dims, chunks, embed, zero);
      var m := FirstImageFailing(docs, dims, chunks, embed, zero);
      r.result.Failure? ==> m < |docs| && r.result.error == ImageDocument(docs[m], dims, chunks, embed, zero).error
  {
    if |docs| > 0 {
      if FirstImageFailing(docs, dims, chunks, embed, zero) == 0 {
        ImageRecordsHead(docs, dims, chunks, embed, zero);
      } else {
        ImageRecordsError(docs[1..], dims, chunks, embed, zero);
        ImageRecordsErrorStep(docs, dims, chunks, embed, zero);
      }
    }
  }

  /** The step of `ImageRecordsError` for a first document that succeeds. */
  lemma ImageRecordsErrorStep<F>(docs: seq<Document>, dims: Option<nat>, chunks: string -> nat,
                                 embed: (string, nat) -> Result<Option<seq<F>>>, zero: F)
    requires |docs| > 0 && FirstImageFailing(docs, dims, chunks, embed, zero) > 0
    requires var r := ImageRecords(docs[1..], dims, chunks, embed, zero);
      var m := FirstImageFailing(docs[1..], dims, chunks, embed, zero);
      r.result.Failure? ==> m < |docs[1..]| && r.result.error == ImageDocument(docs[1..][m], dims, chunks, embed, zero).error
    ensures var r := ImageRecords(docs, dims, chunks, embed, zero);
      var m := FirstImageFailing(docs, dims, chunks, embed, zero);
      r.result.Failure? ==> m < |docs| && r.result.error == ImageDocument(docs[m], dims, chunks, embed, zero).error
  {
    ImageRecordsTail(docs, dims, chunks, embed, zero);
    var m := FirstImageFailing(docs[1..], dims, chunks, embed, zero);
    assert m < |docs[1..]| ==> docs[m + 1] == docs[1..][m];
  }

  lemma AllImageCallsCons<F>(d: Document, docs: seq<Document>, chunks: string -> nat)
    ensures AllImageCalls<F>([d] + docs, chunks) == ImageCalls<F>(d, chunks) + AllImageCalls<F>(docs, chunks)
  {
    assert ([d] + docs)[1..] == docs;
  }

  /** `SimilaritySearchByVectorAsync` of the non-serverless store: hits
      whose text is null or whitespace are dropped, and each remaining text
      becomes a document's content, in hit order. */
  function SearchDocuments(texts: seq<Option<string>>): (r: seq<string>)
    ensures |r| <= |texts|
    ensures forall k :: 0 <= k < |r| ==> !IsNullOrWhiteSpace(Some(r[k])) && Some(r[k]) in texts
    ensures forall i :: 0 <= i < |texts| && !IsNullOrWhiteSpace(texts[i]) ==> texts[i].value in r
  {
    if |texts| == 0 then []
    else
      var rest := SearchDocuments(texts[1..]);
      assert forall i :: 1 <= i < |texts| ==> texts[i] == texts[1..][i - 1];
      if IsNullOrWhiteSpace(texts[0]) then rest else [texts[0].value] + rest
  }

  /** The search keeps hit order: the surviving texts are exactly the
      non-blank ones, as a subsequence. */
  lemma {:induction false} SearchKeepsOrder(texts: seq<Option<string>>, a: seq<Option<string>>, b: seq<Option<string>>)
    requires texts == a + b
    ensures SearchDocuments(texts) == SearchDocuments(a) + SearchDocuments(b)
    decreases |a|
  {
    if |a| == 0 {
      assert texts == b;
    } else {
      assert texts[1..] == a[1..] + b;
      SearchKeepsOrder(texts[1..], a[1..], b);
    }
  }
}
