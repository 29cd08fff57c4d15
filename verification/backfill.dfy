/** The backfill dispatcher `ListAndFilterS3Objects`: a scheduled event names
    either one image or a bucket; every image not yet recorded in the images
    table gets a state-machine execution. The table, the object listing and
    the state machine are oracles; the handler's effect is the sequence of
    requests it issues. */
module Backfill {
  import opened Wrappers
  import opened Text
  import opened Json
  import ModelBodies

  const StateMachineArnVar := "STATE_MACHINE_ARN"
  const DestinationBucketVar := "DESTINATION_BUCKET"

  /** The event's `detail`: `bucketName` and `object.key`, either may be null. */
  datatype Detail = Detail(bucketName: Option<string>, objectKey: Option<string>)

  /** One `ListObjectsV2` response: the keys in listing order and the
      continuation token. */
  datatype ListPage = ListPage(keys: seq<string>, nextToken: Option<string>)

  /** A request to a service, in the order the handler issues them. */
  datatype Request =
    | FindItem(key: string, bucketName: Option<string>)                        // DoesKeyExistInTable
    | ListObjects(bucket: Option<string>, continuationToken: Option<string>)   // ListObjectsV2Async
    | StartExecution(stateMachineArn: Option<string>, startBucket: Option<string>, startKey: string)

  /** How an invocation ends. `Repeats(calls, round)` issues `calls` and then
      `round` again and again without ever returning. */
  datatype Outcome =
    | Completed(calls: seq<Request>)
    | Failed(calls: seq<Request>, error: Error)
    | Repeats(calls: seq<Request>, round: seq<Request>)

  /** The keys the single-object branch accepts. */
  predicate IsDirectImage(key: string) {
    EndsWithIgnoreCase(key, ".jpg") || EndsWithIgnoreCase(key, ".png")
  }

  /** The keys the listing branch accepts; `.jpeg` only here. */
  predicate IsListedImage(key: string) {
    EndsWithIgnoreCase(key, ".jpg") || EndsWithIgnoreCase(key, ".jpeg") || EndsWithIgnoreCase(key, ".png")
  }

  /** `input.Detail?.BucketName ?? DESTINATION_BUCKET`. */
  function BucketName(detail: Option<Detail>, env: Env): (r: Option<string>)
    ensures detail.Some? && detail.value.bucketName.Some? ==> r == detail.value.bucketName
    ensures detail.None? || detail.value.bucketName.None? ==> r == GetEnv(env, DestinationBucketVar)
  {
    if detail.Some? && detail.value.bucketName.Some? then detail.value.bucketName
    else GetEnv(env, DestinationBucketVar)
  }

  /** The serialized `S3Object` an execution starts with: `detail.bucket.name`
      and `detail.object.key` are set, `detail.bucketName` stays null. */
  function ExecutionInput(bucketName: Option<string>, key: string): Json {
    JObject([("detail", JObject([
      ("bucket", JObject([("name", ModelBodies.OptString(bucketName))])),
      ("object", JObject([("key", JString(key))])),
      ("bucketName", JNull)]))])
  }

  /** The execution input carries the key and bucket it was started for, and a
      null `bucketName`, so an execution fed back to this handler would take
      its bucket from the environment. */
  lemma ExecutionInputFields(bucketName: Option<string>, key: string)
    ensures Resolve(ExecutionInput(bucketName, key), [Field("detail"), Field("object"), Field("key")]) == Some(JString(key))
    ensures Resolve(ExecutionInput(bucketName, key), [Field("detail"), Field("bucket"), Field("name")])
         == Some(ModelBodies.OptString(bucketName))
    ensures Resolve(ExecutionInput(bucketName, key), [Field("detail"), Field("bucketName")]) == Some(JNull)
  {
    var j := ExecutionInput(bucketName, key);
    var detail := j.fields[0].1;
    assert Get(j, "detail") == Some(detail);
    assert Get(detail, "bucket") == Some(detail.fields[0].1) by { LookupDistinct(detail.fields, 0); }
    assert Get(detail, "object") == Some(detail.fields[1].1) by { LookupDistinct(detail.fields, 1); }
    assert Get(detail, "bucketName") == Some(JNull) by { LookupDistinct(detail.fields, 2); }
    assert Get(detail.fields[0].1, "name") == Some(ModelBodies.OptString(bucketName));
    assert Get(detail.fields[1].1, "key") == Some(JString(key));
  }

  /** The images table and the two per-key services: `items` holds the
      `(key, bucketName)` pairs the table has, and `fails(q)` is the
      exception a lookup or start request `q` throws, if any. */
  datatype Db = Db(items: set<(string, Option<string>)>, fails: Request -> Option<Error>)

  /** Requests issued, and the exception that ended them early, if any. */
  datatype Walk = Walk(calls: seq<Request>, error: Option<Error>)

  /** Every lookup and start among `calls` was answered without an exception;
      listing requests are answered by the listing responses. */
  predicate Answered(calls: seq<Request>, db: Db) {
    forall i :: 0 <= i < |calls| && !calls[i].ListObjects? ==> db.fails(calls[i]).None?
  }

  /** A walk either has every request answered, or stops right after the
      first one that throws, with that exception. */
  predicate StopsAtFailure(w: Walk, db: Db) {
    (w.error.None? ==> Answered(w.calls, db))
    && (w.error.Some? ==> |w.calls| > 0 && db.fails(w.calls[|w.calls| - 1]) == w.error
                          && Answered(w.calls[..|w.calls| - 1], db))
  }

  lemma AnsweredAppend(a: seq<Request>, b: seq<Request>, db: Db)
    ensures Answered(a + b, db) <==> Answered(a, db) && Answered(b, db)
  {
    var c := a + b;
    assert forall i :: 0 <= i < |a| ==> c[i] == a[i];
    assert forall i :: 0 <= i < |b| ==> c[|a| + i] == b[i];
  }

  /** Answered requests in front of a walk keep it stopping at its failure. */
  lemma StopsAtFailureAppend(a: seq<Request>, w: Walk, db: Db)
    requires Answered(a, db) && StopsAtFailure(w, db)
    ensures StopsAtFailure(Walk(a + w.calls, w.error), db)
  {
    AnsweredAppend(a, w.calls, db);
    if w.error.Some? {
      var c := a + w.calls;
      assert c[..|c| - 1] == a + w.calls[..|w.calls| - 1];
      AnsweredAppend(a, w.calls[..|w.calls| - 1], db);
    }
  }

  /** How a handler ends once its requests are issued. */
  function Finish(w: Walk): (r: Outcome)
    ensures r.calls == w.calls && !r.Repeats?
    ensures r.Failed? <==> w.error.Some?
    ensures r.Failed? ==> Some(r.error) == w.error
  {
    if w.error.Some? then Failed(w.calls, w.error.value) else Completed(w.calls)
  }

  /** `DoesKeyExistInTable(key, checkBucket)`, then `StartStateMachineExecution`
      for `(startBucket, key)` only when the table has no such item. A lookup
      that throws ends it before any start. */
  function CheckAndStart(key: string, checkBucket: Option<string>, startBucket: Option<string>,
                         arn: Option<string>, db: Db): (r: Walk)
    ensures |r.calls| == 1 || |r.calls| == 2
    ensures r.calls[0] == FindItem(key, checkBucket)
    ensures |r.calls| == 2 <==> db.fails(FindItem(key, checkBucket)).None? && (key, checkBucket) !in db.items
    ensures |r.calls| == 2 ==> r.calls[1] == StartExecution(arn, startBucket, key)
    ensures StopsAtFailure(r, db)
  {
    var find := FindItem(key, checkBucket);
    if db.fails(find).Some? then Walk([find], db.fails(find))
    else if (key, checkBucket) in db.items then Walk([find], None)
    else
      var start := StartExecution(arn, startBucket, key);
      Walk([find, start], db.fails(start))
  }

  /** The `foreach` over one page: image keys are looked up under the
      destination bucket and started under `bucketName`; the first request
      that throws ends the walk. */
  function WalkPage(keys: seq<string>, destination: Option<string>, bucketName: Option<string>,
                    arn: Option<string>, db: Db): (r: Walk)
    ensures StartsFollowMisses(r.calls, db.items)
    ensures StopsAtFailure(r, db)
    ensures forall i :: 0 <= i < |r.calls| && r.calls[i].StartExecution? ==>
              r.calls[i].startBucket == bucketName && r.calls[i].stateMachineArn == arn
    ensures forall i :: 0 <= i < |r.calls| && r.calls[i].FindItem? ==> r.calls[i].bucketName == destination
    ensures forall i :: 0 <= i < |r.calls| ==> !r.calls[i].ListObjects?
    ensures |r.calls| > 0 ==> r.calls[0].FindItem?
  {
    if |keys| == 0 then Walk([], None)
    else
      var head := if IsListedImage(keys[0]) then CheckAndStart(keys[0], destination, bucketName, arn, db) else Walk([], None);
      if head.error.Some? then head
      else
        var rest := WalkPage(keys[1..], destination, bucketName, arn, db);
        StartsFollowMissesAppend(head.calls, rest.calls, db.items);
        StopsAtFailureAppend(head.calls, rest, db);
        Walk(head.calls + rest.calls, rest.error)
  }

  /** Every started execution comes right after the lookup of its key, and that
      lookup found nothing. */
  predicate StartsFollowMisses(calls: seq<Request>, table: set<(string, Option<string>)>) {
    forall i :: 0 <= i < |calls| && calls[i].StartExecution? ==>
      i > 0 && calls[i - 1].FindItem? && calls[i - 1].key == calls[i].startKey
      && (calls[i - 1].key, calls[i - 1].bucketName) !in table
  }

  lemma StartsFollowMissesAppend(a: seq<Request>, b: seq<Request>, table: set<(string, Option<string>)>)
    requires StartsFollowMisses(a, table) && StartsFollowMisses(b, table)
    requires |b| > 0 ==> !b[0].StartExecution?
    ensures StartsFollowMisses(a + b, table)
  {
    var c := a + b;
    forall i | 0 <= i < |c| && c[i].StartExecution?
      ensures i > 0 && c[i - 1].FindItem? && c[i - 1].key == c[i].startKey
              && (c[i - 1].key, c[i - 1].bucketName) !in table
    {
      if i >= |a| {
        assert c[i] == b[i - |a|];
        assert c[i - 1] == b[i - |a| - 1];
      }
    }
  }

  /** The keys of the executions started, in order. */
  function Started(calls: seq<Request>): seq<string> {
    if |calls| == 0 then []
    else (if calls[0].StartExecution? then [calls[0].startKey] else []) + Started(calls[1..])
  }

  lemma {:induction false} StartedAppend(a: seq<Request>, b: seq<Request>)
    ensures Started(a + b) == Started(a) + Started(b)
  {
    if |a| > 0 {
      assert (a + b)[1..] == a[1..] + b;
      StartedAppend(a[1..], b);
    } else {
      assert a + b == b;
    }
  }

  /** Reference definition: the listed image keys the table does not hold
      under `destination`, in listing order. */
  function Pending(keys: seq<string>, destination: Option<string>, table: set<(string, Option<string>)>): seq<string> {
    if |keys| == 0 then []
    else
      (if IsListedImage(keys[0]) && (keys[0], destination) !in table then [keys[0]] else [])
        + Pending(keys[1..], destination, table)
  }

  /** A common front keeps a prefix a prefix. */
  lemma PrefixAppend(h: seq<string>, x: seq<string>, y: seq<string>)
    requires x <= y
    ensures h + x <= h + y
  {
    assert (h + y)[..|h + x|] == h + y[..|x|];
  }

  /** The starts of one lookup-and-start, against `Pending` of that key. */
  lemma CheckAndStartStarts(key: string, destination: Option<string>, bucketName: Option<string>,
                            arn: Option<string>, db: Db)
    requires IsListedImage(key)
    ensures var w := CheckAndStart(key, destination, bucketName, arn, db);
      var pending := Pending([key], destination, db.items);
      Started(w.calls) <= pending && (w.error.None? ==> Started(w.calls) == pending)
  {
    var w := CheckAndStart(key, destination, bucketName, arn, db);
    assert Pending([key], destination, db.items) == (if (key, destination) !in db.items then [key] else []) + Pending([], destination, db.items);
    assert Started(w.calls) == [] + Started(w.calls[1..]);
    if |w.calls| == 2 {
      assert w.calls[1..] == [w.calls[1]];
      assert Started(w.calls[1..]) == [key] + Started(w.calls[1..][1..]);
    }
  }

  lemma PendingCons(keys: seq<string>, destination: Option<string>, table: set<(string, Option<string>)>)
    requires |keys| > 0
    ensures Pending(keys, destination, table) == Pending([keys[0]], destination, table) + Pending(keys[1..], destination, table)
  {
    assert Pending([keys[0]], destination, table)
        == (if IsListedImage(keys[0]) && (keys[0], destination) !in table then [keys[0]] else []) + Pending([], destination, table);
  }

  /** The first step of a page walk starts a prefix of its key's pending list,
      all of it when nothing throws. */
  lemma HeadStarts(key: string, destination: Option<string>, bucketName: Option<string>,
                   arn: Option<string>, db: Db)
    ensures var head := if IsListedImage(key) then CheckAndStart(key, destination, bucketName, arn, db) else Walk([], None);
      var first := Pending([key], destination, db.items);
      Started(head.calls) <= first && (head.error.None? ==> Started(head.calls) == first)
  {
    if IsListedImage(key) {
      CheckAndStartStarts(key, destination, bucketName, arn, db);
    } else {
      assert Pending([key], destination, db.items) == [] + Pending([], destination, db.items);
    }
  }

  /** One walk over a page starts the pending keys in listing order: all of
      them when no request throws, and otherwise a prefix of them. */
  lemma {:induction false} WalkPageStartsPending(keys: seq<string>, destination: Option<string>, bucketName: Option<string>,
                                                 arn: Option<string>, db: Db)
    ensures var r := WalkPage(keys, destination, bucketName, arn, db);
      Started(r.calls) <= Pending(keys, destination, db.items)
      && (r.error.None? ==> Started(r.calls) == Pending(keys, destination, db.items))
  {
    if |keys| > 0 {
      var head := if IsListedImage(keys[0]) then CheckAndStart(keys[0], destination, bucketName, arn, db) else Walk([], None);
      var first := Pending([keys[0]], destination, db.items);
      var later := Pending(keys[1..], destination, db.items);
      PendingCons(keys, destination, db.items);
      HeadStarts(keys[0], destination, bucketName, arn, db);
      if head.error.None? {
        var rest := WalkPage(keys[1..], destination, bucketName, arn, db);
        assert WalkPage(keys, destination, bucketName, arn, db).calls == head.calls + rest.calls;
        StartedAppend(head.calls, rest.calls);
        WalkPageStartsPending(keys[1..], destination, bucketName, arn, db);
        PrefixAppend(first, Started(rest.calls), later);
      } else {
        assert WalkPage(keys, destination, bucketName, arn, db) == head;
        assert (first + later)[..|first|] == first;
      }
    }
  }

  /** The handler as written. A `.jpg`/`.png` key is checked and started under
      `bucketName`. Anything else lists `bucketName` once and walks that one
      response; the `do … while` then re-reads the same response's token, so a
      non-empty token makes the walk repeat forever. A lookup or start that
      throws is rethrown and ends the invocation. A null context throws at
      the first log line, before any request. */
  function FunctionHandler(detail: Option<Detail>, hasContext: bool, env: Env, db: Db, listing: Result<ListPage>)
    : (r: Outcome)
    ensures !hasContext ==> r == Failed([], NullReference)
    ensures var key := if detail.Some? then detail.value.objectKey else None;
      var bucketName := BucketName(detail, env);
      hasContext && key.Some? && IsDirectImage(key.value) ==>
        !r.Repeats? && 1 <= |r.calls| <= 2 && r.calls[0] == FindItem(key.value, bucketName)
        && (r.Completed? <==> Answered(r.calls, db))
        && (r.Failed? ==> db.fails(r.calls[|r.calls| - 1]) == Some(r.error))
        && Started(r.calls) == (if (key.value, bucketName) in db.items || db.fails(FindItem(key.value, bucketName)).Some?
                                then [] else [key.value])
    ensures var key := if detail.Some? then detail.value.objectKey else None;
      hasContext && !(key.Some? && IsDirectImage(key.value)) ==>
        |r.calls| >= 1 && r.calls[0] == ListObjects(BucketName(detail, env), None)
        && (listing.Failure? ==> r == Failed([r.calls[0]], listing.error))
        && (listing.Success? && r.Failed? ==> db.fails(r.calls[|r.calls| - 1]) == Some(r.error))
        && (r.Completed? ==> Answered(r.calls, db))
        && (r.Repeats? ==> Answered(r.round, db))
        && (listing.Success? && !r.Failed? ==> (r.Repeats? <==> !IsNullOrEmpty(listing.value.nextToken)))
  {
    var bucketName := BucketName(detail, env);
    var arn := GetEnv(env, StateMachineArnVar);
    var key := if detail.Some? then detail.value.objectKey else None;
    if !hasContext then Failed([], NullReference)
    else if key.Some? && IsDirectImage(key.value) then
      var w := CheckAndStart(key.value, bucketName, bucketName, arn, db);
      DirectBranch(key.value, bucketName, arn, db);
      Finish(w)
    else
      var list := [ListObjects(bucketName, None)];
      match listing
      case Failure(e) => Failed(list, e)
      case Success(page) =>
        var round := WalkPage(page.keys, GetEnv(env, DestinationBucketVar), bucketName, arn, db);
        ListingBranch(list, round, db);
        if round.error.Some? then Failed(list + round.calls, round.error.value)
        else if IsNullOrEmpty(page.nextToken) then Completed(list + round.calls)
        else Repeats(list, round.calls)
  }

  /** The single-object branch: it completes exactly when both requests are
      answered, ends with the exception of its last request otherwise, and
      starts the key unless the table has it or the lookup throws. */
  lemma DirectBranch(key: string, bucketName: Option<string>, arn: Option<string>, db: Db)
    ensures var w := CheckAndStart(key, bucketName, bucketName, arn, db);
      var r := Finish(w);
      (r.Completed? <==> Answered(r.calls, db))
      && (r.Failed? ==> db.fails(r.calls[|r.calls| - 1]) == Some(r.error))
      && Started(r.calls) == (if (key, bucketName) in db.items || db.fails(FindItem(key, bucketName)).Some? then [] else [key])
  {
    var w := CheckAndStart(key, bucketName, bucketName, arn, db);
    assert Started(w.calls) == [] + Started(w.calls[1..]);
    if |w.calls| == 2 {
      assert w.calls[1..] == [w.calls[1]];
      assert Started(w.calls[1..]) == [key] + Started(w.calls[1..][1..]);
    }
    if w.error.Some? {
      assert !w.calls[|w.calls| - 1].ListObjects?;
    }
  }

  /** The listing branch after a successful listing: the listing request
      is answered by its response, so the round decides the outcome. */
  lemma ListingBranch(list: seq<Request>, round: Walk, db: Db)
    requires |list| == 1 && list[0].ListObjects?
    requires StopsAtFailure(round, db)
    ensures Answered(list + round.calls, db) <==> Answered(round.calls, db)
    ensures round.error.Some? ==> (list + round.calls)[|list + round.calls| - 1] == round.calls[|round.calls| - 1]
  {
    AnsweredAppend(list, round.calls, db);
  }

  /** `round` repeated `n` times. */
  function Repeat(round: seq<Request>, n: nat): (r: seq<Request>)
    ensures |r| == n * |round|
  {
    if n == 0 then [] else round + Repeat(round, n - 1)
  }

  /** The first `n` iterations of the `do … while` over a response whose
      token is `token`: the requests issued and whether the loop has exited. */
  function DoWhile(round: seq<Request>, token: Option<string>, n: nat): (seq<Request>, bool) {
    if n == 0 then ([], false)
    else if IsNullOrEmpty(token) then (round, true)
    else
      var next := DoWhile(round, token, n - 1);
      (round + next.0, next.1)
  }

  /** With a non-empty token the loop never exits: after any number of
      iterations it has issued that many copies of the same round. With an
      empty token it exits after exactly one round. */
  lemma {:induction false} DoWhileRepeats(round: seq<Request>, token: Option<string>, n: nat)
    ensures !IsNullOrEmpty(token) ==> DoWhile(round, token, n) == (Repeat(round, n), false)
    ensures IsNullOrEmpty(token) && n > 0 ==> DoWhile(round, token, n) == (round, true)
  {
    if n > 0 && !IsNullOrEmpty(token) {
      DoWhileRepeats(round, token, n - 1);
    }
  }

  /** The handler's outcome is the loop's: `Repeats` exactly when no number of
      iterations exits, `Completed` exactly when one round exits. */
  lemma HandlerFollowsLoop(detail: Option<Detail>, env: Env, db: Db, page: ListPage, n: nat)
    requires var key := if detail.Some? then detail.value.objectKey else None;
      !(key.Some? && IsDirectImage(key.value))
    ensures var r := FunctionHandler(detail, true, env, db, Success(page));
      r.Repeats? ==> DoWhile(r.round, page.nextToken, n) == (Repeat(r.round, n), false)
    ensures var r := FunctionHandler(detail, true, env, db, Success(page));
      r.Completed? && n > 0 ==> DoWhile(r.calls[1..], page.nextToken, n) == (r.calls[1..], true)
  {
    var r := FunctionHandler(detail, true, env, db, Success(page));
    if r.Repeats? {
      DoWhileRepeats(r.round, page.nextToken, n);
    } else if r.Completed? {
      DoWhileRepeats(r.calls[1..], page.nextToken, n);
    }
  }

  lemma JpgIsImage()
    ensures IsListedImage("a.jpg")
  {
    LowerFixesNoUpper("a.jpg");
    LowerFixesNoUpper(".jpg");
    assert "a.jpg"[5 - 4..] == ".jpg";
  }

  /** Services that answer every request. */
  function NeverFails(q: Request): Option<Error> {
    None
  }

  /** A bucket holding one new image whose listing carries a continuation
      token, with every service answering: the handler never returns and
      starts the same execution on every round. */
  lemma AsWrittenRestartsForever(env: Env)
    ensures var r := FunctionHandler(None, true, env, Db({}, NeverFails), Success(ListPage(["a.jpg"], Some("t"))));
      r.Repeats? && Started(r.round) == ["a.jpg"]
  {
    var db := Db({}, NeverFails);
    var destination := GetEnv(env, DestinationBucketVar);
    JpgIsImage();
    WalkPageStartsPending(["a.jpg"], destination, BucketName(None, env), GetEnv(env, StateMachineArnVar), db);
    assert Pending(["a.jpg"], destination, {}) == ["a.jpg"] + Pending([], destination, {});
  }

  /** Prefixes `calls` to whatever `o` issues. */
  function After(calls: seq<Request>, o: Outcome): (r: Outcome)
    ensures r.Completed? == o.Completed? && r.Failed? == o.Failed? && r.Repeats? == o.Repeats?
    ensures r.calls == calls + o.calls
    ensures r.Failed? ==> r.error == o.error
  {
    match o
    case Completed(c) => Completed(calls + c)
    case Failed(c, e) => Failed(calls + c, e)
    case Repeats(c, round) => Repeats(calls + c, round)
  }

  /** The listing loop as evidently intended: walk each response, then fetch
      the next page with its continuation token until a response has none.
      `pages[i]` is the response to the `i`-th listing request; the walk also
      stops when the oracle runs out, and at the first request that throws. */
  function WalkAll(pages: seq<Result<ListPage>>, destination: Option<string>, bucketName: Option<string>,
                   arn: Option<string>, db: Db): (r: Outcome)
    ensures !r.Repeats?
    ensures |r.calls| > 0 ==> !r.calls[0].StartExecution?
  {
    if |pages| == 0 then Completed([])
    else match pages[0]
      case Failure(e) => Failed([], e)
      case Success(page) =>
        var round := WalkPage(page.keys, destination, bucketName, arn, db);
        if round.error.Some? then Failed(round.calls, round.error.value)
        else if IsNullOrEmpty(page.nextToken) then Completed(round.calls)
        else After(round.calls + [ListObjects(bucketName, page.nextToken)], WalkAll(pages[1..], destination, bucketName, arn, db))
  }

  /** The handler with the corrected loop: the first listing request carries
      no token and every later one carries the previous response's token. */
  function CorrectedHandler(detail: Option<Detail>, hasContext: bool, env: Env, db: Db, pages: seq<Result<ListPage>>)
    : (r: Outcome)
    ensures !r.Repeats?
    ensures !hasContext ==> r == Failed([], NullReference)
  {
    var bucketName := BucketName(detail, env);
    var arn := GetEnv(env, StateMachineArnVar);
    var key := if detail.Some? then detail.value.objectKey else None;
    if !hasContext then Failed([], NullReference)
    else if key.Some? && IsDirectImage(key.value) then
      Finish(CheckAndStart(key.value, bucketName, bucketName, arn, db))
    else
      After([ListObjects(bucketName, None)], WalkAll(pages, GetEnv(env, DestinationBucketVar), bucketName, arn, db))
  }

  /** A complete listing: every response but the last carries a token. */
  predicate CompleteListing(pages: seq<Result<ListPage>>) {
    |pages| > 0
    && (forall i :: 0 <= i < |pages| ==> pages[i].Success?)
    && (forall i :: 0 <= i < |pages| - 1 ==> !IsNullOrEmpty(pages[i].value.nextToken))
    && IsNullOrEmpty(pages[|pages| - 1].value.nextToken)
  }

  /** After a response with a token, the rest of a complete listing is
      complete. */
  lemma CompleteListingTail(pages: seq<Result<ListPage>>)
    requires CompleteListing(pages) && !IsNullOrEmpty(pages[0].value.nextToken)
    ensures CompleteListing(pages[1..])
  {
    var tail := pages[1..];
    assert forall i :: 0 <= i < |tail| ==> tail[i] == pages[i + 1];
  }

  /** All keys of a listing, page after page. */
  function AllKeys(pages: seq<Result<ListPage>>): seq<string>
    requires forall i :: 0 <= i < |pages| ==> pages[i].Success?
  {
    if |pages| == 0 then [] else pages[0].value.keys + AllKeys(pages[1..])
  }

  lemma {:induction false} PendingAppend(a: seq<string>, b: seq<string>, destination: Option<string>, table: set<(string, Option<string>)>)
    ensures Pending(a + b, destination, table) == Pending(a, destination, table) + Pending(b, destination, table)
  {
    if |a| > 0 {
      assert (a + b)[1..] == a[1..] + b;
      PendingAppend(a[1..], b, destination, table);
    } else {
      assert a + b == b;
    }
  }

  /** `WalkAll` over a first response that is a page: its round, then
      either the end or the rest of the listing. */
  lemma WalkAllStep(pages: seq<Result<ListPage>>, destination: Option<string>, bucketName: Option<string>,
                    arn: Option<string>, db: Db)
    requires |pages| > 0 && pages[0].Success?
    ensures var page := pages[0].value;
            var round := WalkPage(page.keys, destination, bucketName, arn, db);
            var next := ListObjects(bucketName, page.nextToken);
            WalkAll(pages, destination, bucketName, arn, db)
              == if round.error.Some? then Failed(round.calls, round.error.value)
                 else if IsNullOrEmpty(page.nextToken) then Completed(round.calls)
                 else After(round.calls + [next], WalkAll(pages[1..], destination, bucketName, arn, db))
  {
  }

  /** Appending a listing request keeps the started keys. */
  lemma StartedAroundListing(round: seq<Request>, list: Request, rest: seq<Request>)
    requires list.ListObjects?
    ensures Started(round + [list] + rest) == Started(round) + Started(rest)
  {
    StartedAppend(round + [list], rest);
    StartedAppend(round, [list]);
    assert Started([list]) == [] + Started([list][1..]);
  }

  /** Appending a listing request keeps the lookup-before-start order. */
  lemma OrderAroundListing(round: seq<Request>, list: Request, rest: seq<Request>, table: set<(string, Option<string>)>)
    requires list.ListObjects?
    requires StartsFollowMisses(round, table) && StartsFollowMisses(rest, table)
    requires |rest| > 0 ==> !rest[0].StartExecution?
    ensures StartsFollowMisses(round + [list] + rest, table)
  {
    StartsFollowMissesAppend(round, [list], table);
    StartsFollowMissesAppend(round + [list], rest, table);
  }

  /** Over a complete listing the corrected walk never repeats; it starts the
      pending keys of all pages in listing order (all of them when it
      completes, a prefix when a request throws), and starts each only after a
      lookup that missed. */
  lemma {:induction false} WalkAllStartsPending(pages: seq<Result<ListPage>>, destination: Option<string>,
                                                bucketName: Option<string>, arn: Option<string>, db: Db)
    requires CompleteListing(pages)
    ensures var r := WalkAll(pages, destination, bucketName, arn, db);
      Started(r.calls) <= Pending(AllKeys(pages), destination, db.items)
      && (r.Completed? ==> Started(r.calls) == Pending(AllKeys(pages), destination, db.items))
      && StartsFollowMisses(r.calls, db.items)
  {
    var page := pages[0].value;
    var round := WalkPage(page.keys, destination, bucketName, arn, db);
    WalkAllStep(pages, destination, bucketName, arn, db);
    WalkPageStartsPending(page.keys, destination, bucketName, arn, db);
    assert AllKeys(pages) == page.keys + AllKeys(pages[1..]);
    PendingAppend(page.keys, AllKeys(pages[1..]), destination, db.items);
    var first := Pending(page.keys, destination, db.items);
    var all := Pending(AllKeys(pages), destination, db.items);
    assert all[..|first|] == first;
    if round.error.Some? {
    } else if IsNullOrEmpty(page.nextToken) {
      assert |pages| == 1;
      assert AllKeys(pages[1..]) == [];
      assert all == first + [];
    } else {
      var tail := pages[1..];
      CompleteListingTail(pages);
      WalkAllStartsPending(tail, destination, bucketName, arn, db);
      var rest := WalkAll(tail, destination, bucketName, arn, db).calls;
      StartedAroundListing(round.calls, ListObjects(bucketName, page.nextToken), rest);
      OrderAroundListing(round.calls, ListObjects(bucketName, page.nextToken), rest, db.items);
      PrefixAppend(first, Started(rest), Pending(AllKeys(tail), destination, db.items));
    }
  }

  /** An outcome completes exactly when every lookup and start it issued
      was answered, and a failed one ends with the request that threw. */
  predicate EndsAtFailure(r: Outcome, db: Db) {
    (r.Completed? <==> Answered(r.calls, db))
    && (r.Failed? ==> |r.calls| > 0 && db.fails(r.calls[|r.calls| - 1]) == Some(r.error))
  }

  /** A walk that threw fails with its own requests. */
  lemma FailedWalkEnds(w: Walk, db: Db)
    requires StopsAtFailure(w, db) && w.error.Some?
    requires forall i :: 0 <= i < |w.calls| ==> !w.calls[i].ListObjects?
    ensures EndsAtFailure(Failed(w.calls, w.error.value), db)
  {
    assert !w.calls[|w.calls| - 1].ListObjects?;
  }

  /** Answered requests in front of an outcome keep where it ends. */
  lemma AfterEnds(front: seq<Request>, o: Outcome, db: Db)
    requires Answered(front, db) && EndsAtFailure(o, db)
    ensures EndsAtFailure(After(front, o), db)
  {
    AnsweredAppend(front, o.calls, db);
    if o.Failed? {
      assert (front + o.calls)[|front + o.calls| - 1] == o.calls[|o.calls| - 1];
    }
  }

  /** Over a complete listing the corrected walk completes exactly when every
      lookup and start is answered; otherwise it ends with the exception of
      its last request. */
  lemma {:induction false} WalkAllStopsAtFailure(pages: seq<Result<ListPage>>, destination: Option<string>,
                                                 bucketName: Option<string>, arn: Option<string>, db: Db)
    requires CompleteListing(pages)
    ensures EndsAtFailure(WalkAll(pages, destination, bucketName, arn, db), db)
  {
    var page := pages[0].value;
    var round := WalkPage(page.keys, destination, bucketName, arn, db);
    WalkAllStep(pages, destination, bucketName, arn, db);
    if round.error.Some? {
      FailedWalkEnds(round, db);
    } else if !IsNullOrEmpty(page.nextToken) {
      var tail := pages[1..];
      CompleteListingTail(pages);
      WalkAllStopsAtFailure(tail, destination, bucketName, arn, db);
      AnsweredAppend(round.calls, [ListObjects(bucketName, page.nextToken)], db);
      AfterEnds(round.calls + [ListObjects(bucketName, page.nextToken)], WalkAll(tail, destination, bucketName, arn, db), db);
    }
  }

  /** The corrected handler agrees with the handler as written whenever the
      latter returns. */
  lemma CorrectedHandlerAgrees(detail: Option<Detail>, hasContext: bool, env: Env, db: Db, page: ListPage)
    requires IsNullOrEmpty(page.nextToken)
    ensures CorrectedHandler(detail, hasContext, env, db, [Success(page)])
         == FunctionHandler(detail, hasContext, env, db, Success(page))
  {
  }

  /** The corrected handler's listing branch: one token-free listing
      request, then the corrected walk. */
  lemma CorrectedListing(detail: Option<Detail>, env: Env, db: Db, pages: seq<Result<ListPage>>)
    requires var key := if detail.Some? then detail.value.objectKey else None;
      !(key.Some? && IsDirectImage(key.value))
    ensures CorrectedHandler(detail, true, env, db, pages)
         == After([ListObjects(BucketName(detail, env), None)],
                  WalkAll(pages, GetEnv(env, DestinationBucketVar), BucketName(detail, env), GetEnv(env, StateMachineArnVar), db))
  {
  }

  /** In the listing branch over a complete listing, the corrected handler
      starts the pending images of every page in listing order: all of them
      when it completes, a prefix when a request throws; and each start
      follows a lookup that missed. */
  lemma CorrectedHandlerStartsPending(detail: Option<Detail>, env: Env, db: Db, pages: seq<Result<ListPage>>)
    requires CompleteListing(pages)
    requires var key := if detail.Some? then detail.value.objectKey else None;
      !(key.Some? && IsDirectImage(key.value))
    ensures var r := CorrectedHandler(detail, true, env, db, pages);
      var pending := Pending(AllKeys(pages), GetEnv(env, DestinationBucketVar), db.items);
      Started(r.calls) <= pending
      && (r.Completed? ==> Started(r.calls) == pending)
      && StartsFollowMisses(r.calls, db.items)
  {
    var destination := GetEnv(env, DestinationBucketVar);
    var bucketName := BucketName(detail, env);
    var arn := GetEnv(env, StateMachineArnVar);
    CorrectedListing(detail, env, db, pages);
    WalkAllStartsPending(pages, destination, bucketName, arn, db);
    var w := WalkAll(pages, destination, bucketName, arn, db);
    var head := [ListObjects(bucketName, None)];
    StartedAppend(head, w.calls);
    assert Started(head) == [] + Started(head[1..]);
    StartsFollowMissesAppend(head, w.calls, db.items);
  }

  /** In the listing branch over a complete listing, the corrected handler
      completes exactly when every lookup and start is answered, and
      otherwise rethrows the exception of its last request. */
  lemma CorrectedHandlerStopsAtFailure(detail: Option<Detail>, env: Env, db: Db, pages: seq<Result<ListPage>>)
    requires CompleteListing(pages)
    requires var key := if detail.Some? then detail.value.objectKey else None;
      !(key.Some? && IsDirectImage(key.value))
    ensures EndsAtFailure(CorrectedHandler(detail, true, env, db, pages), db)
  {
    var destination := GetEnv(env, DestinationBucketVar);
    var bucketName := BucketName(detail, env);
    var arn := GetEnv(env, StateMachineArnVar);
    CorrectedListing(detail, env, db, pages);
    WalkAllStopsAtFailure(pages, destination, bucketName, arn, db);
    AfterEnds([ListObjects(bucketName, None)], WalkAll(pages, destination, bucketName, arn, db), db);
  }
}
