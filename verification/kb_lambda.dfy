/** The knowledge-base custom resource: the CloudFormation handler that, on
    `Create`, builds the OpenSearch Serverless policies and collection, the
    vector index, the Bedrock knowledge base and its data source, records
    their ids in the parameter store and starts an ingestion job; and the
    `Delete` helpers that find those resources again by name. Every service
    is an oracle; the parameter store is a map. */
module KbLambda {
  import opened Wrappers

  const MaxAttempts := 30
  const IndexDimension := 1536
  const PhysicalResourceId := "CustomResourcePhysicalID"
  const CreateReason := "CreateKnowledgeBase successful"
  const UpdateReason := "UpdateKnowledgeBase successful"
  const DeleteReason := "DeleteKnowledgeBase successful"

  /** `$"{namePrefix}-{nameSuffix}"`: every resource's name. */
  function Name(prefix: string, suffix: string): (r: string)
    ensures |r| == |prefix| + 1 + |suffix| && r[|prefix|] == '-'
    ensures r[..|prefix|] == prefix && r[|prefix| + 1..] == suffix
  {
    prefix + "-" + suffix
  }

  /** `$"{namePrefix}-vector"`: the vector field. */
  function VectorField(prefix: string): string {
    prefix + "-vector"
  }

  /** `$"{namePrefix}-{nameSuffix}/{leaf}"`: the name `Create` hands to
      `StoreParameters` for one recorded value. */
  function Leaf(prefix: string, suffix: string, leaf: string): string {
    Name(prefix, suffix) + "/" + leaf
  }

  /** The parameter-store name of one recorded value: `StoreParameters`
      prefixes the name with `/`. */
  function ParameterName(prefix: string, suffix: string, leaf: string): (r: string)
    ensures |r| == 1 + |Name(prefix, suffix)| + 1 + |leaf|
    ensures r[0] == '/' && r[|r| - |leaf|..] == leaf
  {
    "/" + Leaf(prefix, suffix, leaf)
  }

  /** Two parameters of the same resource are distinct when their leaves
      are. */
  lemma ParameterNamesDiffer(prefix: string, suffix: string, a: string, b: string)
    requires a != b
    ensures ParameterName(prefix, suffix, a) != ParameterName(prefix, suffix, b)
  {
    var x, y := ParameterName(prefix, suffix, a), ParameterName(prefix, suffix, b);
    if |a| == |b| {
      var k :| 0 <= k < |a| && a[k] != b[k];
      var n := 1 + |Name(prefix, suffix)| + 1;
      assert x[n + k] == x[|x| - |a|..][k] == a[k];
      assert y[n + k] == y[|y| - |b|..][k] == b[k];
    }
  }

  type Store = map<string, string>

  /** A request a handler issues. */
  datatype KbCall =
    | CreateAccessPolicy(name: string, policyType: string, principals: seq<string>)
    | CreateSecurityPolicy(name: string, policyType: string)
    | CreateCollection(name: string, collectionType: string)
    | BatchGetCollection(id: Option<string>)
    | PutParameter(parameter: string, value: string)
    | CreateIndex(host: string, name: string, vectorField: string, dimension: nat)
    | CreateKnowledgeBase(name: string, roleArn: string, modelArn: string, collectionArn: Option<string>,
                          indexName: string, vectorField: string)
    | CreateDataSource(name: string, knowledgeBaseId: Option<string>, bucketArn: string)
    | StartIngestion(knowledgeBaseId: Option<string>, dataSourceId: Option<string>)
    | DeleteAccessPolicy(name: string, policyType: string)
    | DeleteSecurityPolicy(name: string, policyType: string)
    | GetParameter(parameter: string)
    | DeleteCollection(collectionId: string)
    | DeleteKnowledgeBase(knowledgeBaseIdToDelete: string)

  /** The requests issued, the parameter store afterwards, and the outcome. */
  datatype Progress<T> = Progress(calls: seq<KbCall>, store: Store, result: Result<T>)

  // ---------------------------------------------------------------------------
  // The parameter store
  // ---------------------------------------------------------------------------

  /** The exception the service raises for a `PutParameter` with a null
      value. */
  const NullValueRejected := Service("ValidationException")

  /** The exception `GetParameterAsync` raises for a name that is not stored. */
  const ParameterNotFound := Service("ParameterNotFound")

  /** `StoreParameters(name, value)`: a `PutParameter` of `"/" + name` with
      `Overwrite = true`. The service rejects a null value, and `refused` is
      the exception it raises for a non-null one, if any. Either failure is
      rethrown, and a failed put stores nothing. */
  function StoreParameter(store: Store, name: string, value: Option<string>, refused: Option<Error>): (r: Progress<()>)
    ensures r.result.Success? <==> value.Some? && refused.None?
    ensures value.None? ==> r.result == Failure(NullValueRejected)
    ensures value.Some? && refused.Some? ==> r.result == Failure(refused.value)
    ensures r.calls == (if value.Some? then [PutParameter("/" + name, value.value)] else [])
    ensures r.result.Success? ==> "/" + name in r.store && r.store["/" + name] == value.value
    ensures r.result.Failure? ==> r.store == store
    ensures forall k :: k != "/" + name ==> (k in r.store <==> k in store)
    ensures forall k :: k != "/" + name && k in store ==> r.store[k] == store[k]
  {
    match value
    case None => Progress([], store, Failure(NullValueRejected))
    case Some(v) =>
      if refused.Some? then Progress([PutParameter("/" + name, v)], store, Failure(refused.value))
      else Progress([PutParameter("/" + name, v)], store["/" + name := v], Success(()))
  }

  /** Whatever was stored under the name before, the new value wins. */
  lemma StoreParameterOverwrites(a: Store, b: Store, name: string, value: string)
    ensures StoreParameter(a, name, Some(value), None).store["/" + name]
         == StoreParameter(b, name, Some(value), None).store["/" + name]
  {
  }

  /** `SmsParameters.GetParameter`: a missing parameter is a service error,
      and `fails` is the exception `GetParameterAsync` raises for a stored
      one, if any. Both are rethrown. */
  function ReadParameter(store: Store, name: string, fails: Option<Error>): (r: Progress<string>)
    ensures r.calls == [GetParameter(name)] && r.store == store
    ensures r.result.Success? <==> name in store && fails.None?
    ensures r.result.Success? ==> r.result.value == store[name]
    ensures name !in store ==> r.result == Failure(ParameterNotFound)
    ensures name in store && fails.Some? ==> r.result == Failure(fails.value)
  {
    if name !in store then Progress([GetParameter(name)], store, Failure(ParameterNotFound))
    else if fails.Some? then Progress([GetParameter(name)], store, Failure(fails.value))
    else Progress([GetParameter(name)], store, Success(store[name]))
  }

  /** One value `Create` records: the last segment of its parameter's name,
      and the value, null when the response lacked it. */
  datatype Entry = Entry(leaf: string, value: Option<string>)

  /** The put of one entry completes: the value is non-null and the service
      accepts it. `puts(p)` is the exception the service raises for a put of
      parameter `p`, if any. */
  predicate Stores(prefix: string, suffix: string, e: Entry, puts: string -> Option<Error>) {
    e.value.Some? && puts(ParameterName(prefix, suffix, e.leaf)).None?
  }

  /** The exception of a put that does not complete. */
  function PutError(prefix: string, suffix: string, e: Entry, puts: string -> Option<Error>): Error
    requires !Stores(prefix, suffix, e, puts)
  {
    if e.value.None? then NullValueRejected else puts(ParameterName(prefix, suffix, e.leaf)).value
  }

  /** The index of the first entry whose put does not complete, or the
      number of entries when every put does. */
  function FirstRefused(prefix: string, suffix: string, entries: seq<Entry>, puts: string -> Option<Error>): (r: nat)
    ensures r <= |entries|
    ensures forall j :: 0 <= j < r ==> Stores(prefix, suffix, entries[j], puts)
    ensures r < |entries| ==> !Stores(prefix, suffix, entries[r], puts)
  {
    if |entries| == 0 || !Stores(prefix, suffix, entries[0], puts) then 0
    else 1 + FirstRefused(prefix, suffix, entries[1..], puts)
  }

  /** Consecutive `StoreParameters` calls, one per entry and in order. The
      first put that does not complete is rethrown and ends the sequence. */
  function StoreAll(prefix: string, suffix: string, entries: seq<Entry>, store: Store, puts: string -> Option<Error>)
    : (r: Progress<()>)
    ensures r.result.Success? <==> forall i :: 0 <= i < |entries| ==> Stores(prefix, suffix, entries[i], puts)
    ensures |r.calls| <= |entries|
    ensures r.result.Success? ==> |r.calls| == |entries|
    decreases |entries|
  {
    if |entries| == 0 then Progress([], store, Success(()))
    else
      var e := entries[0];
      var first := StoreParameter(store, Leaf(prefix, suffix, e.leaf), e.value, puts(ParameterName(prefix, suffix, e.leaf)));
      if first.result.Failure? then first
      else
        var rest := StoreAll(prefix, suffix, entries[1..], first.store, puts);
        assert forall i :: 1 <= i < |entries| ==> entries[i] == entries[1..][i - 1];
        Progress(first.calls + rest.calls, rest.store, rest.result)
  }

  /** The `i`-th request of the sequence is the put of the `i`-th entry. */
  lemma {:induction false} StoreAllCalls(prefix: string, suffix: string, entries: seq<Entry>, store: Store,
                                         puts: string -> Option<Error>)
    ensures var r := StoreAll(prefix, suffix, entries, store, puts);
      forall i :: 0 <= i < |r.calls| ==>
        entries[i].value.Some?
        && r.calls[i] == PutParameter(ParameterName(prefix, suffix, entries[i].leaf), entries[i].value.value)
    decreases |entries|
  {
    if |entries| > 0 {
      var e := entries[0];
      var first := StoreParameter(store, Leaf(prefix, suffix, e.leaf), e.value, puts(ParameterName(prefix, suffix, e.leaf)));
      if first.result.Success? {
        var rest := entries[1..];
        var tail := StoreAll(prefix, suffix, rest, first.store, puts);
        StoreAllCalls(prefix, suffix, rest, first.store, puts);
        var calls := StoreAll(prefix, suffix, entries, store, puts).calls;
        assert calls == first.calls + tail.calls;
        forall i | 0 <= i < |calls|
          ensures entries[i].value.Some?
                  && calls[i] == PutParameter(ParameterName(prefix, suffix, entries[i].leaf), entries[i].value.value)
        {
          if i > 0 {
            assert calls[i] == tail.calls[i - 1] && entries[i] == rest[i - 1];
          }
        }
      }
    }
  }

  /** A sequence that fails rethrows the failure of the first entry whose
      put does not complete, after the puts of the entries before it and
      that entry's own put when its value is non-null. */
  lemma {:induction false} StoreAllFails(prefix: string, suffix: string, entries: seq<Entry>, store: Store,
                                         puts: string -> Option<Error>)
    ensures var r := StoreAll(prefix, suffix, entries, store, puts);
      var k := FirstRefused(prefix, suffix, entries, puts);
      r.result.Failure? ==>
        k < |entries| && r.result == Failure(PutError(prefix, suffix, entries[k], puts))
        && |r.calls| == k + (if entries[k].value.Some? then 1 else 0)
    decreases |entries|
  {
    if |entries| > 0 {
      var e := entries[0];
      var first := StoreParameter(store, Leaf(prefix, suffix, e.leaf), e.value, puts(ParameterName(prefix, suffix, e.leaf)));
      if first.result.Success? {
        var rest := entries[1..];
        StoreAllFails(prefix, suffix, rest, first.store, puts);
        assert FirstRefused(prefix, suffix, entries, puts) == 1 + FirstRefused(prefix, suffix, rest, puts);
        assert forall i :: 1 <= i < |entries| ==> entries[i] == rest[i - 1];
      }
    }
  }

  /** `k` is the parameter name of one of the entries. */
  predicate Named(prefix: string, suffix: string, entries: seq<Entry>, k: string) {
    exists i :: 0 <= i < |entries| && ParameterName(prefix, suffix, entries[i].leaf) == k
  }

  /** A name of the entries is the first entry's or one of the rest's. */
  lemma NamedCons(prefix: string, suffix: string, entries: seq<Entry>, k: string)
    requires |entries| > 0
    ensures Named(prefix, suffix, entries, k)
            <==> ParameterName(prefix, suffix, entries[0].leaf) == k || Named(prefix, suffix, entries[1..], k)
  {
    if Named(prefix, suffix, entries[1..], k) {
      var i :| 0 <= i < |entries| - 1 && ParameterName(prefix, suffix, entries[1..][i].leaf) == k;
      assert ParameterName(prefix, suffix, entries[i + 1].leaf) == k;
    }
    if Named(prefix, suffix, entries, k) && ParameterName(prefix, suffix, entries[0].leaf) != k {
      var i :| 0 <= i < |entries| && ParameterName(prefix, suffix, entries[i].leaf) == k;
      assert entries[1..][i - 1] == entries[i];
    }
  }

  /** The sequence changes only its own parameters. */
  lemma {:induction false} StoreAllFrame(prefix: string, suffix: string, entries: seq<Entry>, store: Store,
                                         puts: string -> Option<Error>)
    ensures var r := StoreAll(prefix, suffix, entries, store, puts);
      forall k :: !Named(prefix, suffix, entries, k) ==>
        (k in r.store <==> k in store) && (k in store ==> r.store[k] == store[k])
    decreases |entries|
  {
    if |entries| > 0 {
      var e := entries[0];
      var name := ParameterName(prefix, suffix, e.leaf);
      var first := StoreParameter(store, Leaf(prefix, suffix, e.leaf), e.value, puts(name));
      if first.result.Success? {
        StoreAllFrame(prefix, suffix, entries[1..], first.store, puts);
        forall k | !Named(prefix, suffix, entries, k)
          ensures !Named(prefix, suffix, entries[1..], k) && k != name
        {
          NamedCons(prefix, suffix, entries, k);
        }
      }
    }
  }

  /** When the sequence completes and the leaves are distinct, each
      parameter holds its entry's value. */
  lemma {:induction false} StoreAllRecords(prefix: string, suffix: string, entries: seq<Entry>, store: Store,
                                           puts: string -> Option<Error>)
    requires forall i, j :: 0 <= i < j < |entries| ==> entries[i].leaf != entries[j].leaf
    ensures var r := StoreAll(prefix, suffix, entries, store, puts);
      r.result.Success? ==>
        forall i :: 0 <= i < |entries| ==>
          entries[i].value.Some? && ParameterName(prefix, suffix, entries[i].leaf) in r.store
          && r.store[ParameterName(prefix, suffix, entries[i].leaf)] == entries[i].value.value
    decreases |entries|
  {
    if |entries| > 0 {
      var e := entries[0];
      var name := ParameterName(prefix, suffix, e.leaf);
      var first := StoreParameter(store, Leaf(prefix, suffix, e.leaf), e.value, puts(name));
      if first.result.Success? {
        var rest := entries[1..];
        assert forall i :: 1 <= i < |entries| ==> entries[i] == rest[i - 1];
        StoreAllRecords(prefix, suffix, rest, first.store, puts);
        StoreAllFrame(prefix, suffix, rest, first.store, puts);
        forall i | 0 <= i < |rest|
          ensures ParameterName(prefix, suffix, rest[i].leaf) != name
        {
          ParameterNamesDiffer(prefix, suffix, rest[i].leaf, e.leaf);
        }
        assert !Named(prefix, suffix, rest, name);
      }
    }
  }

  // ---------------------------------------------------------------------------
  // Polling the collection
  // ---------------------------------------------------------------------------

  /** A collection as `BatchGetCollection` describes it. */
  datatype CollectionDetail = CollectionDetail(id: Option<string>, arn: Option<string>, name: Option<string>,
                                               endpoint: Option<string>, status: Option<string>)

  /** `new CollectionDetail()`. */
  const EmptyDetail := CollectionDetail(None, None, None, None, None)

  /** The first collection of a response is `ACTIVE` (a null list reads as
      an empty one). */
  predicate IsActive(batch: seq<CollectionDetail>) {
    |batch| > 0 && batch[0].status == Some("ACTIVE")
  }

  /** A poll that ends the loop: it failed, or it saw an active collection. */
  predicate Settles(poll: Result<seq<CollectionDetail>>) {
    poll.Failure? || IsActive(poll.value)
  }

  /** The first attempt from `attempt` on whose poll settles, or
      `MaxAttempts` when none does. */
  function FirstSettled(polls: nat -> Result<seq<CollectionDetail>>, attempt: nat): (r: nat)
    requires attempt <= MaxAttempts
    ensures attempt <= r <= MaxAttempts
    ensures r < MaxAttempts ==> Settles(polls(r))
    ensures forall k :: attempt <= k < r ==> !Settles(polls(k))
    decreases MaxAttempts - attempt
  {
    if attempt == MaxAttempts || Settles(polls(attempt)) then attempt else FirstSettled(polls, attempt + 1)
  }

  /** The four values of an active collection, in the order they are
      stored. */
  function CollectionEntries(c: CollectionDetail): seq<Entry> {
    [Entry("collectionId", c.id), Entry("collectionArn", c.arn),
     Entry("collectionName", c.name), Entry("collectionEndpoint", c.endpoint)]
  }

  /** All four puts of an active collection complete. */
  predicate CollectionRecorded(prefix: string, suffix: string, c: CollectionDetail, puts: string -> Option<Error>) {
    c.id.Some? && c.arn.Some? && c.name.Some? && c.endpoint.Some?
    && puts(ParameterName(prefix, suffix, "collectionId")).None?
    && puts(ParameterName(prefix, suffix, "collectionArn")).None?
    && puts(ParameterName(prefix, suffix, "collectionName")).None?
    && puts(ParameterName(prefix, suffix, "collectionEndpoint")).None?
  }

  /** The four `StoreParameters` calls for an active collection. */
  function StoreCollection(prefix: string, suffix: string, c: CollectionDetail, store: Store,
                           puts: string -> Option<Error>): (r: Progress<()>)
    ensures r.result.Success? <==> CollectionRecorded(prefix, suffix, c, puts)
    ensures r.result.Failure? ==>
              var k := FirstRefused(prefix, suffix, CollectionEntries(c), puts);
              k < 4 && r.result == Failure(PutError(prefix, suffix, CollectionEntries(c)[k], puts))
    ensures forall i :: 0 <= i < |r.calls| ==> r.calls[i].PutParameter?
    ensures r.result.Success? ==> |r.calls| == 4
    ensures r.result.Success? ==>
              ParameterName(prefix, suffix, "collectionId") in r.store
              && r.store[ParameterName(prefix, suffix, "collectionId")] == c.id.value
              && ParameterName(prefix, suffix, "collectionArn") in r.store
              && r.store[ParameterName(prefix, suffix, "collectionArn")] == c.arn.value
              && ParameterName(prefix, suffix, "collectionName") in r.store
              && r.store[ParameterName(prefix, suffix, "collectionName")] == c.name.value
              && ParameterName(prefix, suffix, "collectionEndpoint") in r.store
              && r.store[ParameterName(prefix, suffix, "collectionEndpoint")] == c.endpoint.value
  {
    CollectionStoresAll(prefix, suffix, c, puts);
    CollectionStoreHolds(prefix, suffix, c, store, puts);
    StoreAllCalls(prefix, suffix, CollectionEntries(c), store, puts);
    StoreAllFails(prefix, suffix, CollectionEntries(c), store, puts);
    StoreAll(prefix, suffix, CollectionEntries(c), store, puts)
  }

  /** Every entry of the collection stores exactly when the collection is
      recorded. */
  lemma CollectionStoresAll(prefix: string, suffix: string, c: CollectionDetail, puts: string -> Option<Error>)
    ensures (forall i :: 0 <= i < 4 ==> Stores(prefix, suffix, CollectionEntries(c)[i], puts))
            <==> CollectionRecorded(prefix, suffix, c, puts)
  {
    var entries := CollectionEntries(c);
    assert Stores(prefix, suffix, entries[0], puts) && Stores(prefix, suffix, entries[1], puts)
           && Stores(prefix, suffix, entries[2], puts) && Stores(prefix, suffix, entries[3], puts)
           <==> CollectionRecorded(prefix, suffix, c, puts);
  }

  /** After the four stores complete, each parameter holds its value. */
  lemma CollectionStoreHolds(prefix: string, suffix: string, c: CollectionDetail, store: Store,
                             puts: string -> Option<Error>)
    ensures var r := StoreAll(prefix, suffix, CollectionEntries(c), store, puts);
      r.result.Success? ==>
        CollectionRecorded(prefix, suffix, c, puts)
        && ParameterName(prefix, suffix, "collectionId") in r.store
        && r.store[ParameterName(prefix, suffix, "collectionId")] == c.id.value
        && ParameterName(prefix, suffix, "collectionArn") in r.store
        && r.store[ParameterName(prefix, suffix, "collectionArn")] == c.arn.value
        && ParameterName(prefix, suffix, "collectionName") in r.store
        && r.store[ParameterName(prefix, suffix, "collectionName")] == c.name.value
        && ParameterName(prefix, suffix, "collectionEndpoint") in r.store
        && r.store[ParameterName(prefix, suffix, "collectionEndpoint")] == c.endpoint.value
  {
    var entries := CollectionEntries(c);
    assert forall i, j :: 0 <= i < j < |entries| ==> |entries[i].leaf| < |entries[j].leaf|;
    StoreAllRecords(prefix, suffix, entries, store, puts);
    CollectionStoresAll(prefix, suffix, c, puts);
    assert entries[0] == Entry("collectionId", c.id) && entries[1] == Entry("collectionArn", c.arn);
    assert entries[2] == Entry("collectionName", c.name) && entries[3] == Entry("collectionEndpoint", c.endpoint);
  }


  /** The polling loop of `Create.Collection` from `attempt` on: each
      attempt asks for the collection; the first `ACTIVE` one has its four
      parameters stored and is returned; a failure is rethrown; after
      `MaxAttempts` attempts an empty detail is returned. `polls(k)` is the
      response to the `k`-th attempt. */
  function Poll(id: Option<string>, prefix: string, suffix: string, polls: nat -> Result<seq<CollectionDetail>>,
                puts: string -> Option<Error>, attempt: nat, store: Store): (r: Progress<CollectionDetail>)
    requires attempt <= MaxAttempts
    ensures var k := FirstSettled(polls, attempt);
            var n := if k == MaxAttempts then k - attempt else k - attempt + 1;
            |r.calls| >= n && (forall i :: 0 <= i < n ==> r.calls[i] == BatchGetCollection(id))
            && (forall i :: n <= i < |r.calls| ==> r.calls[i].PutParameter?)
    ensures var k := FirstSettled(polls, attempt);
            k == MaxAttempts ==> r.result == Success(EmptyDetail) && r.store == store && |r.calls| == k - attempt
    ensures var k := FirstSettled(polls, attempt);
            k < MaxAttempts && polls(k).Failure? ==> r.result == Failure(polls(k).error) && r.store == store
    ensures var k := FirstSettled(polls, attempt);
            k < MaxAttempts && polls(k).Success? ==>
              r.result.Success? == StoreCollection(prefix, suffix, polls(k).value[0], store, puts).result.Success?
              && r.store == StoreCollection(prefix, suffix, polls(k).value[0], store, puts).store
              && (r.result.Success? ==> r.result.value == polls(k).value[0])
              && (r.result.Failure? ==> r.result.error == StoreCollection(prefix, suffix, polls(k).value[0], store, puts).result.error)
    decreases MaxAttempts - attempt
  {
    if attempt == MaxAttempts then Progress([], store, Success(EmptyDetail))
    else
      var get := [BatchGetCollection(id)];
      match polls(attempt)
      case Failure(e) => Progress(get, store, Failure(e))
      case Success(batch) =>
        if IsActive(batch) then
          var stored := StoreCollection(prefix, suffix, batch[0], store, puts);
          var result := if stored.result.Failure? then Failure(stored.result.error) else Success(batch[0]);
          Progress(get + stored.calls, stored.store, result)
        else
          var rest := Poll(id, prefix, suffix, polls, puts, attempt + 1, store);
          Progress(get + rest.calls, rest.store, rest.result)
  }

  /** The loop asks at most `MaxAttempts` times. */
  lemma PollBound(id: Option<string>, prefix: string, suffix: string,
                  polls: nat -> Result<seq<CollectionDetail>>, puts: string -> Option<Error>, store: Store)
    ensures |Polled(Poll(id, prefix, suffix, polls, puts, 0, store).calls, id)| <= MaxAttempts
  {
    var r := Poll(id, prefix, suffix, polls, puts, 0, store);
    var k := FirstSettled(polls, 0);
    PolledPrefix(r.calls, id, if k == MaxAttempts then k else k + 1);
  }

  /** When no poll ever sees an active collection, the loop asks exactly
      `MaxAttempts` times, stores nothing and returns the empty detail. */
  lemma PollExhausted(id: Option<string>, prefix: string, suffix: string,
                      polls: nat -> Result<seq<CollectionDetail>>, puts: string -> Option<Error>, store: Store)
    requires forall k :: 0 <= k < MaxAttempts ==> !Settles(polls(k))
    ensures var r := Poll(id, prefix, suffix, polls, puts, 0, store);
            |r.calls| == MaxAttempts && |Polled(r.calls, id)| == MaxAttempts
            && r.store == store && r.result == Success(EmptyDetail)
  {
    var r := Poll(id, prefix, suffix, polls, puts, 0, store);
    FirstSettledIs(polls, 0, MaxAttempts);
    PolledPrefix(r.calls, id, MaxAttempts);
  }

  /** The leading run of `BatchGetCollection` requests. */
  function Polled(calls: seq<KbCall>, id: Option<string>): (r: seq<KbCall>)
    ensures |r| <= |calls| && r == calls[..|r|]
  {
    if |calls| > 0 && calls[0] == BatchGetCollection(id) then [calls[0]] + Polled(calls[1..], id) else []
  }

  lemma {:induction false} PolledPrefix(calls: seq<KbCall>, id: Option<string>, n: nat)
    requires n <= |calls|
    requires forall i :: 0 <= i < n ==> calls[i] == BatchGetCollection(id)
    requires forall i :: n <= i < |calls| ==> calls[i].PutParameter?
    ensures |Polled(calls, id)| == n
    decreases n
  {
    if n > 0 {
      PolledPrefix(calls[1..], id, n - 1);
    } else if |calls| > 0 {
      assert calls[0].PutParameter?;
    }
  }

  /** The first attempt that sees an active collection ends the loop after
      exactly that many polls. The loop returns that collection iff its
      four puts complete, and otherwise rethrows the first put's failure. */
  lemma PollStopsAtFirstActive(id: Option<string>, prefix: string, suffix: string,
                               polls: nat -> Result<seq<CollectionDetail>>, puts: string -> Option<Error>,
                               store: Store, k: nat)
    requires k < MaxAttempts && polls(k).Success? && IsActive(polls(k).value)
    requires forall j :: 0 <= j < k ==> polls(j).Success? && !IsActive(polls(j).value)
    ensures var r := Poll(id, prefix, suffix, polls, puts, 0, store);
            |Polled(r.calls, id)| == k + 1
            && (r.result.Success? <==> CollectionRecorded(prefix, suffix, polls(k).value[0], puts))
    ensures var r := Poll(id, prefix, suffix, polls, puts, 0, store);
            r.result.Failure? ==> r.result.error == StoreCollection(prefix, suffix, polls(k).value[0], store, puts).result.error
    ensures var r := Poll(id, prefix, suffix, polls, puts, 0, store);
            r.result.Success? ==>
              r.result == Success(polls(k).value[0]) && |r.calls| == k + 5
              && ParameterName(prefix, suffix, "collectionId") in r.store
              && r.store[ParameterName(prefix, suffix, "collectionId")] == polls(k).value[0].id.value
  {
    FirstSettledIs(polls, 0, k);
    var r := Poll(id, prefix, suffix, polls, puts, 0, store);
    var stored := StoreCollection(prefix, suffix, polls(k).value[0], store, puts);
    assert r.result.Success? == stored.result.Success? && r.store == stored.store;
    PolledPrefix(r.calls, id, k + 1);
    if r.result.Success? {
      PollCallCount(id, prefix, suffix, polls, puts, 0, store);
    }
  }

  lemma {:induction false} FirstSettledIs(polls: nat -> Result<seq<CollectionDetail>>, attempt: nat, k: nat)
    requires attempt <= k <= MaxAttempts && (k < MaxAttempts ==> Settles(polls(k)))
    requires forall j :: attempt <= j < k ==> !Settles(polls(j))
    ensures FirstSettled(polls, attempt) == k
    decreases k - attempt
  {
    if attempt < k {
      FirstSettledIs(polls, attempt + 1, k);
    }
  }

  /** On a successful active poll the loop's requests are the polls and
      the four stores. */
  lemma {:induction false} PollCallCount(id: Option<string>, prefix: string, suffix: string,
                                         polls: nat -> Result<seq<CollectionDetail>>, puts: string -> Option<Error>,
                                         attempt: nat, store: Store)
    requires attempt <= MaxAttempts
    requires var k := FirstSettled(polls, attempt);
             k < MaxAttempts && polls(k).Success?
             && StoreCollection(prefix, suffix, polls(k).value[0], store, puts).result.Success?
    ensures |Poll(id, prefix, suffix, polls, puts, attempt, store).calls| == FirstSettled(polls, attempt) - attempt + 5
    decreases MaxAttempts - attempt
  {
    if !Settles(polls(attempt)) {
      PollCallCount(id, prefix, suffix, polls, puts, attempt + 1, store);
    }
  }

  // ---------------------------------------------------------------------------
  // The knowledge base and its data source
  // ---------------------------------------------------------------------------

  datatype KnowledgeBaseDetail = KnowledgeBaseDetail(id: Option<string>, arn: Option<string>)
  datatype KnowledgeBaseResponse = KnowledgeBaseResponse(knowledgeBase: Option<KnowledgeBaseDetail>)
  datatype DataSourceDetail = DataSourceDetail(id: Option<string>)
  datatype DataSourceResponse = DataSourceResponse(dataSource: Option<DataSourceDetail>)

  /** `knowledgeBase?.KnowledgeBase?.KnowledgeBaseId`. */
  function KnowledgeBaseId(response: Option<KnowledgeBaseResponse>): Option<string> {
    if response.Some? && response.value.knowledgeBase.Some? then response.value.knowledgeBase.value.id else None
  }

  /** The response carries everything `Create.KnowledgeBase` records. */
  predicate KnowledgeBaseComplete(response: Option<KnowledgeBaseResponse>) {
    response.Some? && response.value.knowledgeBase.Some?
    && response.value.knowledgeBase.value.id.Some? && response.value.knowledgeBase.value.arn.Some?
  }

  /** After `CreateKnowledgeBase`: the id and ARN are stored only when the
      response, its knowledge base, the id and the ARN are all present;
      otherwise the response is handed back untouched. A put that fails is
      rethrown. */
  function RecordKnowledgeBase(prefix: string, suffix: string, response: Option<KnowledgeBaseResponse>, store: Store,
                               puts: string -> Option<Error>)
    : (r: Progress<Option<KnowledgeBaseResponse>>)
    ensures r.result.Success? <==>
              !KnowledgeBaseComplete(response)
              || (puts(ParameterName(prefix, suffix, "knowledgeBaseId")).None?
                  && puts(ParameterName(prefix, suffix, "knowledgeBaseArn")).None?)
    ensures r.result.Success? ==> r.result.value == response
    ensures !KnowledgeBaseComplete(response) ==> r.calls == [] && r.store == store
    ensures KnowledgeBaseComplete(response) && puts(ParameterName(prefix, suffix, "knowledgeBaseId")).Some? ==>
              r.calls == [PutParameter(ParameterName(prefix, suffix, "knowledgeBaseId"), response.value.knowledgeBase.value.id.value)]
              && r.result == Failure(puts(ParameterName(prefix, suffix, "knowledgeBaseId")).value)
    ensures KnowledgeBaseComplete(response) && puts(ParameterName(prefix, suffix, "knowledgeBaseId")).None?
            && puts(ParameterName(prefix, suffix, "knowledgeBaseArn")).Some? ==>
              r.result == Failure(puts(ParameterName(prefix, suffix, "knowledgeBaseArn")).value)
    ensures KnowledgeBaseComplete(response) && r.result.Success? ==>
              var kb := response.value.knowledgeBase.value;
              r.calls == [PutParameter(ParameterName(prefix, suffix, "knowledgeBaseId"), kb.id.value),
                          PutParameter(ParameterName(prefix, suffix, "knowledgeBaseArn"), kb.arn.value)]
              && ParameterName(prefix, suffix, "knowledgeBaseId") in r.store
              && r.store[ParameterName(prefix, suffix, "knowledgeBaseId")] == kb.id.value
              && ParameterName(prefix, suffix, "knowledgeBaseArn") in r.store
              && r.store[ParameterName(prefix, suffix, "knowledgeBaseArn")] == kb.arn.value
    ensures forall k :: (k in store && k != ParameterName(prefix, suffix, "knowledgeBaseId")
                         && k != ParameterName(prefix, suffix, "knowledgeBaseArn")) ==> k in r.store && r.store[k] == store[k]
  {
    if !KnowledgeBaseComplete(response) then Progress([], store, Success(response))
    else
      var kb := response.value.knowledgeBase.value;
      var idName := ParameterName(prefix, suffix, "knowledgeBaseId");
      var arnName := ParameterName(prefix, suffix, "knowledgeBaseArn");
      ParameterNamesDiffer(prefix, suffix, "knowledgeBaseId", "knowledgeBaseArn");
      var a := StoreParameter(store, Leaf(prefix, suffix, "knowledgeBaseId"), kb.id, puts(idName));
      if a.result.Failure? then Progress(a.calls, a.store, Failure(a.result.error))
      else
        var b := StoreParameter(a.store, Leaf(prefix, suffix, "knowledgeBaseArn"), kb.arn, puts(arnName));
        if b.result.Failure? then Progress(a.calls + b.calls, b.store, Failure(b.result.error))
        else Progress(a.calls + b.calls, b.store, Success(response))
  }

  /** The data-source response carries the id `Create.DataSource` records. */
  predicate HasDataSourceId(response: Option<DataSourceResponse>) {
    response.Some? && response.value.dataSource.Some? && response.value.dataSource.value.id.Some?
  }

  /** After `CreateDataSource`: `dataSourceId` is stored only when present,
      and a put that fails is rethrown. */
  function RecordDataSource(prefix: string, suffix: string, response: Option<DataSourceResponse>, store: Store,
                            puts: string -> Option<Error>)
    : (r: Progress<Option<DataSourceResponse>>)
    ensures r.result.Success? <==> !HasDataSourceId(response) || puts(ParameterName(prefix, suffix, "dataSourceId")).None?
    ensures r.result.Success? ==> r.result.value == response
    ensures HasDataSourceId(response) <==> |r.calls| == 1
    ensures |r.calls| == 1 ==>
              r.calls[0] == PutParameter(ParameterName(prefix, suffix, "dataSourceId"), response.value.dataSource.value.id.value)
    ensures r.result.Failure? ==> r.result == Failure(puts(ParameterName(prefix, suffix, "dataSourceId")).value) && r.store == store
    ensures |r.calls| == 0 ==> r.store == store
    ensures |r.calls| == 1 && r.result.Success? ==>
              ParameterName(prefix, suffix, "dataSourceId") in r.store
              && r.store[ParameterName(prefix, suffix, "dataSourceId")] == response.value.dataSource.value.id.value
  {
    if !HasDataSourceId(response) then Progress([], store, Success(response))
    else
      var name := ParameterName(prefix, suffix, "dataSourceId");
      var a := StoreParameter(store, Leaf(prefix, suffix, "dataSourceId"), response.value.dataSource.value.id, puts(name));
      if a.result.Failure? then Progress(a.calls, a.store, Failure(a.result.error))
      else Progress(a.calls, a.store, Success(response))
  }

  // ---------------------------------------------------------------------------
  // The Create request
  // ---------------------------------------------------------------------------

  /** The handler's environment, each unset variable read as `""`. */
  datatype Settings = Settings(prefix: string, suffix: string, customResourceRoleArn: string, roleArn: string,
                               accessPolicyArns: string, embeddingModelArn: string, bucketArn: string)

  function SettingsOf(env: Env): (r: Settings)
    ensures r.prefix == EnvOr(env, "namePrefix", "") && r.suffix == EnvOr(env, "nameSuffix", "")
    ensures "knowledgeBaseBucketArn" !in env ==> r.bucketArn == ""
  {
    Settings(EnvOr(env, "namePrefix", ""), EnvOr(env, "nameSuffix", ""),
             EnvOr(env, "knowledgeBaseCustomResourceRoleArn", ""), EnvOr(env, "knowledgeBaseRoleArn", ""),
             EnvOr(env, "accessPolicyArns", ""), EnvOr(env, "knowledgeBaseEmbeddingModelArn", ""),
             EnvOr(env, "knowledgeBaseBucketArn", ""))
  }

  /** The service responses the `Create` steps receive. A failure is the
      exception that step's call raises; `puts(p)` is the exception a
      `PutParameter` of parameter `p` raises, if any. */
  datatype Services = Services(
    accessPolicy: Result<()>,
    networkPolicy: Result<()>,
    encryptionPolicy: Result<()>,
    createCollection: Result<Option<string>>,
    polls: nat -> Result<seq<CollectionDetail>>,
    puts: string -> Option<Error>,
    index: Result<()>,
    knowledgeBase: Result<Option<KnowledgeBaseResponse>>,
    dataSource: Result<Option<DataSourceResponse>>,
    ingestion: Result<()>)

  /** The resource-creating requests, without the polls and the stores. */
  predicate IsStep(call: KbCall) {
    !call.BatchGetCollection? && !call.PutParameter?
  }

  function Steps(calls: seq<KbCall>): (r: seq<KbCall>)
    ensures |r| <= |calls|
  {
    if |calls| == 0 then [] else (if IsStep(calls[0]) then [calls[0]] else []) + Steps(calls[1..])
  }

  lemma {:induction false} StepsAppend(a: seq<KbCall>, b: seq<KbCall>)
    ensures Steps(a + b) == Steps(a) + Steps(b)
    decreases |a|
  {
    if |a| == 0 {
      assert a + b == b;
    } else {
      var head := if IsStep(a[0]) then [a[0]] else [];
      assert (a + b)[0] == a[0] && (a + b)[1..] == a[1..] + b;
      assert Steps(a + b) == head + Steps(a[1..] + b);
      StepsAppend(a[1..], b);
      assert Steps(a) == head + Steps(a[1..]);
    }
  }

  lemma {:induction false} NoSteps(calls: seq<KbCall>)
    requires forall i :: 0 <= i < |calls| ==> !IsStep(calls[i])
    ensures Steps(calls) == []
    decreases |calls|
  {
    if |calls| > 0 {
      NoSteps(calls[1..]);
    }
  }

  /** The data source id `StartDataSync` reads, for a response that is null
      or carries a data source. */
  function DataSourceId(ds: Option<DataSourceResponse>): Option<string>
    requires ds.None? || ds.value.dataSource.Some?
  {
    if ds.Some? then ds.value.dataSource.value.id else None
  }

  /** The resource-creating requests after the collection, in order. */
  function LaterSteps(s: Settings, collection: CollectionDetail, kb: Option<KnowledgeBaseResponse>,
                      ds: Option<DataSourceResponse>): seq<KbCall>
    requires collection.endpoint.Some? && (ds.None? || ds.value.dataSource.Some?)
  {
    var n := Name(s.prefix, s.suffix);
    [CreateIndex(collection.endpoint.value, n, VectorField(s.prefix), IndexDimension),
     CreateKnowledgeBase(n, s.roleArn, s.embeddingModelArn, collection.arn, n, VectorField(s.prefix)),
     CreateDataSource(n, KnowledgeBaseId(kb), s.bucketArn),
     StartIngestion(KnowledgeBaseId(kb), DataSourceId(ds))]
  }

  lemma {:induction false} AllSteps(calls: seq<KbCall>)
    requires forall i :: 0 <= i < |calls| ==> IsStep(calls[i])
    ensures Steps(calls) == calls
    decreases |calls|
  {
    if |calls| > 0 {
      AllSteps(calls[1..]);
    }
  }

  /** The resource-creating requests of a successful `Create`, in order. */
  function CreateSteps(s: Settings, collection: CollectionDetail, kb: Option<KnowledgeBaseResponse>,
                       ds: Option<DataSourceResponse>): seq<KbCall>
    requires collection.endpoint.Some? && (ds.None? || ds.value.dataSource.Some?)
  {
    var n := Name(s.prefix, s.suffix);
    [CreateAccessPolicy(n, "data", [s.roleArn, s.customResourceRoleArn, s.accessPolicyArns]),
     CreateSecurityPolicy(n, "network"),
     CreateSecurityPolicy(n, "encryption"),
     CreateCollection(n, "VECTORSEARCH")]
    + LaterSteps(s, collection, kb, ds)
  }

  /** The three policies, in order; a failure stops the sequence. */
  function Policies(s: Settings, services: Services, store: Store): (r: Progress<()>)
    ensures r.store == store
    ensures r.result.Success? <==> services.accessPolicy.Success? && services.networkPolicy.Success?
                                   && services.encryptionPolicy.Success?
    ensures services.accessPolicy.Failure? ==> r.result == Failure(services.accessPolicy.error)
    ensures r.result.Success? ==>
              var n := Name(s.prefix, s.suffix);
              r.calls == [CreateAccessPolicy(n, "data", [s.roleArn, s.customResourceRoleArn, s.accessPolicyArns]),
                          CreateSecurityPolicy(n, "network"), CreateSecurityPolicy(n, "encryption")]
  {
    var n := Name(s.prefix, s.suffix);
    var a := [CreateAccessPolicy(n, "data", [s.roleArn, s.customResourceRoleArn, s.accessPolicyArns])];
    if services.accessPolicy.Failure? then Progress(a, store, Failure(services.accessPolicy.error))
    else if services.networkPolicy.Failure? then
      Progress(a + [CreateSecurityPolicy(n, "network")], store, Failure(services.networkPolicy.error))
    else if services.encryptionPolicy.Failure? then
      Progress(a + [CreateSecurityPolicy(n, "network"), CreateSecurityPolicy(n, "encryption")], store,
               Failure(services.encryptionPolicy.error))
    else Progress(a + [CreateSecurityPolicy(n, "network"), CreateSecurityPolicy(n, "encryption")], store, Success(()))
  }

  /** `Create.Collection`: create, then poll. */
  function MakeCollection(s: Settings, services: Services, store: Store): (r: Progress<CollectionDetail>)
    ensures |r.calls| > 0 && r.calls[0] == CreateCollection(Name(s.prefix, s.suffix), "VECTORSEARCH")
    ensures Steps(r.calls) == [CreateCollection(Name(s.prefix, s.suffix), "VECTORSEARCH")]
    ensures services.createCollection.Failure? ==> r.result == Failure(services.createCollection.error)
    ensures services.createCollection.Success? ==>
              var p := Poll(services.createCollection.value, s.prefix, s.suffix, services.polls, services.puts, 0, store);
              r.calls[1..] == p.calls && r.store == p.store && r.result == p.result
  {
    var create := [CreateCollection(Name(s.prefix, s.suffix), "VECTORSEARCH")];
    AllSteps(create);
    match services.createCollection
    case Failure(e) => Progress(create, store, Failure(e))
    case Success(id) =>
      var p := Poll(id, s.prefix, s.suffix, services.polls, services.puts, 0, store);
      NoSteps(p.calls);
      StepsAppend(create, p.calls);
      Progress(create + p.calls, p.store, p.result)
  }

  /** `Create.Index`: `new Uri(host)` throws on a null host before any
      request; otherwise one index creation with the prefix's vector field
      and dimension 1536. */
  function MakeIndex(s: Settings, host: Option<string>, services: Services): (r: Progress<()>)
    ensures host.None? ==> r.calls == [] && r.result == Failure(ArgumentNull("uriString"))
    ensures host.Some? ==> r.calls == [CreateIndex(host.value, Name(s.prefix, s.suffix), VectorField(s.prefix), IndexDimension)]
    ensures r.result.Success? <==> host.Some? && services.index.Success?
  {
    match host
    case None => Progress([], map[], Failure(ArgumentNull("uriString")))
    case Some(h) => Progress([CreateIndex(h, Name(s.prefix, s.suffix), VectorField(s.prefix), IndexDimension)], map[], services.index)
  }

  /** `StartDataSync`: `dataSource?.DataSource.DataSourceId` dereferences a
      null `DataSource` of a non-null response. */
  function StartDataSync(kb: Option<KnowledgeBaseResponse>, ds: Option<DataSourceResponse>, services: Services)
    : (r: Progress<()>)
    ensures ds.Some? && ds.value.dataSource.None? ==> r.calls == [] && r.result == Failure(NullReference)
    ensures ds.None? || ds.value.dataSource.Some? ==>
              r.calls == [StartIngestion(KnowledgeBaseId(kb), DataSourceId(ds))] && r.result == services.ingestion
  {
    if ds.Some? && ds.value.dataSource.None? then Progress([], map[], Failure(NullReference))
    else Progress([StartIngestion(KnowledgeBaseId(kb), DataSourceId(ds))], map[], services.ingestion)
  }

  /** The data source and the ingestion job, once the knowledge base exists. */
  function SourceAndSync(s: Settings, kbResponse: Option<KnowledgeBaseResponse>, services: Services, store: Store)
    : (r: Progress<()>)
    ensures r.result.Success? ==>
              services.dataSource.Success?
              && (services.dataSource.value.None? || services.dataSource.value.value.dataSource.Some?)
              && Steps(r.calls) == [CreateDataSource(Name(s.prefix, s.suffix), KnowledgeBaseId(kbResponse), s.bucketArn),
                                    StartIngestion(KnowledgeBaseId(kbResponse), DataSourceId(services.dataSource.value))]
  {
    var createDs := [CreateDataSource(Name(s.prefix, s.suffix), KnowledgeBaseId(kbResponse), s.bucketArn)];
    match services.dataSource
    case Failure(e) => Progress(createDs, store, Failure(e))
    case Success(dsResponse) =>
      var ds := RecordDataSource(s.prefix, s.suffix, dsResponse, store, services.puts);
      if ds.result.Failure? then Progress(createDs + ds.calls, ds.store, Failure(ds.result.error))
      else
        var sync := StartDataSync(kbResponse, dsResponse, services);
        if sync.result.Success? then
          AllSteps(createDs);
          AllSteps(sync.calls);
          NoSteps(ds.calls);
          StepsAppend(createDs, ds.calls);
          StepsAppend(createDs + ds.calls, sync.calls);
          Progress(createDs + ds.calls + sync.calls, ds.store, Success(()))
        else Progress(createDs + ds.calls + sync.calls, ds.store, sync.result)
  }

  /** Everything after the collection: the index on its endpoint, the
      knowledge base on its ARN, then the data source and ingestion. */
  function AfterCollection(s: Settings, c: CollectionDetail, services: Services, store: Store): (r: Progress<()>)
    ensures r.result.Success? ==>
              c.endpoint.Some? && services.knowledgeBase.Success? && services.dataSource.Success?
              && (services.dataSource.value.None? || services.dataSource.value.value.dataSource.Some?)
              && Steps(r.calls) == LaterSteps(s, c, services.knowledgeBase.value, services.dataSource.value)
    ensures c.endpoint.None? ==> r.calls == [] && r.result == Failure(ArgumentNull("uriString"))
  {
    var index := MakeIndex(s, c.endpoint, services);
    if index.result.Failure? then Progress(index.calls, store, index.result)
    else
      var n := Name(s.prefix, s.suffix);
      var createKb := [CreateKnowledgeBase(n, s.roleArn, s.embeddingModelArn, c.arn, n, VectorField(s.prefix))];
      match services.knowledgeBase
      case Failure(e) => Progress(index.calls + createKb, store, Failure(e))
      case Success(kbResponse) =>
        var kb := RecordKnowledgeBase(s.prefix, s.suffix, kbResponse, store, services.puts);
        if kb.result.Failure? then Progress(index.calls + createKb + kb.calls, kb.store, Failure(kb.result.error))
        else
          var rest := SourceAndSync(s, kbResponse, services, kb.store);
          var calls := index.calls + createKb + kb.calls + rest.calls;
          if rest.result.Success? then
            LaterStepsJoin(s, c, kbResponse, services.dataSource.value, index.calls, createKb, kb.calls, rest.calls);
            Progress(calls, rest.store, Success(()))
          else Progress(calls, rest.store, rest.result)
  }

  /** The steps of `AfterCollection`'s requests: the index, the knowledge
      base, then the data source and ingestion; the parameter stores in
      between add none. */
  lemma LaterStepsJoin(s: Settings, c: CollectionDetail, kb: Option<KnowledgeBaseResponse>, ds: Option<DataSourceResponse>,
                       index: seq<KbCall>, createKb: seq<KbCall>, stores: seq<KbCall>, rest: seq<KbCall>)
    requires c.endpoint.Some? && (ds.None? || ds.value.dataSource.Some?)
    requires var n := Name(s.prefix, s.suffix);
             index == [CreateIndex(c.endpoint.value, n, VectorField(s.prefix), IndexDimension)]
             && createKb == [CreateKnowledgeBase(n, s.roleArn, s.embeddingModelArn, c.arn, n, VectorField(s.prefix))]
    requires forall i :: 0 <= i < |stores| ==> stores[i].PutParameter?
    requires Steps(rest) == [CreateDataSource(Name(s.prefix, s.suffix), KnowledgeBaseId(kb), s.bucketArn),
                             StartIngestion(KnowledgeBaseId(kb), DataSourceId(ds))]
    ensures Steps(index + createKb + stores + rest) == LaterSteps(s, c, kb, ds)
  {
    AllSteps(index + createKb);
    NoSteps(stores);
    StepsAppend(index + createKb, stores);
    StepsAppend(index + createKb + stores, rest);
  }

  lemma JoinSteps(s: Settings, c: CollectionDetail, kb: Option<KnowledgeBaseResponse>, ds: Option<DataSourceResponse>,
                  policies: seq<KbCall>, collection: seq<KbCall>, rest: seq<KbCall>)
    requires c.endpoint.Some? && (ds.None? || ds.value.dataSource.Some?)
    requires var n := Name(s.prefix, s.suffix);
             policies == [CreateAccessPolicy(n, "data", [s.roleArn, s.customResourceRoleArn, s.accessPolicyArns]),
                          CreateSecurityPolicy(n, "network"), CreateSecurityPolicy(n, "encryption")]
    requires Steps(collection) == [CreateCollection(Name(s.prefix, s.suffix), "VECTORSEARCH")]
    requires Steps(rest) == LaterSteps(s, c, kb, ds)
    ensures Steps(policies + collection + rest) == CreateSteps(s, c, kb, ds)
  {
    AllSteps(policies);
    StepsAppend(policies, collection);
    StepsAppend(policies + collection, rest);
  }

  /** The `Create` branch: policies, collection, then the rest. Any failure
      stops it and is rethrown. */
  function CreateAll(s: Settings, services: Services, store: Store): (r: Progress<()>)
    ensures r.result.Success? ==>
              var c := MakeCollection(s, services, store).result;
              c.Success? && c.value.endpoint.Some?
              && services.knowledgeBase.Success? && services.dataSource.Success?
              && (services.dataSource.value.None? || services.dataSource.value.value.dataSource.Some?)
              && Steps(r.calls) == CreateSteps(s, c.value, services.knowledgeBase.value, services.dataSource.value)
    ensures services.accessPolicy.Failure? ==> r.calls == Policies(s, services, store).calls
                                               && r.result == Failure(services.accessPolicy.error)
  {
    var policies := Policies(s, services, store);
    if policies.result.Failure? then policies
    else
      var collection := MakeCollection(s, services, store);
      if collection.result.Failure? then
        Progress(policies.calls + collection.calls, collection.store, Failure(collection.result.error))
      else
        var rest := AfterCollection(s, collection.result.value, services, collection.store);
        var calls := policies.calls + collection.calls + rest.calls;
        if rest.result.Success? then
          JoinSteps(s, collection.result.value, services.knowledgeBase.value, services.dataSource.value,
                    policies.calls, collection.calls, rest.calls);
          Progress(calls, rest.store, Success(()))
        else Progress(calls, rest.store, rest.result)
  }

  // ---------------------------------------------------------------------------
  // The handler
  // ---------------------------------------------------------------------------

  datatype CustomResourceRequest = CustomResourceRequest(requestType: Option<string>, stackId: Option<string>,
                                                         requestId: Option<string>, logicalResourceId: Option<string>)

  datatype CustomResourceResponse = CustomResourceResponse(status: string, physicalResourceId: string,
                                                           stackId: Option<string>, requestId: Option<string>,
                                                           logicalResourceId: Option<string>, reason: Option<string>,
                                                           data: map<string, string>)

  /** The reason each request type sets. */
  function ReasonFor(requestType: Option<string>): Option<string> {
    if requestType == Some("Create") then Some(CreateReason)
    else if requestType == Some("Update") then Some(UpdateReason)
    else if requestType == Some("Delete") then Some(DeleteReason)
    else None
  }

  /** `Function.FunctionHandler`. A null context throws; the response is
      always SUCCESS with the fixed physical id, the request's ids and empty
      data; only `Create` calls any service, and its failures are rethrown,
      so the FAILED response is never produced. */
  function FunctionHandler(evnt: Option<CustomResourceRequest>, hasContext: bool, env: Env, services: Services,
                           store: Store): (r: Progress<CustomResourceResponse>)
    ensures !hasContext ==> r == Progress([], store, Failure(ArgumentNull("context")))
    ensures r.result.Success? ==>
              evnt.Some? &&
              var e := evnt.value;
              r.result.value == CustomResourceResponse("SUCCESS", PhysicalResourceId, e.stackId, e.requestId,
                                                       e.logicalResourceId, ReasonFor(e.requestType), map[])
    ensures hasContext && evnt.Some? && evnt.value.requestType != Some("Create") ==>
              r.calls == [] && r.store == store && r.result.Success?
    ensures hasContext && evnt.Some? && evnt.value.requestType == Some("Create") ==>
              r.calls == CreateAll(SettingsOf(env), services, store).calls
              && (r.result.Success? <==> CreateAll(SettingsOf(env), services, store).result.Success?)
              && (r.result.Failure? ==> r.result.error == CreateAll(SettingsOf(env), services, store).result.error)
    ensures r.result.Success? ==> r.result.value.status == "SUCCESS"
  {
    if !hasContext then Progress([], store, Failure(ArgumentNull("context")))
    else match evnt
      case None => Progress([], store, Failure(NullReference))
      case Some(e) =>
        var response := CustomResourceResponse("SUCCESS", PhysicalResourceId, e.stackId, e.requestId,
                                               e.logicalResourceId, ReasonFor(e.requestType), map[]);
        if e.requestType == Some("Create") then
          var created := CreateAll(SettingsOf(env), services, store);
          match created.result
          case Failure(err) => Progress(created.calls, created.store, Failure(err))
          case Success(_) => Progress(created.calls, created.store, Success(response))
        else Progress([], store, Success(response))
  }

  /** The reasons: one fixed text for each of the three request types and
      none for any other. */
  lemma HandlerReasons(evnt: CustomResourceRequest, env: Env, services: Services, store: Store)
    ensures var r := FunctionHandler(Some(evnt), true, env, services, store);
            r.result.Success? ==>
              (evnt.requestType == Some("Create") <==> r.result.value.reason == Some(CreateReason))
              && (evnt.requestType == Some("Update") <==> r.result.value.reason == Some(UpdateReason))
              && (evnt.requestType == Some("Delete") <==> r.result.value.reason == Some(DeleteReason))
              && (r.result.value.reason.None? <==> evnt.requestType !in {Some("Create"), Some("Update"), Some("Delete")})
  {
  }

  // ---------------------------------------------------------------------------
  // Delete
  // ---------------------------------------------------------------------------

  /** `Delete.AccessPolicy(nameSuffix, namePrefix)`: one request for the
      `data` policy; `deleted` is the outcome of `DeleteAccessPolicyAsync`,
      and a failure is rethrown. The parameter store is untouched. */
  function DeleteAccess(nameSuffix: string, namePrefix: string, store: Store, deleted: Result<()>): (r: Progress<()>)
    ensures |r.calls| == 1 && r.calls[0].DeleteAccessPolicy? && r.calls[0].policyType == "data"
    ensures r.result.Success? <==> deleted.Success?
    ensures deleted.Failure? ==> r.result.error == deleted.error
    ensures r.store == store
  {
    Progress([DeleteAccessPolicy(Name(namePrefix, nameSuffix), "data")], store, deleted)
  }

  /** `Delete.SecurityPolicy(nameSuffix, namePrefix, type)`: one request for
      the policy of the caller's type; `deleted` is the outcome of
      `DeleteSecurityPolicyAsync`, and a failure is rethrown. */
  function DeleteSecurity(nameSuffix: string, namePrefix: string, policyType: string, store: Store, deleted: Result<()>)
    : (r: Progress<()>)
    ensures |r.calls| == 1 && r.calls[0].DeleteSecurityPolicy? && r.calls[0].policyType == policyType
    ensures r.result.Success? <==> deleted.Success?
    ensures deleted.Failure? ==> r.result.error == deleted.error
    ensures r.store == store
  {
    Progress([DeleteSecurityPolicy(Name(namePrefix, nameSuffix), policyType)], store, deleted)
  }

  /** `Delete.Collection(nameSuffix, namePrefix)`: the id is read from the
      parameter `Create` records, then the collection is deleted. `read` is the
      exception `GetParameterAsync` raises for a stored parameter, if any,
      and `deleted` the outcome of `DeleteCollectionAsync`; a failure of
      either request is rethrown. */
  function DeleteCollectionByName(nameSuffix: string, namePrefix: string, store: Store, read: Option<Error>, deleted: Result<()>)
    : (r: Progress<()>)
    ensures |r.calls| > 0 && r.calls[0] == GetParameter(ParameterName(namePrefix, nameSuffix, "collectionId"))
    ensures r.result.Success? <==> ParameterName(namePrefix, nameSuffix, "collectionId") in store && read.None? && deleted.Success?
    ensures ParameterName(namePrefix, nameSuffix, "collectionId") in store && read.None? ==>
              r.calls == [r.calls[0], DeleteCollection(store[ParameterName(namePrefix, nameSuffix, "collectionId")])]
    ensures !(ParameterName(namePrefix, nameSuffix, "collectionId") in store && read.None?) ==> |r.calls| == 1
    ensures ParameterName(namePrefix, nameSuffix, "collectionId") !in store ==> r.result == Failure(ParameterNotFound)
    ensures ParameterName(namePrefix, nameSuffix, "collectionId") in store && read.Some? ==> r.result == Failure(read.value)
    ensures ParameterName(namePrefix, nameSuffix, "collectionId") in store && read.None? && deleted.Failure? ==> r.result == deleted
    ensures r.store == store
  {
    var get := ReadParameter(store, ParameterName(namePrefix, nameSuffix, "collectionId"), read);
    match get.result
    case Failure(e) => Progress(get.calls, store, Failure(e))
    case Success(id) => Progress(get.calls + [DeleteCollection(id)], store, deleted)
  }


  /** `Delete.KnowledgeBase(nameSuffix, namePrefix)`: the same, for the
      knowledge base; `deleted` is the outcome of `DeleteKnowledgeBaseAsync`. */
  function DeleteKnowledgeBaseByName(nameSuffix: string, namePrefix: string, store: Store, read: Option<Error>, deleted: Result<()>)
    : (r: Progress<()>)
    ensures |r.calls| > 0 && r.calls[0] == GetParameter(ParameterName(namePrefix, nameSuffix, "knowledgeBaseId"))
    ensures r.result.Success? <==> ParameterName(namePrefix, nameSuffix, "knowledgeBaseId") in store && read.None? && deleted.Success?
    ensures ParameterName(namePrefix, nameSuffix, "knowledgeBaseId") in store && read.None? ==>
              r.calls == [r.calls[0], DeleteKnowledgeBase(store[ParameterName(namePrefix, nameSuffix, "knowledgeBaseId")])]
    ensures !(ParameterName(namePrefix, nameSuffix, "knowledgeBaseId") in store && read.None?) ==> |r.calls| == 1
    ensures ParameterName(namePrefix, nameSuffix, "knowledgeBaseId") !in store ==> r.result == Failure(ParameterNotFound)
    ensures ParameterName(namePrefix, nameSuffix, "knowledgeBaseId") in store && read.Some? ==> r.result == Failure(read.value)
    ensures ParameterName(namePrefix, nameSuffix, "knowledgeBaseId") in store && read.None? && deleted.Failure? ==> r.result == deleted
    ensures r.store == store
  {
    var get := ReadParameter(store, ParameterName(namePrefix, nameSuffix, "knowledgeBaseId"), read);
    match get.result
    case Failure(e) => Progress(get.calls, store, Failure(e))
    case Success(id) => Progress(get.calls + [DeleteKnowledgeBase(id)], store, deleted)
  }


  /** Delete addresses the policies `Create` made, by the same name and
      type, when it is given the suffix and prefix by name. */
  lemma DeleteFindsPolicies(s: Settings, services: Services, store: Store, deleted: Result<()>)
    requires Policies(s, services, map[]).result.Success?
    ensures var made := Policies(s, services, map[]).calls;
            var access := DeleteAccess(s.suffix, s.prefix, store, deleted).calls[0];
            access.name == made[0].name && access.policyType == made[0].policyType
            && DeleteSecurity(s.suffix, s.prefix, "network", store, deleted).calls[0]
               == DeleteSecurityPolicy(made[1].name, made[1].policyType)
            && DeleteSecurity(s.suffix, s.prefix, "encryption", store, deleted).calls[0]
               == DeleteSecurityPolicy(made[2].name, made[2].policyType)
  {
  }

  /** Delete finds the collection the poll recorded. */
  lemma DeleteFindsCollection(id: Option<string>, s: Settings, polls: nat -> Result<seq<CollectionDetail>>,
                              puts: string -> Option<Error>, store: Store, deleted: Result<()>)
    requires var r := Poll(id, s.prefix, s.suffix, polls, puts, 0, store);
             r.result.Success? && r.result.value != EmptyDetail
    ensures var r := Poll(id, s.prefix, s.suffix, polls, puts, 0, store);
            r.result.value.id.Some?
            && DeleteCollectionByName(s.suffix, s.prefix, r.store, None, deleted).calls
                 == [GetParameter(ParameterName(s.prefix, s.suffix, "collectionId")), DeleteCollection(r.result.value.id.value)]
  {
    var k := FirstSettled(polls, 0);
    assert k < MaxAttempts;
  }

  /** Delete finds the knowledge base `Create` recorded. */
  lemma DeleteFindsKnowledgeBase(s: Settings, response: Option<KnowledgeBaseResponse>, store: Store,
                                 puts: string -> Option<Error>, deleted: Result<()>)
    requires KnowledgeBaseComplete(response)
    requires RecordKnowledgeBase(s.prefix, s.suffix, response, store, puts).result.Success?
    ensures var r := RecordKnowledgeBase(s.prefix, s.suffix, response, store, puts);
            DeleteKnowledgeBaseByName(s.suffix, s.prefix, r.store, None, deleted).calls
              == [GetParameter(ParameterName(s.prefix, s.suffix, "knowledgeBaseId")),
                  DeleteKnowledgeBase(response.value.knowledgeBase.value.id.value)]
  {
  }
}
