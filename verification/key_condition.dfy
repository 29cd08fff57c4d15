/** The integration tests' reusable logic: `QueryDynamoDb` builds a DynamoDB
    key-condition query from the table's key schema, `CreateCollection`
    polls a new OpenSearch Serverless collection until it is active, and
    `CreateIndexWrapper` retries index creation a bounded number of times.
    The services are oracles: the key schema, the poll responses and the
    index acknowledgements are parameters. */
module KeyCondition {
  import opened Wrappers
  import opened Text
  import KbLambda

  const TableName := "dotnet-genai-results-table-test"
  const Key := "clipart2.png"
  const BucketName := "dotnet-genai-destination-test"
  const NoKeySchema := "Table has no key schema"

  /** Placeholders for an attribute `a`: `#attr_a` and `:value_a`. */
  const NamePrefix := "#attr_"
  const ValuePrefix := ":value_"

  function NamePlaceholder(a: string): string {
    NamePrefix + a
  }

  function ValuePlaceholder(a: string): string {
    ValuePrefix + a
  }

  /** One clause of the key condition: `#attr_a = :value_a`. */
  function Clause(a: string): (r: string)
    ensures |r| > 0
  {
    NamePlaceholder(a) + " = " + ValuePlaceholder(a)
  }

  /** The clauses of a key schema, in schema order. */
  function Clauses(schema: seq<string>): (r: seq<string>)
    ensures |r| == |schema|
    ensures forall i :: 0 <= i < |r| ==> r[i] == Clause(schema[i])
  {
    seq(|schema|, i requires 0 <= i < |schema| => Clause(schema[i]))
  }

  /** The value bound for an attribute: the test key for `key`, the test
      bucket for `bucketname`, both compared after lowercasing; none for
      any other attribute. */
  function BoundValue(a: string): (r: Option<string>)
    ensures r.Some? <==> Lower(a) == "key" || Lower(a) == "bucketname"
    ensures r.Some? ==> r.value == (if Lower(a) == "key" then Key else BucketName)
  {
    if Lower(a) == "key" then Some(Key)
    else if Lower(a) == "bucketname" then Some(BucketName)
    else None
  }

  datatype QueryRequest = QueryRequest(tableName: string, names: map<string, string>,
                                       values: map<string, string>, keyCondition: string)

  /** Distinct attributes get distinct placeholders. */
  lemma PlaceholdersInjective(a: string, b: string)
    ensures NamePlaceholder(a) == NamePlaceholder(b) ==> a == b
    ensures ValuePlaceholder(a) == ValuePlaceholder(b) ==> a == b
  {
    if NamePlaceholder(a) == NamePlaceholder(b) {
      assert a == NamePlaceholder(a)[|NamePrefix|..];
      assert b == NamePlaceholder(b)[|NamePrefix|..];
    }
    if ValuePlaceholder(a) == ValuePlaceholder(b) {
      assert a == ValuePlaceholder(a)[|ValuePrefix|..];
      assert b == ValuePlaceholder(b)[|ValuePrefix|..];
    }
  }

  /** Joining one more part appends the separator and the part. */
  lemma {:induction false} JoinSnoc(parts: seq<string>, p: string, sep: string)
    requires |parts| > 0
    ensures Join(parts + [p], sep) == Join(parts, sep) + sep + p
  {
    if |parts| == 1 {
      assert (parts + [p])[1..] == [p];
    } else {
      JoinSnoc(parts[1..], p, sep);
      assert (parts + [p])[1..] == parts[1..] + [p];
    }
  }

  /** Joining non-empty parts is empty only when there are no parts. */
  lemma JoinEmpty(parts: seq<string>, sep: string)
    requires forall i :: 0 <= i < |parts| ==> |parts[i]| > 0
    ensures Join(parts, sep) == "" <==> |parts| == 0
  {
    if |parts| > 0 {
      assert Join(parts, sep)[..|parts[0]|] == parts[0];
    }
  }

  /** The name placeholders bound after the loop has seen `schema`: each
      attribute's placeholder to the attribute, a later binding replacing an
      earlier one. */
  function NamesOf(schema: seq<string>): map<string, string> {
    if |schema| == 0 then map[]
    else
      var a := schema[|schema| - 1];
      NamesOf(schema[..|schema| - 1])[NamePlaceholder(a) := a]
  }

  /** The value placeholders bound after the loop has seen `schema`. */
  function ValuesOf(schema: seq<string>): map<string, string> {
    if |schema| == 0 then map[]
    else
      var a := schema[|schema| - 1];
      var earlier := ValuesOf(schema[..|schema| - 1]);
      if BoundValue(a).Some? then earlier[ValuePlaceholder(a) := BoundValue(a).value] else earlier
  }

  /** Every attribute's name placeholder is bound to the attribute, and
      nothing else is bound. */
  lemma {:induction false} NamesBound(schema: seq<string>)
    ensures forall a :: a in schema ==> NamePlaceholder(a) in NamesOf(schema) && NamesOf(schema)[NamePlaceholder(a)] == a
    ensures forall k :: k in NamesOf(schema) ==> exists a :: a in schema && k == NamePlaceholder(a)
  {
    if |schema| > 0 {
      var n := |schema| - 1;
      var a := schema[n];
      NamesBound(schema[..n]);
      assert schema == schema[..n] + [a];
      forall b | b in schema ensures NamePlaceholder(b) in NamesOf(schema) && NamesOf(schema)[NamePlaceholder(b)] == b {
        PlaceholdersInjective(a, b);
      }
    }
  }

  /** A value placeholder is bound exactly for the attributes with a bound
      value, to that value, and nothing else is bound. */
  lemma {:induction false} ValuesBound(schema: seq<string>)
    ensures forall a :: a in schema ==> (ValuePlaceholder(a) in ValuesOf(schema) <==> BoundValue(a).Some?)
    ensures forall a :: a in schema && BoundValue(a).Some? ==> ValuesOf(schema)[ValuePlaceholder(a)] == BoundValue(a).value
    ensures forall k :: k in ValuesOf(schema) ==> exists a :: a in schema && k == ValuePlaceholder(a) && BoundValue(a).Some?
  {
    if |schema| > 0 {
      var n := |schema| - 1;
      var a := schema[n];
      var earlier := ValuesOf(schema[..n]);
      ValuesBound(schema[..n]);
      assert schema == schema[..n] + [a];
      assert ValuesOf(schema) == if BoundValue(a).Some? then earlier[ValuePlaceholder(a) := BoundValue(a).value] else earlier;
      forall b | b in schema
        ensures ValuePlaceholder(b) in ValuesOf(schema) <==> BoundValue(b).Some?
        ensures BoundValue(b).Some? ==> ValuesOf(schema)[ValuePlaceholder(b)] == BoundValue(b).value
      {
        PlaceholdersInjective(a, b);
        if b != a {
          assert b in schema[..n];
          assert ValuePlaceholder(b) in earlier <==> BoundValue(b).Some?;
        } else if ValuePlaceholder(b) in earlier {
          var c :| c in schema[..n] && ValuePlaceholder(b) == ValuePlaceholder(c) && BoundValue(c).Some?;
          PlaceholdersInjective(b, c);
        }
      }
    }
  }

  /** `QueryDynamoDb` up to the query: an empty key schema throws before any
      expression is built; otherwise the loop binds the placeholders the
      schema calls for and joins every clause by " AND " in schema order. */
  method BuildQuery(schema: seq<string>) returns (r: Result<QueryRequest>)
    ensures |schema| == 0 <==> r.Failure?
    ensures |schema| == 0 ==> r == Failure(Thrown(NoKeySchema))
    ensures r.Success? ==> r.value == QueryRequest(TableName, NamesOf(schema), ValuesOf(schema), Join(Clauses(schema), " AND "))
  {
    if |schema| == 0 {
      return Failure(Thrown(NoKeySchema));
    }
    var names: map<string, string> := map[];
    var values: map<string, string> := map[];
    var expr := "";
    var i := 0;
    while i < |schema|
      invariant 0 <= i <= |schema|
      invariant expr == Join(Clauses(schema[..i]), " AND ")
      invariant names == NamesOf(schema[..i]) && values == ValuesOf(schema[..i])
    {
      var a := schema[i];
      assert schema[..i + 1][..i] == schema[..i];
      names := names[NamePlaceholder(a) := a];
      if Lower(a) == "key" {
        values := values[ValuePlaceholder(a) := Key];
      } else if Lower(a) == "bucketname" {
        values := values[ValuePlaceholder(a) := BucketName];
      }
      JoinEmpty(Clauses(schema[..i]), " AND ");
      assert Clauses(schema[..i + 1]) == Clauses(schema[..i]) + [Clause(a)];
      if expr != "" {
        JoinSnoc(Clauses(schema[..i]), Clause(a), " AND ");
        expr := expr + " AND ";
      }
      expr := expr + Clause(a);
      i := i + 1;
    }
    assert schema[..i] == schema;
    r := Success(QueryRequest(TableName, names, values, expr));
  }

  /** The query's meaning: each attribute's name placeholder is bound to
      it, a value placeholder is bound exactly for the `key` and
      `bucketname` attributes (to the test key and bucket), and no other
      placeholder is bound. */
  lemma QueryBindings(schema: seq<string>)
    ensures forall a :: a in schema ==> NamePlaceholder(a) in NamesOf(schema) && NamesOf(schema)[NamePlaceholder(a)] == a
    ensures forall k :: k in NamesOf(schema) ==> exists a :: a in schema && k == NamePlaceholder(a)
    ensures forall a :: a in schema ==> (ValuePlaceholder(a) in ValuesOf(schema) <==> Lower(a) == "key" || Lower(a) == "bucketname")
    ensures forall a :: a in schema && Lower(a) == "key" ==> ValuesOf(schema)[ValuePlaceholder(a)] == Key
    ensures forall a :: a in schema && Lower(a) == "bucketname" ==> ValuesOf(schema)[ValuePlaceholder(a)] == BucketName
    ensures forall k :: k in ValuesOf(schema) ==> exists a :: a in schema && k == ValuePlaceholder(a)
  {
    NamesBound(schema);
    ValuesBound(schema);
  }

  /** A two-attribute schema, such as the test table's `key` and
      `bucketName`, gives two clauses joined by " AND ". */
  lemma TwoClauseCondition(x: string, y: string)
    ensures Join(Clauses([x, y]), " AND ") == Clause(x) + " AND " + Clause(y)
  {
    var cs := Clauses([x, y]);
    assert cs[1..] == [Clause(y)];
  }

  /** The test's collection name and its polling calls. */
  const TestPrefix := "dotnet-genai"
  const TestSuffix := "20240602140856"
  const TestName := KbLambda.Name(TestPrefix, TestSuffix)

  datatype TestCall =
    | CreateCollectionCall(name: string)
    | BatchGetCall(collectionId: Option<string>)
    | CreateIndexCall(index: string)

  /** The calls a test made, the test's `CollectionDetail` property after
      it, and whether it threw. */
  datatype TestRun = TestRun(calls: seq<TestCall>, detail: Option<KbLambda.CollectionDetail>, result: Result<()>)

  function BatchGets(id: Option<string>, n: nat): (r: seq<TestCall>)
    ensures |r| == n && forall i :: 0 <= i < n ==> r[i] == BatchGetCall(id)
  {
    seq(n, i => BatchGetCall(id))
  }

  /** The test's polling loop: at most 30 `BatchGetCollection` calls, every
      response but the last neither failed nor showed an `ACTIVE` first
      collection, and the loop stopped early only on one that did. An
      `ACTIVE` collection becomes the property's value, a failed call is
      rethrown, and when no poll sees `ACTIVE` the property keeps its
      earlier value. */
  method PollUntilActive(id: Option<string>, polls: nat -> Result<seq<KbLambda.CollectionDetail>>,
                         detail: Option<KbLambda.CollectionDetail>) returns (r: TestRun)
    ensures 1 <= |r.calls| <= KbLambda.MaxAttempts && r.calls == BatchGets(id, |r.calls|)
    ensures forall j :: 0 <= j < |r.calls| - 1 ==> !KbLambda.Settles(polls(j))
    ensures |r.calls| < KbLambda.MaxAttempts ==> KbLambda.Settles(polls(|r.calls| - 1))
    ensures var last := polls(|r.calls| - 1);
            last.Failure? ==> r.result == Failure(last.error) && r.detail == detail
    ensures var last := polls(|r.calls| - 1);
            last.Success? && KbLambda.IsActive(last.value) ==> r.result.Success? && r.detail == Some(last.value[0])
    ensures var last := polls(|r.calls| - 1);
            !KbLambda.Settles(last) ==> r.result.Success? && r.detail == detail
  {
    var calls: seq<TestCall> := [];
    var attempts := 0;
    while attempts < KbLambda.MaxAttempts
      invariant 0 <= attempts <= KbLambda.MaxAttempts
      invariant calls == BatchGets(id, attempts)
      invariant forall j :: 0 <= j < attempts ==> !KbLambda.Settles(polls(j))
    {
      assert BatchGets(id, attempts + 1) == calls + [BatchGetCall(id)];
      calls := calls + [BatchGetCall(id)];
      var poll := polls(attempts);
      if poll.Failure? {
        return TestRun(calls, detail, Failure(poll.error));
      }
      if KbLambda.IsActive(poll.value) {
        return TestRun(calls, Some(poll.value[0]), Success(()));
      }
      attempts := attempts + 1;
    }
    r := TestRun(calls, detail, Success(()));
  }

  /** The test's `CreateCollection`: create the collection, then poll it. */
  method CreateCollection(created: Result<Option<string>>, polls: nat -> Result<seq<KbLambda.CollectionDetail>>,
                          detail: Option<KbLambda.CollectionDetail>) returns (r: TestRun)
    ensures created.Failure? ==> r == TestRun([CreateCollectionCall(TestName)], detail, Failure(created.error))
    ensures |r.calls| >= 1 && r.calls[0] == CreateCollectionCall(TestName)
    ensures created.Success? ==>
              2 <= |r.calls| <= KbLambda.MaxAttempts + 1 && r.calls[1..] == BatchGets(created.value, |r.calls| - 1)
    ensures created.Success? ==> forall j :: 0 <= j < |r.calls| - 2 ==> !KbLambda.Settles(polls(j))
    ensures created.Success? && |r.calls| <= KbLambda.MaxAttempts ==> KbLambda.Settles(polls(|r.calls| - 2))
    ensures created.Success? ==>
              var last := polls(|r.calls| - 2);
              (last.Failure? ==> r.result == Failure(last.error) && r.detail == detail)
              && (last.Success? && KbLambda.IsActive(last.value) ==> r.result.Success? && r.detail == Some(last.value[0]))
              && (!KbLambda.Settles(last) ==> r.result.Success? && r.detail == detail)
  {
    if created.Failure? {
      return TestRun([CreateCollectionCall(TestName)], detail, Failure(created.error));
    }
    var p := PollUntilActive(created.value, polls, detail);
    r := p.(calls := [CreateCollectionCall(TestName)] + p.calls);
    assert r.calls[1..] == p.calls;
  }

  /** The polling stops exactly at the first settling response, or after
      the thirtieth. */
  lemma PollStopsAtFirstSettled(id: Option<string>, polls: nat -> Result<seq<KbLambda.CollectionDetail>>, n: nat)
    requires 1 <= n <= KbLambda.MaxAttempts
    requires forall j :: 0 <= j < n - 1 ==> !KbLambda.Settles(polls(j))
    requires n < KbLambda.MaxAttempts ==> KbLambda.Settles(polls(n - 1))
    ensures var k := KbLambda.FirstSettled(polls, 0);
            n == if k < KbLambda.MaxAttempts then k + 1 else KbLambda.MaxAttempts
  {
  }

  predicate HasEndpoint(detail: Option<KbLambda.CollectionDetail>) {
    detail.Some? && detail.value.endpoint.Some?
  }

  /** How many index creations a wrapper call with `attempt` may make. */
  function Budget(attempt: int): (r: nat)
    ensures r >= 1
  {
    if attempt > 0 then attempt + 1 else 1
  }

  /** `CreateIndexWrapper(attempt)`: create the collection first when the
      property has no endpoint, keep only the endpoint, then create the
      index, and retry with one attempt fewer while the index is not
      acknowledged and `attempt > 0`. Each creation first parses the
      endpoint with `new Uri`, which throws on a missing endpoint and, when
      `validUri` rejects the text, with a `UriFormatException`; either ends
      the wrapper before any index request. `acks(next + j)` is the `j`-th
      index creation's outcome. The calls are `setup` collection calls, at
      most one creation among them, then `indexCalls` index creations, at
      most `attempt + 1`; all but the last were refused, and a refused last
      one means the budget ran out. */
  method CreateIndexWrapper(attempt: int, detail: Option<KbLambda.CollectionDetail>, created: Result<Option<string>>,
                            polls: nat -> Result<seq<KbLambda.CollectionDetail>>, validUri: string -> bool,
                            acks: nat -> Result<bool>, next: nat)
    returns (r: TestRun, setup: nat, indexCalls: nat)
    ensures setup + indexCalls == |r.calls|
    ensures forall i :: setup <= i < |r.calls| ==> r.calls[i] == CreateIndexCall(TestName)
    ensures HasEndpoint(detail) ==> setup == 0
    ensures !HasEndpoint(detail) ==> setup >= 1 && r.calls[0] == CreateCollectionCall(TestName)
    ensures forall i :: 0 < i < setup ==> r.calls[i].BatchGetCall?
    ensures indexCalls <= Budget(attempt)
    ensures HasEndpoint(detail) ==> (indexCalls >= 1 <==> validUri(detail.value.endpoint.value))
    ensures HasEndpoint(detail) && !validUri(detail.value.endpoint.value) ==> r.calls == [] && r.result == Failure(Format)
    ensures indexCalls > 0 ==> HasEndpoint(r.detail) && validUri(r.detail.value.endpoint.value)
    ensures forall j :: next <= j < next + indexCalls - 1 ==> acks(j) == Success(false)
    ensures indexCalls == 0 ==> r.result.Failure?
    ensures indexCalls > 0 ==> (r.result.Success? <==> acks(next + indexCalls - 1).Success?)
    ensures indexCalls > 0 && acks(next + indexCalls - 1) == Success(false) ==> indexCalls == Budget(attempt)
    decreases if attempt > 0 then attempt else 0
  {
    var d := detail;
    var calls: seq<TestCall> := [];
    setup := 0;
    if !HasEndpoint(d) {
      var c := CreateCollection(created, polls, d);
      calls := c.calls;
      setup := |calls|;
      if c.result.Failure? {
        return TestRun(calls, c.detail, c.result), setup, 0;
      }
      d := c.detail;
    }
    var endpoint := if d.Some? then d.value.endpoint else None;
    d := Some(KbLambda.CollectionDetail(None, None, None, endpoint, None));
    if endpoint.None? {
      return TestRun(calls, d, Failure(ArgumentNull("uriString"))), setup, 0;
    }
    if !validUri(endpoint.value) {
      return TestRun(calls, d, Failure(Format)), setup, 0;
    }
    calls := calls + [CreateIndexCall(TestName)];
    match acks(next)
    case Failure(e) =>
      r, indexCalls := TestRun(calls, d, Failure(e)), 1;
    case Success(ack) =>
      if !ack && attempt > 0 {
        var rest, restSetup, restCalls := CreateIndexWrapper(attempt - 1, d, created, polls, validUri, acks, next + 1);
        assert restSetup == 0;
        r, indexCalls := TestRun(calls + rest.calls, rest.detail, rest.result), 1 + restCalls;
      } else {
        r, indexCalls := TestRun(calls, d, Success(())), 1;
      }
  }
}
