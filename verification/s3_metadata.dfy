/** `S3Wrapper.GetMetaDataFromS3`: list a bucket page by page, download every
    object whose key ends in the requested extension, and collect the
    `metadataAttributes` object of each downloaded JSON document. S3 is an
    oracle: the listing is a sequence of responses and a download is a
    function from key to parsed document. */
module S3Metadata {
  import opened Wrappers
  import opened Text
  import opened Json

  /** One `ListObjectsV2` response. */
  datatype Page = Page(keys: seq<string>, nextToken: Option<string>, isTruncated: bool)

  datatype Request =
    | ListObjects(bucket: string, continuationToken: Option<string>)
    | GetObject(bucket: string, key: string)

  /** One file's attributes: `Dictionary<string, string?>`. */
  type Attributes = map<string, Option<string>>

  datatype Run = Run(calls: seq<Request>, result: Result<seq<Attributes>>)

  /** `JsonElement.GetString()`: a string, `null` for JSON null, and an
      `InvalidOperationException` for any other kind. */
  function StringOf(j: Json): (r: Result<Option<string>>)
    ensures r.Success? <==> j.JString? || j.JNull?
    ensures r == Success(None) <==> j.JNull?
  {
    match j
    case JString(s) => Success(Some(s))
    case JNull => Success(None)
    case _ => Failure(InvalidOperation)
  }

  /** The `foreach` over the properties of `metadataAttributes`, assigning
      `result[name] = value` for each in turn. */
  function AttributesOf(fields: seq<(string, Json)>): (r: Result<Attributes>)
    ensures r.Success? <==> forall i :: 0 <= i < |fields| ==> StringOf(fields[i].1).Success?
    ensures r.Success? ==> forall n :: n in r.value <==> n in Keys(fields)
    ensures r.Success? ==> forall n :: n in r.value ==> Success(r.value[n]) == StringOf(Lookup(fields, n).value)
  {
    if |fields| == 0 then Success(map[])
    else
      var init := fields[..|fields| - 1];
      var last := fields[|fields| - 1];
      assert Keys(fields) == Keys(init) + [last.0];
      assert forall i :: 0 <= i < |init| ==> init[i] == fields[i];
      match AttributesOf(init)
      case Failure(e) => Failure(e)
      case Success(m) =>
        match StringOf(last.1)
        case Failure(e) => Failure(e)
        case Success(v) => Success(m[last.0 := v])
  }

  /** `ProcessJsonStreamAsync`: `None` when the root has no
      `metadataAttributes` member; `TryGetProperty` and `EnumerateObject`
      throw on values that are not objects. */
  function ProcessJson(root: Json): (r: Result<Option<Attributes>>)
    ensures r == Success(None) <==> root.JObject? && "metadataAttributes" !in Keys(root.fields)
    ensures r.Success? && r.value.Some? ==>
      root.JObject? && Lookup(root.fields, "metadataAttributes").Some?
      && Lookup(root.fields, "metadataAttributes").value.JObject?
      && AttributesOf(Lookup(root.fields, "metadataAttributes").value.fields) == Success(r.value.value)
  {
    if !root.JObject? then Failure(InvalidOperation)
    else match Lookup(root.fields, "metadataAttributes")
      case None => Success(None)
      case Some(v) =>
        if !v.JObject? then Failure(InvalidOperation)
        else match AttributesOf(v.fields)
          case Failure(e) => Failure(e)
          case Success(m) => Success(Some(m))
  }

  predicate Matches(key: string, extension: string) {
    EndsWithIgnoreCase(key, extension)
  }

  /** A key that matches downloads, and its document is processed without
      an exception. */
  predicate FileOk(key: string, extension: string, fetch: string -> Result<Json>) {
    Matches(key, extension) ==> fetch(key).Success? && ProcessJson(fetch(key).value).Success?
  }

  /** Every key of the list is `FileOk`. */
  predicate KeysOk(keys: seq<string>, extension: string, fetch: string -> Result<Json>) {
    if |keys| == 0 then true else FileOk(keys[0], extension, fetch) && KeysOk(keys[1..], extension, fetch)
  }

  /** `KeysOk` read index by index. */
  lemma {:induction false} KeysOkAll(keys: seq<string>, extension: string, fetch: string -> Result<Json>)
    ensures KeysOk(keys, extension, fetch) <==> forall i :: 0 <= i < |keys| ==> FileOk(keys[i], extension, fetch)
  {
    if |keys| > 0 {
      KeysOkAll(keys[1..], extension, fetch);
      assert forall i :: 1 <= i < |keys| ==> keys[i] == keys[1..][i - 1];
    }
  }

  /** The matching keys, in listing order. */
  function Matching(keys: seq<string>, extension: string): seq<string> {
    if |keys| == 0 then []
    else (if Matches(keys[0], extension) then [keys[0]] else []) + Matching(keys[1..], extension)
  }

  /** Reference definition: the attributes of the matching files that have a
      `metadataAttributes` member, in listing order. */
  function Expected(keys: seq<string>, extension: string, fetch: string -> Result<Json>): seq<Attributes> {
    if |keys| == 0 then []
    else
      var head :=
        if Matches(keys[0], extension) && fetch(keys[0]).Success?
           && ProcessJson(fetch(keys[0]).value).Success? && ProcessJson(fetch(keys[0]).value).value.Some?
        then [ProcessJson(fetch(keys[0]).value).value.value] else [];
      head + Expected(keys[1..], extension, fetch)
  }

  /** The downloads' keys, in order. */
  function Downloaded(calls: seq<Request>): seq<string> {
    if |calls| == 0 then []
    else (if calls[0].GetObject? then [calls[0].key] else []) + Downloaded(calls[1..])
  }

  /** One key of the `foreach`: a key that does not match is skipped; a
      matching one is downloaded and its document processed. */
  function ProcessKey(key: string, bucket: string, extension: string, fetch: string -> Result<Json>): (r: Run)
    ensures r.calls == if Matches(key, extension) then [GetObject(bucket, key)] else []
    ensures r.result.Success? <==> FileOk(key, extension, fetch)
  {
    if !Matches(key, extension) then Run([], Success([]))
    else
      var get := [GetObject(bucket, key)];
      match fetch(key)
      case Failure(e) => Run(get, Failure(e))
      case Success(doc) =>
        match ProcessJson(doc)
        case Failure(e) => Run(get, Failure(e))
        case Success(m) => Run(get, Success(if m.Some? then [m.value] else []))
  }

  /** The `foreach` over one response: only matching keys are downloaded,
      from the given bucket, and the pass succeeds exactly when no file
      throws. */
  function ProcessKeys(keys: seq<string>, bucket: string, extension: string, fetch: string -> Result<Json>): (r: Run)
    ensures forall i :: 0 <= i < |r.calls| ==> r.calls[i].GetObject? && r.calls[i].bucket == bucket
    ensures forall i :: 0 <= i < |r.calls| ==> Matches(r.calls[i].key, extension)
    ensures r.result.Success? <==> KeysOk(keys, extension, fetch)
  {
    if |keys| == 0 then Run([], Success([]))
    else
      var first := ProcessKey(keys[0], bucket, extension, fetch);
      var rest := ProcessKeys(keys[1..], bucket, extension, fetch);
      if first.result.Failure? then first
      else
        Run(first.calls + rest.calls, if rest.result.Failure? then rest.result else Success(first.result.value + rest.result.value))
  }

  /** A key that is `FileOk` yields the reference attributes. */
  lemma ProcessKeyExpected(key: string, bucket: string, extension: string, fetch: string -> Result<Json>)
    requires FileOk(key, extension, fetch)
    ensures ProcessKey(key, bucket, extension, fetch).result == Success(Expected([key], extension, fetch))
  {
    assert [key][1..] == [];
    assert Expected([key][1..], extension, fetch) == [];
    if Matches(key, extension) {
      var m := ProcessJson(fetch(key).value).value;
      var found := if m.Some? then [m.value] else [];
      assert ProcessKey(key, bucket, extension, fetch).result == Success(found);
      assert Expected([key], extension, fetch) == found + [];
      assert found + [] == found;
    } else {
      assert Expected([key], extension, fetch) == [] + [];
    }
  }

  /** When nothing throws, every matching key is downloaded, in order, and
      the result is the reference one. */
  lemma {:induction false} ProcessKeysResult(keys: seq<string>, bucket: string, extension: string,
                                             fetch: string -> Result<Json>)
    requires KeysOk(keys, extension, fetch)
    ensures ProcessKeys(keys, bucket, extension, fetch).result == Success(Expected(keys, extension, fetch))
    ensures Downloaded(ProcessKeys(keys, bucket, extension, fetch).calls) == Matching(keys, extension)
  {
    if |keys| > 0 {
      var key := keys[0];
      ProcessKeysResult(keys[1..], bucket, extension, fetch);
      ProcessKeyExpected(key, bucket, extension, fetch);
      var first := ProcessKey(key, bucket, extension, fetch);
      var rest := ProcessKeys(keys[1..], bucket, extension, fetch);
      assert Expected(keys, extension, fetch) == Expected([key], extension, fetch) + Expected(keys[1..], extension, fetch);
      if Matches(key, extension) {
        assert (first.calls + rest.calls)[1..] == rest.calls;
      } else {
        assert first.calls + rest.calls == rest.calls;
      }
    }
  }

  /** Every response succeeded, every response but the last is truncated, and
      the last is not. */
  predicate CompleteListing(pages: seq<Result<Page>>) {
    |pages| > 0
    && (forall i :: 0 <= i < |pages| ==> pages[i].Success?)
    && (forall i :: 0 <= i < |pages| - 1 ==> pages[i].value.isTruncated)
    && !pages[|pages| - 1].value.isTruncated
  }

  function AllKeys(pages: seq<Result<Page>>): seq<string>
    requires forall i :: 0 <= i < |pages| ==> pages[i].Success?
  {
    if |pages| == 0 then [] else pages[0].value.keys + AllKeys(pages[1..])
  }

  /** The continuation tokens of the listing requests, in order. */
  function Tokens(calls: seq<Request>): seq<Option<string>> {
    if |calls| == 0 then []
    else (if calls[0].ListObjects? then [calls[0].continuationToken] else []) + Tokens(calls[1..])
  }

  /** The `do … while (response.IsTruncated)` loop from the request carrying
      `token`; `pages[i]` answers its `i`-th listing request, and the walk
      also stops when the oracle runs out. */
  function Loop(pages: seq<Result<Page>>, token: Option<string>, bucket: string, extension: string,
                fetch: string -> Result<Json>): (r: Run)
    ensures |pages| > 0 ==> |r.calls| > 0 && r.calls[0] == ListObjects(bucket, token)
    ensures forall i :: 0 <= i < |r.calls| ==> r.calls[i].bucket == bucket
    ensures forall i :: 0 <= i < |r.calls| && r.calls[i].GetObject? ==> Matches(r.calls[i].key, extension)
  {
    if |pages| == 0 then Run([], Success([]))
    else
      var list := [ListObjects(bucket, token)];
      match pages[0]
      case Failure(e) => Run(list, Failure(e))
      case Success(page) =>
        var here := ProcessKeys(page.keys, bucket, extension, fetch);
        if here.result.Failure? || !page.isTruncated then Run(list + here.calls, here.result)
        else
          var rest := Loop(pages[1..], page.nextToken, bucket, extension, fetch);
          Run(list + here.calls + rest.calls,
              if rest.result.Failure? then rest.result else Success(here.result.value + rest.result.value))
  }

  /** `GetMetaDataFromS3(bucketName, prefix, fileExtension)`. The prefix
      never reaches a request: every listing request names only the bucket
      and a continuation token, and the first carries none. */
  function GetMetaDataFromS3(bucketName: string, prefix: string, extension: string,
                             pages: seq<Result<Page>>, fetch: string -> Result<Json>): (r: Run)
    ensures |pages| > 0 ==> |r.calls| > 0 && r.calls[0] == ListObjects(bucketName, None)
    ensures forall i :: 0 <= i < |r.calls| ==> r.calls[i].bucket == bucketName
    ensures forall i :: 0 <= i < |r.calls| && r.calls[i].GetObject? ==> EndsWithIgnoreCase(r.calls[i].key, extension)
  {
    Loop(pages, None, bucketName, extension, fetch)
  }

  lemma {:induction false} ExpectedAppend(a: seq<string>, b: seq<string>, extension: string, fetch: string -> Result<Json>)
    ensures Expected(a + b, extension, fetch) == Expected(a, extension, fetch) + Expected(b, extension, fetch)
  {
    if |a| > 0 {
      assert (a + b)[1..] == a[1..] + b;
      ExpectedAppend(a[1..], b, extension, fetch);
    } else {
      assert a + b == b;
    }
  }

  lemma {:induction false} KeysOkAppend(a: seq<string>, b: seq<string>, extension: string, fetch: string -> Result<Json>)
    ensures KeysOk(a + b, extension, fetch) <==> KeysOk(a, extension, fetch) && KeysOk(b, extension, fetch)
  {
    if |a| == 0 {
      assert a + b == b;
    } else {
      assert (a + b)[0] == a[0] && (a + b)[1..] == a[1..] + b;
      KeysOkAppend(a[1..], b, extension, fetch);
    }
  }

  /** Over a complete listing where no file throws, the loop reads every
      page and the result is the attributes of the matching files that have
      them, in listing order across pages; files without `metadataAttributes`
      contribute nothing. */
  lemma {:induction false} LoopCollectsAll(pages: seq<Result<Page>>, token: Option<string>, bucket: string,
                                           extension: string, fetch: string -> Result<Json>)
    requires CompleteListing(pages)
    requires KeysOk(AllKeys(pages), extension, fetch)
    ensures Loop(pages, token, bucket, extension, fetch).result == Success(Expected(AllKeys(pages), extension, fetch))
  {
    var page := pages[0].value;
    assert AllKeys(pages) == page.keys + AllKeys(pages[1..]);
    KeysOkAppend(page.keys, AllKeys(pages[1..]), extension, fetch);
    ExpectedAppend(page.keys, AllKeys(pages[1..]), extension, fetch);
    ProcessKeysResult(page.keys, bucket, extension, fetch);
    if page.isTruncated {
      var tail := pages[1..];
      assert CompleteListing(tail) by {
        assert |pages| > 1;
        assert forall i :: 0 <= i < |tail| ==> tail[i] == pages[i + 1];
      }
      LoopCollectsAll(tail, page.nextToken, bucket, extension, fetch);
    } else {
      assert |pages| == 1;
      assert page.keys + [] == page.keys;
    }
  }

  lemma {:induction false} TokensAppend(a: seq<Request>, b: seq<Request>)
    ensures Tokens(a + b) == Tokens(a) + Tokens(b)
  {
    if |a| > 0 {
      assert (a + b)[1..] == a[1..] + b;
      TokensAppend(a[1..], b);
    } else {
      assert a + b == b;
    }
  }

  /** The tokens one response's downloads carry: none. */
  lemma {:induction false} NoTokensInDownloads(calls: seq<Request>)
    requires forall i :: 0 <= i < |calls| ==> calls[i].GetObject?
    ensures Tokens(calls) == []
  {
    if |calls| > 0 {
      NoTokensInDownloads(calls[1..]);
    }
  }

  /** The tokens a complete listing hands forward: the starting one, then
      each truncated response's `NextContinuationToken`. */
  function Handed(pages: seq<Result<Page>>, token: Option<string>): seq<Option<string>>
    requires forall i :: 0 <= i < |pages| ==> pages[i].Success?
  {
    if |pages| == 0 then [] else [token] + Handed(pages[1..], pages[0].value.nextToken)
  }

  /** Pagination carries each response's `NextContinuationToken` into the
      next request, one request per response of a complete listing. */
  lemma {:induction false} LoopCarriesTokens(pages: seq<Result<Page>>, token: Option<string>, bucket: string,
                                             extension: string, fetch: string -> Result<Json>)
    requires CompleteListing(pages)
    requires KeysOk(AllKeys(pages), extension, fetch)
    ensures Tokens(Loop(pages, token, bucket, extension, fetch).calls) == Handed(pages, token)
  {
    var page := pages[0].value;
    assert AllKeys(pages) == page.keys + AllKeys(pages[1..]);
    KeysOkAppend(page.keys, AllKeys(pages[1..]), extension, fetch);
    LoopRound(pages, token, bucket, extension, fetch);
    if page.isTruncated {
      var tail := pages[1..];
      assert CompleteListing(tail) by {
        assert |pages| > 1;
        assert forall i :: 0 <= i < |tail| ==> tail[i] == pages[i + 1];
      }
      LoopCarriesTokens(tail, page.nextToken, bucket, extension, fetch);
    } else {
      assert |pages| == 1;
    }
  }

  /** One round of the loop issues one listing request carrying `token`,
      and then, when the response is truncated, the next round's requests. */
  lemma LoopRound(pages: seq<Result<Page>>, token: Option<string>, bucket: string,
                  extension: string, fetch: string -> Result<Json>)
    requires |pages| > 0 && pages[0].Success?
    requires ProcessKeys(pages[0].value.keys, bucket, extension, fetch).result.Success?
    ensures var page := pages[0].value;
      Tokens(Loop(pages, token, bucket, extension, fetch).calls)
        == [token] + (if page.isTruncated then Tokens(Loop(pages[1..], page.nextToken, bucket, extension, fetch).calls) else [])
  {
    var page := pages[0].value;
    var here := ProcessKeys(page.keys, bucket, extension, fetch);
    var list := [ListObjects(bucket, token)];
    NoTokensInDownloads(here.calls);
    assert Tokens(list) == [token] by {
      assert list[1..] == [];
    }
    TokensAppend(list, here.calls);
    var r := Loop(pages, token, bucket, extension, fetch);
    if page.isTruncated {
      var rest := Loop(pages[1..], page.nextToken, bucket, extension, fetch);
      assert r.calls == (list + here.calls) + rest.calls;
      TokensAppend(list + here.calls, rest.calls);
    } else {
      assert r.calls == list + here.calls;
    }
  }
}
