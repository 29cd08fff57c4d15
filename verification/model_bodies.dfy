/** The request bodies sent to the Bedrock models: the Anthropic Claude
    messages body (two variants) and the Amazon Titan multimodal embedding
    body (two variants), and the readers that take them apart again. */
module ModelBodies {
  import opened Wrappers
  import opened Json
  import Base64

  /** `BinaryData`: the bytes and the optional media type. */
  datatype BinaryData = BinaryData(bytes: seq<Base64.Byte>, mediaType: Option<string>)

  /** A nullable string as a JSON node: `null` becomes a JSON null. */
  function OptString(s: Option<string>): (r: Json)
    ensures s.None? <==> r == JNull
    ensures s.Some? ==> r == JString(s.value)
  {
    match s
    case None => JNull
    case Some(v) => JString(v)
  }

  const AnthropicVersion := "bedrock-2023-05-31"

  /** Paths into a Claude body. */
  const ContentPath: Path := [Field("messages"), Index(0), Field("content")]
  const MessagesPath: Path := [Field("messages")]
  function ImageSourcePath(field: string): Path {
    ContentPath + [Index(1), Field("source"), Field(field)]
  }

  function TextPart(prompt: Option<string>): Json {
    JObject([("type", JString("text")), ("text", OptString(prompt))])
  }

  function ImagePart(data: seq<Base64.Byte>, mediaType: Json): Json {
    JObject([("type", JString("image")),
             ("source", JObject([("type", JString("base64")),
                                 ("media_type", mediaType),
                                 ("data", JString(Base64.Encode(data)))]))])
  }

  /** The single user message around a content list. */
  function UserMessages(content: seq<Json>): Json {
    JArray([JObject([("role", JString("user")), ("content", JArray(content))])])
  }

  /** The content list: the text part, then the image part when there is one. */
  function Content(prompt: Option<string>, image: Option<BinaryData>, mediaType: Json): seq<Json> {
    [TextPart(prompt)] + (if image.Some? then [ImagePart(image.value.bytes, mediaType)] else [])
  }

  /** What every Claude body promises about its messages: one message from
      the user, the text part first, the image part second exactly when an
      image was given, carrying the base64 of its bytes. */
  predicate MessagesShape(r: Json, prompt: Option<string>, image: Option<BinaryData>) {
    && Resolve(r, MessagesPath).Some?
    && Resolve(r, MessagesPath).value.JArray?
    && |Resolve(r, MessagesPath).value.items| == 1
    && Resolve(r, [Field("messages"), Index(0), Field("role")]) == Some(JString("user"))
    && Resolve(r, ContentPath).Some?
    && Resolve(r, ContentPath).value.JArray?
    && |Resolve(r, ContentPath).value.items| == (if image.Some? then 2 else 1)
    && Resolve(r, ContentPath).value.items[0] == TextPart(prompt)
    && (image.Some? ==>
         && Resolve(r, ImageSourcePath("type")) == Some(JString("base64"))
         && Resolve(r, ImageSourcePath("data")) == Some(JString(Base64.Encode(image.value.bytes))))
  }

  lemma ResolveMessages(fields: seq<(string, Json)>, content: seq<Json>)
    requires Lookup(fields, "messages") == Some(UserMessages(content))
    ensures Resolve(JObject(fields), MessagesPath) == Some(UserMessages(content))
    ensures Resolve(JObject(fields), [Field("messages"), Index(0), Field("role")]) == Some(JString("user"))
    ensures Resolve(JObject(fields), ContentPath) == Some(JArray(content))
  {
    var m := JObject([("role", JString("user")), ("content", JArray(content))]);
    assert Lookup(m.fields, "content") == Some(JArray(content));
    assert Lookup(m.fields, "role") == Some(JString("user"));
    assert Resolve(JObject(fields), ContentPath) == Resolve(JArray([m]), ContentPath[1..]);
    assert Resolve(JArray([m]), ContentPath[1..]) == Resolve(m, ContentPath[2..]);
    assert Resolve(JObject(fields), [Field("messages"), Index(0), Field("role")])
        == Resolve(m, [Field("role")]);
  }

  lemma ResolveImageSource(fields: seq<(string, Json)>, content: seq<Json>, data: seq<Base64.Byte>, mediaType: Json)
    requires Resolve(JObject(fields), ContentPath) == Some(JArray(content))
    requires |content| == 2 && content[1] == ImagePart(data, mediaType)
    ensures Resolve(JObject(fields), ImageSourcePath("type")) == Some(JString("base64"))
    ensures Resolve(JObject(fields), ImageSourcePath("media_type")) == Some(mediaType)
    ensures Resolve(JObject(fields), ImageSourcePath("data")) == Some(JString(Base64.Encode(data)))
  {
    var src := JObject([("type", JString("base64")), ("media_type", mediaType), ("data", JString(Base64.Encode(data)))]);
    assert Get(content[1], "source") == Some(src) by {
      LookupDistinct(content[1].fields, 1);
    }
    LookupDistinct(src.fields, 0);
    LookupDistinct(src.fields, 1);
    LookupDistinct(src.fields, 2);
    SourceField(JObject(fields), content, src, "type");
    SourceField(JObject(fields), content, src, "media_type");
    SourceField(JObject(fields), content, src, "data");
  }

  /** A member of the second content part's `source`. */
  lemma SourceField(j: Json, content: seq<Json>, src: Json, field: string)
    requires Resolve(j, ContentPath) == Some(JArray(content))
    requires |content| == 2 && Get(content[1], "source") == Some(src)
    ensures Resolve(j, ImageSourcePath(field)) == Get(src, field)
  {
    var rest: Path := [Index(1), Field("source"), Field(field)];
    ResolvePrefix(j, ContentPath, rest, JArray(content));
    assert rest[1..] == [Field("source"), Field(field)];
    assert rest[1..][1..] == [Field(field)];
    assert Resolve(JArray(content), rest) == Resolve(content[1], rest[1..]);
    assert Resolve(content[1], rest[1..]) == Resolve(src, [Field(field)]);
    match Get(src, field)
    case None =>
    case Some(v) => assert Resolve(src, [Field(field)]) == Resolve(v, []);
  }

  /** Resolving a concatenated path resolves the first part, then the rest. */
  lemma {:induction false} ResolvePrefix(j: Json, p: Path, q: Path, mid: Json)
    requires Resolve(j, p) == Some(mid)
    ensures Resolve(j, p + q) == Resolve(mid, q)
    decreases |p|
  {
    if |p| == 0 {
      assert p + q == q;
    } else {
      assert (p + q)[0] == p[0];
      assert (p + q)[1..] == p[1..] + q;
      match p[0]
      case Field(name) =>
        assert Get(j, name).Some?;
        ResolvePrefix(Get(j, name).value, p[1..], q, mid);
      case Index(i) =>
        ResolvePrefix(j.items[i], p[1..], q, mid);
    }
  }

  /** The Claude 3 body the image-ingestion handlers send: 8000 output
      tokens, and an image without a media type is declared `image/jpeg`. */
  function Claude3Body(prompt: Option<string>, image: Option<BinaryData>): (r: Json)
    ensures Resolve(r, [Field("anthropic_version")]) == Some(JString(AnthropicVersion))
    ensures Resolve(r, [Field("max_tokens")]) == Some(JNumber(8000))
    ensures MessagesShape(r, prompt, image)
    ensures image.Some? ==>
      Resolve(r, ImageSourcePath("media_type")) == Some(JString(image.value.mediaType.GetOr("image/jpeg")))
  {
    var mediaType := if image.Some? then JString(image.value.mediaType.GetOr("image/jpeg")) else JNull;
    var content := Content(prompt, image, mediaType);
    var fields := [("anthropic_version", JString(AnthropicVersion)),
                   ("max_tokens", JNumber(8000)),
                   ("messages", UserMessages(content))];
    LookupDistinct(fields, 0);
    LookupDistinct(fields, 1);
    LookupDistinct(fields, 2);
    ResolveMessages(fields, content);
    if image.Some? then
      ResolveImageSource(fields, content, image.value.bytes, mediaType);
      JObject(fields)
    else
      JObject(fields)
  }

  /** The Claude body of the web application: 2048 output tokens, `top_p` 1,
      temperature 0, and the media type copied as it is, null included. */
  function ClaudeBody(prompt: Option<string>, image: Option<BinaryData>): (r: Json)
    ensures Resolve(r, [Field("anthropic_version")]) == Some(JString(AnthropicVersion))
    ensures Resolve(r, [Field("max_tokens")]) == Some(JNumber(2048))
    ensures Resolve(r, [Field("top_p")]) == Some(JNumber(1))
    ensures Resolve(r, [Field("temperature")]) == Some(JNumber(0))
    ensures MessagesShape(r, prompt, image)
    ensures image.Some? ==>
      Resolve(r, ImageSourcePath("media_type")) == Some(OptString(image.value.mediaType))
  {
    var mediaType := if image.Some? then OptString(image.value.mediaType) else JNull;
    var content := Content(prompt, image, mediaType);
    var fields := [("anthropic_version", JString(AnthropicVersion)),
                   ("max_tokens", JNumber(2048)),
                   ("top_p", JNumber(1)),
                   ("temperature", JNumber(0)),
                   ("messages", UserMessages(content))];
    LookupDistinct(fields, 0);
    LookupDistinct(fields, 1);
    LookupDistinct(fields, 2);
    LookupDistinct(fields, 3);
    LookupDistinct(fields, 4);
    ResolveMessages(fields, content);
    if image.Some? then
      ResolveImageSource(fields, content, image.value.bytes, mediaType);
      JObject(fields)
    else
      JObject(fields)
  }

  /** The image bytes a Claude body carries, decoded from its base64 text. */
  function ClaudeImage(body: Json): Option<seq<Base64.Byte>> {
    match Resolve(body, ImageSourcePath("data"))
    case Some(JString(s)) => Some(Base64.Decode(s))
    case _ => None
  }

  /** Both Claude bodies carry exactly the image bytes they were given, and
      none when there was no image. */
  lemma ClaudeImageRoundTrip(prompt: Option<string>, image: Option<BinaryData>)
    ensures image.Some? ==> ClaudeImage(Claude3Body(prompt, image)) == Some(image.value.bytes)
    ensures image.Some? ==> ClaudeImage(ClaudeBody(prompt, image)) == Some(image.value.bytes)
    ensures image.None? ==> ClaudeImage(Claude3Body(prompt, image)) == None
    ensures image.None? ==> ClaudeImage(ClaudeBody(prompt, image)) == None
  {
    if image.Some? {
      Base64.DecodeEncode(image.value.bytes);
    } else {
      NoSecondPart(Claude3Body(prompt, image));
      NoSecondPart(ClaudeBody(prompt, image));
    }
  }

  /** A content list of one element has no image source. */
  lemma NoSecondPart(body: Json)
    requires Resolve(body, ContentPath).Some? && Resolve(body, ContentPath).value.JArray?
    requires |Resolve(body, ContentPath).value.items| == 1
    ensures Resolve(body, ImageSourcePath("data")) == None
  {
    var c := Resolve(body, ContentPath).value;
    ResolvePrefix(body, ContentPath, [Index(1), Field("source"), Field("data")], c);
  }

  /** The Titan multimodal embedding body of the ingestion functions: the
      `inputImage` member is added only when there is an image. */
  function TitanBody(prompt: string, image: Option<seq<Base64.Byte>>): (r: Json)
    ensures r.JObject?
    ensures |r.fields| == (if image.Some? then 2 else 1)
    ensures Get(r, "inputText") == Some(JString(prompt))
    ensures image.None? ==> Get(r, "inputImage") == None
    ensures image.Some? ==> Get(r, "inputImage") == Some(JString(Base64.Encode(image.value)))
  {
    var body := [("inputText", JString(prompt))];
    if image.Some? then
      var fields := SetField(body, "inputImage", JString(Base64.Encode(image.value)));
      assert "inputImage" !in Keys(body);
      assert fields == body + [("inputImage", JString(Base64.Encode(image.value)))];
      JObject(fields)
    else
      assert "inputImage" !in Keys(body);
      JObject(body)
  }

  /** The Titan multimodal embedding body of the web application: both
      members are always present, `inputImage` being null without an image. */
  function TitanBodyWithNull(prompt: string, image: Option<seq<Base64.Byte>>): (r: Json)
    ensures r.JObject? && |r.fields| == 2 && DistinctKeys(r.fields)
    ensures Get(r, "inputText") == Some(JString(prompt))
    ensures image.None? <==> Get(r, "inputImage") == Some(JNull)
    ensures image.Some? ==> Get(r, "inputImage") == Some(JString(Base64.Encode(image.value)))
  {
    var base64 := if image.Some? then JString(Base64.Encode(image.value)) else JNull;
    var fields := [("inputText", JString(prompt)), ("inputImage", base64)];
    assert Lookup(fields, "inputText") == Some(JString(prompt));
    JObject(fields)
  }

  /** The image a Titan body carries, decoded; absent and null alike mean none. */
  function TitanImage(body: Json): Option<seq<Base64.Byte>> {
    match Get(body, "inputImage")
    case Some(JString(s)) => Some(Base64.Decode(s))
    case _ => None
  }

  /** Both Titan bodies carry exactly the image they were given. */
  lemma TitanImageRoundTrip(prompt: string, image: Option<seq<Base64.Byte>>)
    ensures TitanImage(TitanBody(prompt, image)) == image
    ensures TitanImage(TitanBodyWithNull(prompt, image)) == image
  {
    if image.Some? {
      Base64.DecodeEncode(image.value);
    }
  }
}
