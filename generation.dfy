/** `generate_questions`: resolve the API key, choose between an image and a
    text request, and return the service's reply. The client construction and
    the network call are not modelled; their combined outcome is the `reply`
    parameter, `None` when either raised and `Some(text)` for the first text
    block of the response. */
module Generation {
  import opened Wrappers

  type byte = b: int | 0 <= b < 256

  /** The eight-byte PNG file signature (section 3.1 of RFC 2083). */
  const PngSignature: seq<byte> := [0x89, 0x50, 0x4E, 0x47, 0x0D, 0x0A, 0x1A, 0x0A]

  const PngMediaType: string := "image/png"
  const JpegMediaType: string := "image/jpeg"

  /** The media type sent with an image: PNG exactly when the bytes begin
      with the PNG signature, JPEG for everything else, short inputs included. */
  function DetectMediaType(data: seq<byte>): (m: string)
    ensures m == PngMediaType <==> |data| >= |PngSignature| && data[..|PngSignature|] == PngSignature
    ensures m == PngMediaType || m == JpegMediaType
  {
    if Head(data, 8) == PngSignature then PngMediaType else JpegMediaType
  }

  /** Python truthiness of an optional string: present and non-empty. */
  predicate Truthy(s: Option<string>) {
    s.Some? && s.value != []
  }

  /** The key lookup: the secrets store first; when it raised or gave a falsy
      value, the process environment; a falsy result counts as no key. */
  function ResolveApiKey(secret: Option<string>, env: Option<string>): (key: Option<string>)
    ensures key.None? <==> !Truthy(secret) && !Truthy(env)
    ensures key.Some? ==> key.value != []
    ensures Truthy(secret) ==> key == secret
    ensures !Truthy(secret) ==> key == (if Truthy(env) then env else None)
  {
    var fromSecrets := secret;
    var apiKey := if Truthy(fromSecrets) then fromSecrets else env;
    if Truthy(apiKey) then apiKey else None
  }

  /** The user content of the request: the image with its detected media
      type, or the text topic (Python's `None` when no topic was passed). */
  datatype Request =
    | ImageRequest(mediaType: string, image: seq<byte>)
    | TextRequest(topic: Option<string>)

  /** What one call of `generate_questions` did: stop before any client is
      built because no key was found, or send `request` with `apiKey` and get
      `reply` back. */
  datatype Generation =
    | NoApiKey
    | Sent(apiKey: string, request: Request, reply: Option<string>)

  /** The value `generate_questions` returns. */
  function Output(g: Generation): (o: Option<string>)
    ensures g.NoApiKey? ==> o.None?
    ensures g.Sent? ==> o == g.reply
  {
    match g
    case NoApiKey => None
    case Sent(_, _, reply) => reply
  }

  /** `generate_questions(topic, image_data)`. `image` is the `image_data`
      argument; `secret` and `env` are the two credential sources and `reply`
      the outcome of building the client and calling the service. */
  function GenerateQuestions(topic: Option<string>, image: Option<seq<byte>>,
                             secret: Option<string>, env: Option<string>,
                             reply: Option<string>): (g: Generation)
    ensures g.NoApiKey? <==> ResolveApiKey(secret, env).None?
    ensures g.Sent? ==> Some(g.apiKey) == ResolveApiKey(secret, env) && g.reply == reply
    ensures g.Sent? ==> (g.request.ImageRequest? <==> image.Some? && image.value != [])
    ensures g.Sent? && g.request.ImageRequest? ==>
      g.request.image == image.value && g.request.mediaType == DetectMediaType(image.value)
    ensures g.Sent? && g.request.TextRequest? ==> g.request.topic == topic
  {
    match ResolveApiKey(secret, env)
    case None => NoApiKey
    case Some(key) =>
      var request :=
        if image.Some? && image.value != [] then ImageRequest(DetectMediaType(image.value), image.value)
        else TextRequest(topic);
      Sent(key, request, reply)
  }

  /** A file that starts with the PNG signature is sent as PNG, whatever follows. */
  lemma PngPrefixIsPng(rest: seq<byte>)
    ensures DetectMediaType(PngSignature + rest) == PngMediaType
  {
    assert (PngSignature + rest)[..|PngSignature|] == PngSignature;
  }

  /** Fewer than eight bytes can never carry the signature. */
  lemma ShortImageIsJpeg(data: seq<byte>)
    requires |data| < |PngSignature|
    ensures DetectMediaType(data) == JpegMediaType
  {
  }

  /** Without a key nothing is sent and nothing is returned, in text mode and
      in image mode alike. */
  lemma MissingKeySendsNothing(topic: Option<string>, image: Option<seq<byte>>,
                               secret: Option<string>, env: Option<string>, reply: Option<string>)
    requires !Truthy(secret) && !Truthy(env)
    ensures GenerateQuestions(topic, image, secret, env, reply) == NoApiKey
    ensures Output(GenerateQuestions(topic, image, secret, env, reply)) == None
  {
  }

  /** With a key, the returned value is exactly the service's reply. */
  lemma OutputIsReply(topic: Option<string>, image: Option<seq<byte>>,
                      secret: Option<string>, env: Option<string>, reply: Option<string>)
    requires Truthy(secret) || Truthy(env)
    ensures Output(GenerateQuestions(topic, image, secret, env, reply)) == reply
  {
  }

  /** An empty `image_data` is falsy, so the call falls back to a text
      request carrying whatever topic was passed, `None` in image mode. */
  lemma EmptyImageSendsText(topic: Option<string>, secret: Option<string>,
                            env: Option<string>, reply: Option<string>)
    requires Truthy(secret) || Truthy(env)
    ensures GenerateQuestions(topic, Some([]), secret, env, reply).request == TextRequest(topic)
  {
  }
}
