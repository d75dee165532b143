/** The decisions of `backend/services/flux_client.py`: which field of the
    image service's parsed JSON reply is used (hosted url, inline base64, or
    neither), which branch writes a file, and which failures become
    `FluxError` and which escape as other exceptions. The HTTP calls, the
    base64/image decoders and the clock and random token are inputs. */
module FluxClient {
  import opened Wrappers
  import opened Strings

  /** A parsed JSON value, as `json.loads` returns it. Numbers are reals. */
  datatype Json =
    | Null
    | Bool(b: bool)
    | Number(n: real)
    | Str(s: string)
    | Array(items: seq<Json>)
    | Object(fields: map<string, Json>)

  /** Python's truth value of the parsed value: exactly `None`, `False`,
      `0`, `""`, `[]` and `{}` are false. */
  function Truthy(j: Json): (truthy: bool)
    ensures !truthy <==> j in {Null, Bool(false), Number(0.0), Str(""), Array([]), Object(map[])}
  {
    match j
    case Null => false
    case Bool(b) => b
    case Number(n) => n != 0.0
    case Str(s) => s != ""
    case Array(items) => items != []
    case Object(fields) => fields != map[]
  }

  /** `d.get(key)` on an object: the value, or `None` when absent. */
  function Get(fields: map<string, Json>, key: string): Json {
    if key in fields then fields[key] else Null
  }

  /** The shape of a reply, decided only by the parsed body.
      `FirstNotObject`: `data[0]` is not an object, so calling `.get` on it
      raises an `AttributeError`, which is not a `FluxError`. */
  datatype Shape =
    | HostedUrl(url: Json)
    | InlineB64(payload: Json)
    | NoImage
    | FirstNotObject

  /** The first element of a non-empty `data` array, when the reply is an
      object without a top-level `url` key. */
  predicate HasDataArray(body: Json) {
    && body.Object?
    && "url" !in body.fields
    && "data" in body.fields
    && body.fields["data"].Array?
    && |body.fields["data"].items| > 0
  }

  /** The classification of the parsed body: a top-level `url` key wins
      outright; otherwise only `data[0]`'s `url` and `b64_json` are read, the
      url taking priority; a value is used only when it is truthy. */
  function Classify(body: Json): (shape: Shape)
    ensures shape.HostedUrl? ==> Truthy(shape.url)
    ensures shape.InlineB64? ==> Truthy(shape.payload)
    ensures !body.Object? ==> shape == NoImage
    ensures shape.FirstNotObject? <==> HasDataArray(body) && !body.fields["data"].items[0].Object?
    ensures body.Object? && "url" in body.fields ==>
      shape == (if Truthy(body.fields["url"]) then HostedUrl(body.fields["url"]) else NoImage)
    ensures body.Object? && "url" !in body.fields && !HasDataArray(body) ==> shape == NoImage
  {
    match body
    case Object(fields) =>
      if "url" in fields then
        if Truthy(fields["url"]) then HostedUrl(fields["url"]) else NoImage
      else if "data" in fields && fields["data"].Array? && |fields["data"].items| > 0 then
        var first := fields["data"].items[0];
        if !first.Object? then FirstNotObject
        else
          var url := Get(first.fields, "url");
          var b64 := Get(first.fields, "b64_json");
          if Truthy(url) then HostedUrl(url)
          else if Truthy(b64) then InlineB64(b64)
          else NoImage
      else NoImage
    case _ => NoImage
  }

  /** Only `data[0]` counts: replies whose `data` arrays agree on their first
      element are classified alike, whatever follows it. */
  lemma LaterElementsIgnored(body: Json, other: Json)
    requires HasDataArray(body) && HasDataArray(other)
    requires body.fields["data"].items[0] == other.fields["data"].items[0]
    ensures Classify(body) == Classify(other)
  {
  }

  /** With a first element that is an object: a truthy `url` is used whatever
      `b64_json` holds; `b64_json` is used only when `url` is absent or falsy;
      with neither, the reply has no image. */
  lemma FirstElementPriority(body: Json)
    requires HasDataArray(body) && body.fields["data"].items[0].Object?
    ensures var first := body.fields["data"].items[0].fields;
      && (Truthy(Get(first, "url")) ==> Classify(body) == HostedUrl(Get(first, "url")))
      && (!Truthy(Get(first, "url")) && Truthy(Get(first, "b64_json")) ==>
            Classify(body) == InlineB64(Get(first, "b64_json")))
      && (!Truthy(Get(first, "url")) && !Truthy(Get(first, "b64_json")) ==> Classify(body) == NoImage)
  {
  }

  // ---------------------------------------------------------------------------
  // The calls around the classification

  /** What the POST to the image service gave: a transport failure, or a
      status and a body that parsed as JSON or did not. */
  datatype Reply = Unreachable | Response(status: int, body: Option<Json>)

  /** `raise_for_status` raises for client and server error statuses. */
  predicate IsErrorStatus(status: int) {
    400 <= status < 600
  }

  /** The follow-up GET of a hosted url: the body bytes, or the HTTP
      library's own exception (a bad status included). */
  datatype Download = Fetched(content: seq<byte>) | DownloadError

  /** The reasons a `FluxError` is raised; `Prefix` gives each one's fixed
      message text. */
  datatype FluxFailure = RequestFailed | BackgroundRequestFailed | InvalidJson | DecodeFailed | NoImageField | NoUrl

  function Prefix(f: FluxFailure): (prefix: string)
    ensures |prefix| > 2 && prefix[|prefix| - 2..] == ": "
  {
    match f
    case RequestFailed => "Flux request failed: "
    case BackgroundRequestFailed => "Flux background request failed: "
    case InvalidJson => "Invalid JSON from Flux: "
    case DecodeFailed => "Failed to decode b64 image: "
    case NoImageField => "Cannot find image url or b64_json in background response: "
    case NoUrl => "Cannot find image url in response: "
  }

  /** Exceptions that leave the function without becoming a `FluxError`. */
  datatype Escape = DownloadRaised | NotAnObject

  /** What is written to the file: the downloaded bytes as they came, or the
      image decoded from the base64 bytes, re-encoded as PNG. */
  datatype FileContent = Verbatim(bytes: seq<byte>) | PngOf(decoded: seq<byte>)

  /** A call either saved one file and returns its absolute path, or raised. */
  datatype Outcome =
    | Saved(path: string, content: FileContent)
    | FluxError(failure: FluxFailure)
    | Escaped(escape: Escape)

  /** `str(file_path.resolve())` for a path relative to the working directory. */
  function Resolve(cwd: string, relative: string): string {
    cwd + "/" + relative
  }

  /** `generate_background`: POST, classify, then download the hosted url
      (writing the bytes verbatim) or decode the inline payload (re-saving it
      as PNG). `decode` stands for base64 decoding followed by opening the
      bytes as an image, `None` when either fails. */
  function GenerateBackground(reply: Reply, download: Json -> Download,
                              decode: Json -> Option<seq<byte>>,
                              cwd: string, seconds: nat, token: string): (out: Outcome)
    ensures out.Saved? ==> out.path == Resolve(cwd, "output/" + StampedName("bg-", seconds, token, ".png"))
    ensures out.FluxError? && out.failure == BackgroundRequestFailed <==>
      (reply.Unreachable? || IsErrorStatus(reply.status) || reply.body.None?)
    ensures out.Saved? <==>
      && reply.Response? && !IsErrorStatus(reply.status) && reply.body.Some?
      && match Classify(reply.body.value)
         case HostedUrl(u) => download(u).Fetched?
         case InlineB64(p) => decode(p).Some?
         case _ => false
    ensures out.Saved? && out.content.Verbatim? ==>
      Classify(reply.body.value).HostedUrl? && download(Classify(reply.body.value).url) == Fetched(out.content.bytes)
    ensures out.Saved? && out.content.PngOf? ==>
      Classify(reply.body.value).InlineB64? && decode(Classify(reply.body.value).payload) == Some(out.content.decoded)
    // After a good reply, each shape's failure: a failed download and a
    // non-object `data[0]` escape; a failed decode and a missing image raise
    // `FluxError`.
    ensures reply.Response? && !IsErrorStatus(reply.status) && reply.body.Some? ==>
      var shape := Classify(reply.body.value);
      && (shape.HostedUrl? && download(shape.url).DownloadError? ==> out == Escaped(DownloadRaised))
      && (shape.InlineB64? && decode(shape.payload).None? ==> out == FluxError(DecodeFailed))
      && (shape.NoImage? ==> out == FluxError(NoImageField))
      && (shape.FirstNotObject? ==> out == Escaped(NotAnObject))
  {
    if reply.Unreachable? || IsErrorStatus(reply.status) || reply.body.None? then
      FluxError(BackgroundRequestFailed)
    else
      var path := Resolve(cwd, "output/" + StampedName("bg-", seconds, token, ".png"));
      match Classify(reply.body.value)
      case HostedUrl(u) =>
        (match download(u)
         case Fetched(bytes) => Saved(path, Verbatim(bytes))
         case DownloadError => Escaped(DownloadRaised))
      case InlineB64(p) =>
        (match decode(p)
         case Some(image) => Saved(path, PngOf(image))
         case None => FluxError(DecodeFailed))
      case NoImage => FluxError(NoImageField)
      case FirstNotObject => Escaped(NotAnObject)
  }

  /** A reply with neither field raises `FluxError` with the "Cannot find image
      url or b64_json" message and writes no file. */
  lemma NoFieldNoFile(reply: Reply, download: Json -> Download, decode: Json -> Option<seq<byte>>,
                      cwd: string, seconds: nat, token: string)
    requires reply.Response? && !IsErrorStatus(reply.status) && reply.body.Some?
    requires Classify(reply.body.value) == NoImage
    ensures GenerateBackground(reply, download, decode, cwd, seconds, token) == FluxError(NoImageField)
  {
  }

  /** `generate_image`: the url-only variant. The `b64_json` it reads is never
      used, so an inline payload alone is reported as a missing url. */
  function GenerateImage(reply: Reply, download: Json -> Download,
                         cwd: string, seconds: nat, token: string): (out: Outcome)
    ensures out.Saved? ==> out.path == Resolve(cwd, "output/" + StampedName("", seconds, token, ".png"))
    ensures out.Saved? ==> out.content.Verbatim?
    ensures out.FluxError? ==> out.failure in {RequestFailed, InvalidJson, NoUrl}
    ensures out.FluxError? && out.failure == InvalidJson <==>
      reply.Response? && !IsErrorStatus(reply.status) && reply.body.None?
    ensures out.FluxError? && out.failure == RequestFailed <==>
      reply.Unreachable? || IsErrorStatus(reply.status)
    // After a good, parsed reply: only a hosted url is used; anything else
    // without a top-level or first-element url raises `FluxError`, except a
    // non-object `data[0]`, which escapes.
    ensures reply.Response? && !IsErrorStatus(reply.status) && reply.body.Some? ==>
      var shape := Classify(reply.body.value);
      && (shape.HostedUrl? ==>
            out == (match download(shape.url)
                    case Fetched(bytes) => Saved(Resolve(cwd, "output/" + StampedName("", seconds, token, ".png")), Verbatim(bytes))
                    case DownloadError => Escaped(DownloadRaised)))
      && (shape.InlineB64? || shape.NoImage? ==> out == FluxError(NoUrl))
      && (shape.FirstNotObject? ==> out == Escaped(NotAnObject))
    ensures out.Saved? ==>
      && reply.Response? && reply.body.Some? && Classify(reply.body.value).HostedUrl?
      && download(Classify(reply.body.value).url) == Fetched(out.content.bytes)
  {
    if reply.Unreachable? || IsErrorStatus(reply.status) then FluxError(RequestFailed)
    else if reply.body.None? then FluxError(InvalidJson)
    else
      match Classify(reply.body.value)
      case HostedUrl(u) =>
        (match download(u)
         case Fetched(bytes) => Saved(Resolve(cwd, "output/" + StampedName("", seconds, token, ".png")), Verbatim(bytes))
         case DownloadError => Escaped(DownloadRaised))
      case FirstNotObject => Escaped(NotAnObject)
      case _ => FluxError(NoUrl)
  }

  /** The two variants agree on hosted urls: whenever `generate_image`
      saves bytes, `generate_background` saves the same bytes for that reply;
      a reply carrying only an inline payload fails in `generate_image` but not
      in `generate_background` when the payload decodes. */
  lemma ImageAndBackgroundAgree(reply: Reply, download: Json -> Download, decode: Json -> Option<seq<byte>>,
                                cwd: string, seconds: nat, token: string)
    ensures var img := GenerateImage(reply, download, cwd, seconds, token);
      var bg := GenerateBackground(reply, download, decode, cwd, seconds, token);
      && (img.Saved? ==> bg.Saved? && bg.content == img.content)
      && (reply.Response? && !IsErrorStatus(reply.status) && reply.body.Some?
          && Classify(reply.body.value).InlineB64? && decode(Classify(reply.body.value).payload).Some? ==>
            img == FluxError(NoUrl) && bg.Saved?)
  {
  }
}
