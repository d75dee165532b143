/** `backend/routers/quote.py`: the `/api/quote` handler. It picks a topic,
    runs the four stages (quote text, background, overlay, publication) in
    that order, and maps their failures to HTTP replies or lets them escape.
    The quote generator is an input; the other three stages are given as
    the outcomes their own models describe. */
module QuoteRouter {
  import opened Wrappers
  import opened Strings
  import FluxClient
  import TextOverlay
  import Publisher

  /** The topics drawn from when the request names none; "coffee" is listed
      twice, so it is drawn twice as often as any other topic. */
  const Topics: seq<string> := [
    "life", "coffee", "work", "procrastination", "love", "success", "failure",
    "money", "coffee", "sleep", "cats", "technology", "meeting", "monday"
  ]

  /** The static route the frontend loads local images from. */
  const StaticPrefix: string := "/static/"

  /** `request.args.get("topic", "").strip()`, falling back to
      `random.choice(_TOPICS)`; `pick` is the index the random choice made. */
  function ChooseTopic(param: Option<string>, pick: nat): (topic: string)
    requires pick < |Topics|
    ensures topic != ""
    ensures param.Some? && Strip(param.value) != "" ==> topic == Strip(param.value)
    ensures (param.None? || Strip(param.value) == "") ==> topic == Topics[pick]
  {
    var given := if param.Some? then Strip(param.value) else "";
    if given != "" then given else Topics[pick]
  }

  /** A topic given with surrounding whitespace is used trimmed, and giving
      the trimmed topic instead makes no difference. */
  lemma GivenTopicTrimmed(param: string, pick: nat)
    requires pick < |Topics| && Strip(param) != ""
    ensures ChooseTopic(Some(param), pick) == ChooseTopic(Some(Strip(param)), pick)
    ensures var t := ChooseTopic(Some(param), pick); !IsSpace(t[0]) && !IsSpace(t[|t| - 1])
  {
    StripIdempotent(param);
  }

  /** The list has fourteen entries, and "coffee" is the entry at exactly
      two of its indices. */
  lemma CoffeeListedTwice()
    ensures |Topics| == 14
    ensures forall i :: 0 <= i < |Topics| ==> (Topics[i] == "coffee" <==> i == 1 || i == 8)
  {
  }

  /** `_to_public_path`: `/static/` followed by the path's final component. */
  function PublicPath(localPath: string): (url: string)
    ensures |url| >= |StaticPrefix| && url[..|StaticPrefix|] == StaticPrefix
    ensures url[|StaticPrefix|..] == Name(localPath)
    ensures '/' !in url[|StaticPrefix|..]
  {
    StaticPrefix + Name(localPath)
  }

  /** An overlay saved under `output/` is served as `/static/<its name>`. */
  lemma PublicPathOfOverlay(seconds: nat, token: string)
    requires IsHexToken(token)
    ensures PublicPath(TextOverlay.OutputPath(seconds, token))
         == StaticPrefix + StampedName("", seconds, token, ".png")
  {
    TextOverlay.OutputPathName(seconds, token);
  }

  /** What `generate_quote(topic)` did: returned the text, or raised an
      exception whose `str` is `message`. */
  datatype QuoteResult = Quoted(text: string) | QuoteRaised(message: string)

  /** The stages, with the arguments each was called with. */
  datatype Stage =
    | AskQuote(topic: string)
    | MakeBackground(topic: string)
    | Compose(backgroundPath: string, quote: string)
    | Publish(quote: string, imagePath: string)

  /** The handler's response: a JSON reply with its status, or an exception
      raised by the named stage that leaves the handler uncaught. */
  datatype Response =
    | Reply(status: nat, body: map<string, string>)
    | Unhandled(stage: Stage)

  /** `get_quote`. `str(exc)` of a `FluxError` is its fixed prefix followed
      by `fluxDetail`, the text of the underlying error or reply; the
      background, overlay and publication stages are the outcomes their own
      models give for these arguments. `trace` lists the stages called. */
  method GetQuote(param: Option<string>, pick: nat,
                  generateQuote: string -> QuoteResult,
                  generateBackground: string -> FluxClient.Outcome,
                  fluxDetail: FluxClient.FluxFailure -> string,
                  overlayQuote: (string, string) -> TextOverlay.Overlay,
                  publish: (string, string) -> Publisher.Publication)
    returns (response: Response, trace: seq<Stage>)
    requires pick < |Topics|
    ensures var topic := ChooseTopic(param, pick);
      && 1 <= |trace| <= 4
      && trace[0] == AskQuote(topic)
      && (|trace| >= 2 ==> generateQuote(topic).Quoted? && trace[1] == MakeBackground(topic))
      && (|trace| >= 3 ==> generateBackground(topic).Saved?)
      && (|trace| >= 3 ==> trace[2].Compose? && trace[2].quote == generateQuote(topic).text)
      && (|trace| == 4 ==> trace[3].Publish? && trace[3].quote == generateQuote(topic).text)
    // The quote stage: any failure becomes a 500 carrying only the message.
    ensures var q := generateQuote(ChooseTopic(param, pick));
      q.QuoteRaised? ==> response == Reply(500, map["error" := q.message]) && |trace| == 1
    ensures response.Reply? && response.status == 500 ==> generateQuote(ChooseTopic(param, pick)).QuoteRaised?
    // The background stage: a `FluxError` becomes a 502 with the quote, any
    // other exception escapes.
    ensures var topic := ChooseTopic(param, pick);
      generateQuote(topic).Quoted? ==>
      var bg := generateBackground(topic);
      && |trace| >= 2
      && (bg.FluxError? ==>
            response == Reply(502, map["error" := FluxClient.Prefix(bg.failure) + fluxDetail(bg.failure), "quote" := generateQuote(topic).text])
            && |trace| == 2)
      && (bg.Escaped? ==> response == Unhandled(MakeBackground(topic)) && |trace| == 2)
      && (bg.Saved? ==> |trace| >= 3 && trace[2] == Compose(bg.path, generateQuote(topic).text))
    // The overlay and publication stages: their exceptions escape; otherwise
    // the reply is the quote with the published url when there is one, else
    // the overlay's static path.
    ensures |trace| >= 3 ==>
      var overlay := overlayQuote(trace[2].backgroundPath, trace[2].quote);
      && (overlay.OpenFailed? ==> response == Unhandled(trace[2]) && |trace| == 3)
      && (overlay.Composed? ==> |trace| == 4 && trace[3] == Publish(trace[2].quote, overlay.composition.path))
    ensures |trace| == 4 ==>
      var p := publish(trace[3].quote, trace[3].imagePath);
      && (p.Raised? ==> response == Unhandled(trace[3]))
      && (p.Returned? ==>
            response == Reply(200, map["quote" := trace[3].quote,
                                       "img_url" := if p.url.Some? && p.url.value != "" then p.url.value
                                                    else PublicPath(trace[3].imagePath)]))
    // Only a reply that ran every stage succeeds.
    ensures response.Reply? ==> response.status in {200, 500, 502}
    ensures response.Reply? && response.status == 200 <==> |trace| == 4 && publish(trace[3].quote, trace[3].imagePath).Returned?
  {
    var topic := ChooseTopic(param, pick);
    trace := [AskQuote(topic)];
    var q := generateQuote(topic);
    if q.QuoteRaised? {
      return Reply(500, map["error" := q.message]), trace;
    }
    var quote := q.text;

    trace := trace + [MakeBackground(topic)];
    var bg := generateBackground(topic);
    match bg {
      case FluxError(failure) =>
        return Reply(502, map["error" := FluxClient.Prefix(failure) + fluxDetail(failure), "quote" := quote]), trace;
      case Escaped(_) =>
        return Unhandled(MakeBackground(topic)), trace;
      case Saved(bgPath, _) =>
        trace := trace + [Compose(bgPath, quote)];
        var overlay := overlayQuote(bgPath, quote);
        if overlay.OpenFailed? {
          return Unhandled(Compose(bgPath, quote)), trace;
        }
        var finalPath := overlay.composition.path;

        trace := trace + [Publish(quote, finalPath)];
        var published := publish(quote, finalPath);
        if published.Raised? {
          return Unhandled(Publish(quote, finalPath)), trace;
        }
        var imgUrl := if published.url.Some? && published.url.value != "" then published.url.value
                      else PublicPath(finalPath);
        response := Reply(200, map["quote" := quote, "img_url" := imgUrl]);
    }
  }
}
