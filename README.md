# voidwhisper quote cards, modelled in Dafny

voidwhisper serves `/api/quote`. The handler picks a topic and asks a
language model for a short cynical quote. It asks the Flux image service
for a background, draws the quote centred on the background, and publishes
the card to Supabase storage and a `quotes` table. The reply is the quote
and the card's url. This project models the decisions around those calls:

- `strings.dfy` (`Strings`): the Python string and path operations the code
  relies on. These are `str.split` on one character, `str.strip` (the
  `str.isspace` set), decimal rendering of the clock's seconds, the
  `<prefix><seconds>-<32 hex><ext>` stamped file name, and
  `pathlib.Path(...).name` and `.suffix`.
- `text_overlay.dfy` (`TextOverlay`): `overlay_quote` and `_get_font`.
  - The font size comes from the longest line of the raw quote: 72 under
    30 characters, 60 under 60 characters, else 48.
  - The text is wrapped at 20 columns and measured.
  - The block is drawn centred on the 1080x1350 canvas.
  - The font is the first candidate file that exists and loads, else the
    built-in font. `_get_font` is a loop, so it is a method proved against
    `FirstLoadable`.
- `flux_client.dfy` (`FluxClient`): the parsed JSON reply is classified as
  a hosted url, an inline base64 image, neither, or a first `data` element
  that is not an object. For each case the model states which branch writes
  a file, which raises `FluxError` with which message, and which lets
  another exception escape. It covers `generate_background` and the
  url-only `generate_image`.
- `publisher.dfy` (`Publisher`): the choice between the Supabase client and
  the no-op stub, and the storage key. It also covers the public url
  template, the content type fallback, and the `{quote, img_url}` row. Both
  storage calls let failures propagate.
- `corpus.dfy` (`Corpus`): the reference quote corpus and `random_quotes`.
  - The corpus is the quotes file's lines, stripped, blank ones dropped,
    in order, or the five built-in quotes when the file is absent.
  - `random_quotes` is a sample without replacement: `min(k, n)` entries
    from distinct positions. When `k >= n` the whole corpus comes back
    reordered. A negative `k` raises.
- `quote_router.dfy` (`QuoteRouter`): `get_quote`.
  - The topic is the stripped parameter, else a random entry of the
    14-topic list.
  - The stages run in the order quote → background → overlay → publish.
  - A failing quote becomes a 500 `{error}` reply. A `FluxError` becomes a
    502 `{error, quote}` reply. Any other exception escapes.
  - On success, `img_url` is the published url when it is non-empty, else
    `/static/<file name>`.

Randomness, the clock and external calls are parameters:
- `random.choice` is an index below 14.
- `random.sample` is a permutation of the positions.
- `uuid4().hex` is a 32-character lower-case hex token.
- `time.time()` is whole seconds.
- Each HTTP, imaging, language-model or database call is the outcome it
  produced.

Where the code and its comments disagree, the model follows the code:
- The font tier is taken from the raw quote's lines, not the wrapped text
  (`TextOverlay.SizeIgnoresWrapping`).
- The default topic is random, not "life".
- The local fallback url is `/static/<name>`, not an absolute file path.
- A publication failure is not masked. It escapes the handler.

## Model

| member | source | states |
|---|---|---|
| Strings.Split | backend/services/text_overlay.py:55 | `str.split(sep)` always yields at least one piece, no piece is longer than the text, and no piece contains the separator |
| Strings.JoinSplit | backend/services/text_overlay.py:55 | splitting at a character and joining back with it gives the original text |
| Strings.SplitWithoutDelimiter | backend/services/text_overlay.py:55 | a text without the separator splits into itself alone |
| Strings.SplitAround | backend/services/rag_retriever.py:25 | a separator splits a text into the pieces of its left part followed by those of its right part |
| Strings.IsSpace | backend/services/rag_retriever.py:25 | `str.isspace`: every line boundary is whitespace, and no digit, hex letter, `-`, `.` or `/` is |
| Strings.LeadingSpaces | backend/services/rag_retriever.py:25 | counts the whitespace run at the front: all of it is whitespace and the next character is not |
| Strings.TrailingSpaces | backend/services/rag_retriever.py:25 | counts the whitespace run at the end: all of it is whitespace and the character before it is not |
| Strings.Strip | backend/services/rag_retriever.py:25 | `str.strip()` is the slice after the leading whitespace, only whitespace follows it, it neither starts nor ends with whitespace, and it is empty exactly when the text is all whitespace |
| Strings.StripOfTrimmed | backend/services/rag_retriever.py:25 | a text without whitespace at either end strips to itself |
| Strings.StripIdempotent | backend/routers/quote.py:53 | stripping twice is stripping once |
| Strings.NatToString | backend/services/text_overlay.py:82 | `str(int(time.time()))` is a non-empty run of decimal digits without a leading zero |
| Strings.NatToStringRoundTrip | backend/services/text_overlay.py:82 | reading the rendered digits back gives the number of seconds |
| Strings.StampedName | backend/services/text_overlay.py:82 | `<prefix><seconds>-<token><ext>`: the prefix, the decimal seconds, a dash, the token and the extension, in that order and nothing else |
| Strings.Significant | backend/routers/quote.py:47 | the path components kept by `pathlib` are never empty and never `.` |
| Strings.SignificantAppend | backend/routers/quote.py:47 | the components of joined path parts are the components of each part in order |
| Strings.SignificantPiecesHaveNoSlash | backend/routers/quote.py:47 | path components contain no `/` |
| Strings.Name | backend/routers/quote.py:47 | `Path(p).name` holds no `/` |
| Strings.NameOfPlain | backend/routers/quote.py:47 | a file name without `/` other than `""` and `.` is its own name |
| Strings.NameOfChild | backend/routers/quote.py:47 | the name of `dir/name` is `name` |
| Strings.LastIndex | backend/services/supabase_client.py:54 | `rfind`: none exactly when the character is absent, else a position holding it with none after |
| Strings.Suffix | backend/services/supabase_client.py:54 | `Path(p).suffix` is empty or a dot followed by at least one character, with no further dot and no `/` |
| Strings.LastDotOfExtension | backend/services/supabase_client.py:54 | the last dot of a dot-free stem followed by an extension is the extension's dot |
| Strings.SuffixOfStemAndExtension | backend/services/supabase_client.py:54 | a plain stem followed by an extension has that extension as its suffix |
| Strings.StampedNameIsPlain | backend/services/text_overlay.py:82 | a stamped name `<prefix><seconds>-<hex><ext>` is a single, non-empty path component |
| TextOverlay.Longest | backend/services/text_overlay.py:55 | the maximum line length bounds every line and is reached by one |
| TextOverlay.LongestLine | backend/services/text_overlay.py:55 | the longest of the quote's `\n`-separated lines, never longer than the quote |
| TextOverlay.FontSize | backend/services/text_overlay.py:55-61 | 72 exactly when the longest raw line is under 30, 60 exactly when it is 30 to 59, 48 exactly when it is 60 or more |
| TextOverlay.FontSizeMonotone | backend/services/text_overlay.py:55-61 | a longer longest line never gets a larger font |
| TextOverlay.ShortQuoteLargestFont | backend/services/text_overlay.py:55-61 | any quote under 30 characters, the empty one included, gets 72 |
| TextOverlay.SingleLineFontSize | backend/services/text_overlay.py:55-61 | a quote without newlines is sized by its own length |
| TextOverlay.SizeIgnoresWrapping | backend/services/text_overlay.py:55-66 | the size comes from the raw quote: a 30–59 character line gets 60 though its 20-column wrap would get 72 |
| TextOverlay.FirstLoadable | backend/services/text_overlay.py:30-39 | a TrueType result is a listed path that exists and loads at the requested size; when any candidate is usable the result is not the built-in font |
| TextOverlay.FirstLoadableIsFirst | backend/services/text_overlay.py:30-39 | the fallback picks a candidate that exists and loads, with every earlier one unusable; it picks the built-in font exactly when none is usable |
| TextOverlay.GetFont | backend/services/text_overlay.py:30-39 | the loop returns the font the ordered fallback rule picks |
| TextOverlay.CenteredOrigin | backend/services/text_overlay.py:70-74 | `2x + w = 1080` and `2y + h = 1350`: a block of the measured width and height at this origin has as much room on its left as on its right, and as much above as below |
| TextOverlay.DrawnMargins | backend/services/text_overlay.py:69-79 | the drawn ink's side margins differ by twice the box's `left` offset and its top and bottom margins by twice its `top` offset; they are equal exactly when that offset is zero |
| TextOverlay.OutputPath | backend/services/text_overlay.py:82 | the saved path is `output/` followed by the stamped `<seconds>-<hex>.png` name |
| TextOverlay.OutputPathName | backend/services/text_overlay.py:82 | the saved file's name is `<seconds>-<hex>.png` |
| TextOverlay.OverlayQuote | backend/services/text_overlay.py:41-85 | fails exactly when the background cannot be opened. Otherwise: canvas 1080x1350 darkened to 0.6; the 20-column wrap drawn with the measured style, the resolved font, spacing 10, centred and white; saved under the stamped name |
| FluxClient.Truthy | backend/services/flux_client.py:133-138 | Python's truth test: false exactly for `None`, `False`, `0`, `""`, `[]` and `{}` |
| FluxClient.Prefix | backend/services/flux_client.py:64-146 | each `FluxError` message starts with its fixed text ending in `: `, before the detail |
| FluxClient.Classify | backend/services/flux_client.py:121-129 | a top-level `url` key decides alone; otherwise only `data[0]` is read; only truthy values are used; a non-object reply, or an object with neither a `url` key nor a non-empty `data` list, has no image; a non-object `data[0]` is reported |
| FluxClient.LaterElementsIgnored | backend/services/flux_client.py:126-129 | replies agreeing on `data[0]` are classified alike |
| FluxClient.FirstElementPriority | backend/services/flux_client.py:127-138 | a truthy `url` wins over `b64_json`; `b64_json` is used only without a truthy url; with neither there is no image |
| FluxClient.GenerateBackground | backend/services/flux_client.py:95-148 | request, status or JSON failure raises the background `FluxError`; a file is saved exactly when the url download or the base64 decode succeeds, verbatim or re-encoded accordingly, under `output/bg-<seconds>-<hex>.png`; after a good reply, a failed download and a non-object `data[0]` escape, a failed decode raises the decode `FluxError`, and no image raises the no-field `FluxError` |
| FluxClient.NoFieldNoFile | backend/services/flux_client.py:145-146 | a reply with neither field raises the "Cannot find image url or b64_json" error |
| FluxClient.GenerateImage | backend/services/flux_client.py:41-92 | the request `FluxError` exactly for a transport or status failure; invalid JSON exactly for an unparseable body after a good status; after a parsed reply a hosted url is downloaded and saved verbatim (a failed download escapes), an inline-only or image-less reply raises the no-url `FluxError`, and a non-object `data[0]` escapes; a saved file always holds the downloaded bytes |
| FluxClient.ImageAndBackgroundAgree | backend/services/flux_client.py:72-82 | whenever `generate_image` saves bytes, `generate_background` saves the same; an inline-only reply fails the first and succeeds in the second when it decodes |
| Publisher.Select | backend/services/supabase_client.py:16-66 | the real client exactly when the library imports and both settings are non-empty |
| Publisher.StorageKey | backend/services/supabase_client.py:54 | the key is the decimal seconds, a dash, the token, then the image path's suffix |
| Publisher.KeyKeepsSuffix | backend/services/supabase_client.py:54 | the storage key ends with the image path's own suffix, none included |
| Publisher.PublicImageUrl | backend/services/supabase_client.py:49-50 | the url follows `<base>/storage/v1/object/public/images/<key>` and ends with the key |
| Publisher.ContentType | backend/services/supabase_client.py:55-57 | the guessed type when there is one, else `image/png`; never empty |
| Publisher.UploadAndInsert | backend/services/supabase_client.py:26-60 | the stub returns `None` and calls nothing; the real client uploads, then inserts exactly `{quote, img_url}`, then returns that url; a failing call raises, and nothing follows it |
| Publisher.PublishedRowMatchesUrl | backend/services/supabase_client.py:53-60 | after a publication, the last call inserted the returned url, which ends with a key that keeps the image's extension |
| Corpus.KeepNonBlank | backend/services/rag_retriever.py:25 | entries are non-empty and neither start nor end with whitespace |
| Corpus.KeepNonBlankAppend | backend/services/rag_retriever.py:25 | the file's order is kept |
| Corpus.KeepNonBlankMembers | backend/services/rag_retriever.py:25 | an entry is exactly a non-empty strip of some line |
| Corpus.LoadCorpus | backend/services/rag_retriever.py:13-27 | absent file gives the five built-in quotes; a present file gives its non-blank lines stripped |
| Corpus.BlankFileEmptyCorpus | backend/services/rag_retriever.py:23-25 | an existing all-blank file gives an empty corpus, not the built-in list |
| Corpus.SplitOfBlankIsBlank | backend/services/rag_retriever.py:25 | the pieces of an all-whitespace text are all whitespace |
| Corpus.Positions | backend/services/rag_retriever.py:30-34 | the population's positions `0 .. n-1` |
| Corpus.AtIndex | backend/services/rag_retriever.py:30-34 | the i-th drawn entry is the entry at the i-th drawn position |
| Corpus.RandomQuotes | backend/services/rag_retriever.py:30-34 | raises exactly for negative `k`; otherwise returns `min(k, n)` entries, taken at the sampler's positions in order |
| Corpus.PositionsOnce | backend/services/rag_retriever.py:30-34 | each position occurs once in the population |
| Corpus.ShuffleDistinct | backend/services/rag_retriever.py:30-34 | the sampler never draws a position twice |
| Corpus.AtPermutation | backend/services/rag_retriever.py:32-33 | reordering positions reorders the drawn entries |
| Corpus.WholeCorpusIsPermutation | backend/services/rag_retriever.py:32-33 | with `k >= n` the result is a permutation of the whole corpus |
| Corpus.SampleFromDistinctPositions | backend/services/rag_retriever.py:30-34 | every result is a corpus entry, from pairwise distinct positions |
| QuoteRouter.ChooseTopic | backend/routers/quote.py:53-54 | the stripped parameter when non-empty, else the randomly chosen list entry; never empty |
| QuoteRouter.GivenTopicTrimmed | backend/routers/quote.py:53 | a given topic is used trimmed, the same as giving it trimmed |
| QuoteRouter.CoffeeListedTwice | backend/routers/quote.py:27-42 | fourteen topics, "coffee" at exactly two of them |
| QuoteRouter.PublicPath | backend/routers/quote.py:45-47 | `/static/` followed by the path's final component, which has no `/` |
| QuoteRouter.PublicPathOfOverlay | backend/routers/quote.py:45-47 | a card saved under `output/` is served as `/static/<seconds>-<hex>.png` |
| QuoteRouter.GetQuote | backend/routers/quote.py:50-73 | stages run quote → background → overlay → publish with the stated arguments; quote failure gives 500 `{error}`; `FluxError` gives 502 `{error, quote}`; other failures escape from their stage; success is 200 `{quote, img_url}` with `img_url` the truthy published url, else the static path |

## Left out

- Pixel work is not modelled: decoding, resizing, brightness, rasterising, PNG encoding and `quality=95`. The model records only what the imaging library is asked to do.
- `textwrap.fill` and `multiline_textbbox` are inputs (`wrap`, `measure`). How they wrap and measure is not modelled.
- HTTP, JSON parsing, base64 decoding, the Supabase SDK and `mimetypes.guess_type` are inputs. Each one is given as its outcome or its parsed value.
- Request headers, payloads, prompts and timeouts are not modelled. The bucket creation at import time is not modelled either.
- The filesystem is not modelled. A written file is a returned path plus its content. The creation of `output/` and partial writes before a failure are not modelled.
- `open(image_path)` failing in the real publisher is folded into the upload failure.
- The detail part of exception messages is an input. The 502 reply's error is the `FluxError`'s fixed prefix (`FluxClient.Prefix`) followed by that detail; the quote stage's message is taken whole.
- `str.splitlines` is modelled as a cut at every line-boundary character. `\r\n` and a final newline therefore give extra empty pieces, which the blank-line filter drops, so the corpus is the same.
- JSON numbers are reals. Unicode normalisation and encodings are not modelled.
- The probability distributions of `random.choice`, `random.sample` and `uuid4`, and the uniqueness of generated names, are not modelled.
- Flask's conversion of an escaped exception into a 500 response is not modelled. The model names the stage that raised.
- `mimetypes.guess_type` is an input applied to the image path.
- The router takes each stage's outcome as a function of the stage's arguments. The flux, overlay and publication models are proved separately, not re-run inside the router.
- The stub's printed notice (`auth_missing_msg`) is console output and is not modelled. The stub makes no storage or table call.
- Default arguments are not modelled: `random_quotes`'s `k=8`, `_get_font`'s `size=72` and the Flux calls' `aspect_ratio="3:4"`. The model always takes `k` and the size as given. The aspect ratio only goes into the request payload, which is not modelled.
- The drawn text is not truly centred. The bounding box is measured with the text anchored at `(0, 0)`, and its `left` and `top` offsets are not subtracted from the origin. `TextOverlay.DrawnMargins` states the resulting offset. The model keeps the code's origin and does not correct it.
- `backend/services/gpt_client.py`, `backend/config.py`, `backend/app.py` and the frontend script are not part of this model.
