/** `backend/services/supabase_client.py`: the choice between the storage
    client and the no-op stub, the storage key, the public url template and
    the row recorded. The storage and table calls themselves are inputs that
    succeed or raise. */
module Publisher {
  import opened Wrappers
  import opened Strings

  const Bucket: string := "images"
  const Table: string := "quotes"
  const DefaultContentType: string := "image/png"

  /** The two optional settings, as read from the environment. */
  datatype Settings = Settings(supabaseUrl: Option<string>, supabaseKey: Option<string>)

  /** The selected `SupabaseClient`: the real one bound to a project url, or
      the stub. */
  datatype Client = Real(baseUrl: string) | Stub

  /** Python's truth value of an optional string. */
  predicate Present(s: Option<string>) {
    s.Some? && s.value != ""
  }

  /** The module-level selection: the real client only when the optional
      library imports and both settings are non-empty. */
  function Select(libraryImports: bool, settings: Settings): (client: Client)
    ensures client.Real? <==> libraryImports && Present(settings.supabaseUrl) && Present(settings.supabaseKey)
    ensures client.Real? ==> client.baseUrl == settings.supabaseUrl.value && client.baseUrl != ""
  {
    if libraryImports && Present(settings.supabaseUrl) && Present(settings.supabaseKey) then
      Real(settings.supabaseUrl.value)
    else Stub
  }

  /** The storage key: the seconds, a dash and the token, then the image
      file's suffix. */
  function StorageKey(seconds: nat, token: string, imagePath: string): (key: string)
    ensures var digits := NatToString(seconds);
      && |key| == |digits| + 1 + |token| + |Suffix(imagePath)|
      && key[..|digits|] == digits && key[|digits|] == '-'
      && key[|digits| + 1..|digits| + 1 + |token|] == token
      && key[|key| - |Suffix(imagePath)|..] == Suffix(imagePath)
  {
    StampedName("", seconds, token, Suffix(imagePath))
  }

  /** The key keeps the image's extension, whatever it is (none included). */
  lemma KeyKeepsSuffix(seconds: nat, token: string, imagePath: string)
    requires IsHexToken(token)
    ensures Suffix(StorageKey(seconds, token, imagePath)) == Suffix(imagePath)
  {
    var ext := Suffix(imagePath);
    var digits := NatToString(seconds);
    var stem := digits + "-" + token;
    assert "" + digits + "-" + token + ext == stem + ext;
    assert '/' !in stem && '.' !in stem by {
      forall k | 0 <= k < |stem| ensures stem[k] != '.' && stem[k] != '/' {
        if k < |digits| { assert IsDigit(digits[k]); }
        else if k > |digits| { assert IsHexDigit(token[k - |digits| - 1]); }
      }
    }
    SuffixOfStemAndExtension(stem, ext);
  }

  /** The public address of a stored key, from the fixed path template. */
  function PublicImageUrl(baseUrl: string, key: string): (url: string)
    ensures url == baseUrl + "/storage/v1/object/public/" + Bucket + "/" + key
    ensures |url| > |key| && url[|url| - |key|..] == key
  {
    baseUrl + "/storage/v1/object/public/" + Bucket + "/" + key
  }

  /** `mime or "image/png"`: the guessed type when there is a non-empty one. */
  function ContentType(guess: Option<string>): (t: string)
    ensures t != ""
    ensures Present(guess) ==> t == guess.value
    ensures !Present(guess) ==> t == DefaultContentType
  {
    if Present(guess) then guess.value else DefaultContentType
  }

  /** The row inserted into the quotes table. */
  datatype Row = Row(quote: string, imgUrl: string)

  /** The storage and table calls made, in order. */
  datatype Call =
    | Upload(bucket: string, key: string, source: string, contentType: string)
    | Insert(table: string, row: Row)

  /** `upload_and_insert`'s result: a returned value (a url or `None`) with
      the calls made, or an exception from the named call, which propagates. */
  datatype Publication =
    | Returned(url: Option<string>, calls: seq<Call>)
    | Raised(calls: seq<Call>)

  /** `upload_and_insert(quote, image_path)` on the selected client. The stub
      returns `None` and calls nothing; the real client uploads under a fresh
      key, inserts `{quote, img_url}` and returns the public url. Failures of
      either call are not caught. */
  function UploadAndInsert(client: Client, quote: string, imagePath: string,
                           seconds: nat, token: string, guess: string -> Option<string>,
                           uploadSucceeds: bool, insertSucceeds: bool): (p: Publication)
    ensures client.Stub? ==> p == Returned(None, [])
    ensures client.Real? ==>
      var key := StorageKey(seconds, token, imagePath);
      var url := PublicImageUrl(client.baseUrl, key);
      var upload := Upload(Bucket, key, imagePath, ContentType(guess(imagePath)));
      && (!uploadSucceeds ==> p == Raised([upload]))
      && (uploadSucceeds && !insertSucceeds ==> p == Raised([upload, Insert(Table, Row(quote, url))]))
      && (uploadSucceeds && insertSucceeds ==>
            p == Returned(Some(url), [upload, Insert(Table, Row(quote, url))]))
    ensures p.Returned? && p.url.Some? ==> p.url.value != "" && client.Real?
  {
    match client
    case Stub => Returned(None, [])
    case Real(baseUrl) =>
      var key := StorageKey(seconds, token, imagePath);
      var upload := Upload(Bucket, key, imagePath, ContentType(guess(imagePath)));
      if !uploadSucceeds then Raised([upload])
      else
        var url := PublicImageUrl(baseUrl, key);
        var insert := Insert(Table, Row(quote, url));
        if !insertSucceeds then Raised([upload, insert])
        else Returned(Some(url), [upload, insert])
  }

  /** What a successful publication records: the row inserted holds the quote
      and exactly the url returned, and that url ends with a key that keeps
      the image's extension. */
  lemma PublishedRowMatchesUrl(client: Client, quote: string, imagePath: string,
                               seconds: nat, token: string, guess: string -> Option<string>,
                               uploadSucceeds: bool, insertSucceeds: bool)
    requires IsHexToken(token)
    requires client.Real? && uploadSucceeds && insertSucceeds
    ensures var p := UploadAndInsert(client, quote, imagePath, seconds, token, guess, uploadSucceeds, insertSucceeds);
      var key := StorageKey(seconds, token, imagePath);
      && p.Returned? && p.url.Some?
      && p.calls[|p.calls| - 1] == Insert(Table, Row(quote, p.url.value))
      && p.url.value[|p.url.value| - |key|..] == key
      && Suffix(key) == Suffix(imagePath)
  {
    KeyKeepsSuffix(seconds, token, imagePath);
  }
}
