/** The generation client: turning the reader's data URL into the inline media
    part, and turning the provider's answer into the list of variations or an
    error. The provider call, the file reader and `JSON.parse` are parameters. */
module GeminiService {
  import opened Wrappers
  import opened AdTypes
  import Text

  /** The inline media part of the request. `data` is `None` where
      `split(',')[1]` is `undefined`, that is when the reader's string holds
      no comma. */
  datatype MediaPart = MediaPart(mimeType: string, data: Option<string>)

  /** The declared response schema: an array of objects whose properties are
      all strings. */
  datatype Schema =
    | StringValue
    | ObjectOfStrings(properties: seq<string>, required: seq<string>)
    | ArrayOf(items: Schema)

  /** The schema sent with every request: every variation must carry all five
      string fields. */
  const ResponseSchema: Schema :=
    ArrayOf(ObjectOfStrings(
      ["tone", "headline", "description", "primaryTextParagraph", "primaryTextBullets"],
      ["tone", "headline", "description", "primaryTextParagraph", "primaryTextBullets"]))

  /** The five tones the prompt asks the model to write in, in its order.
      The rest of the prompt text is left out. */
  const PromptTones: seq<string> :=
    ["Direct Response", "Problem-Solution", "Storytelling", "Social Proof/Trust", "Urgency/FOMO"]

  /** What the client hands to the provider; the model name and the prompt
      text are fixed and left out. */
  datatype Request = Request(media: MediaPart, schema: Schema)

  /** Why a generation failed. Each is the error the call path raised,
      passed on to the caller unchanged. */
  datatype Failure =
    | ClientFailed(reason: string)  // building the client threw
    | ReadFailed                    // the reader's `onerror` rejected
    | RequestFailed(reason: string) // the provider call threw
    | EmptyResponse                 // the response text was missing or empty
    | MalformedJson                 // `JSON.parse` threw

  /** `dataUrl.split(',')[1]`: the piece between the first and the second
      comma, or up to the end when there is only one. */
  function Base64Data(dataUrl: string): (d: Option<string>)
    ensures d.Some? <==> ',' in dataUrl
    ensures d.Some? ==> ',' !in d.value
  {
    var parts := Text.Split(dataUrl, ',');
    if |parts| > 1 then Some(parts[1]) else None
  }

  /** A data URL of the base64 form of section 3 of RFC 2397, as the file
      reader produces it. */
  function DataUrl(mediaType: string, payload: string): string
  {
    "data:" + mediaType + ";base64," + payload
  }

  /** The characters of the base64 alphabet of section 4 of RFC 4648, padding
      included. */
  predicate IsBase64Char(c: char)
  {
    ('A' <= c <= 'Z') || ('a' <= c <= 'z') || ('0' <= c <= '9') || c == '+' || c == '/' || c == '='
  }

  predicate IsBase64Text(s: string)
  {
    forall i :: 0 <= i < |s| ==> IsBase64Char(s[i])
  }

  /** The string step of `fileToGenerativePart`, after the reader has produced
      `readerText`: the MIME type is the file's own, whatever the data URL says. */
  function FileToGenerativePart(file: File, readerText: string): (p: MediaPart)
    ensures p.mimeType == file.mimeType
    ensures p.data.Some? <==> ',' in readerText
    ensures p.data.Some? ==> ',' !in p.data.value
  {
    MediaPart(file.mimeType, Base64Data(readerText))
  }

  /** For `prefix,payload` with no comma in either part, the extracted data is
      exactly the payload. */
  lemma ExtractsPayload(prefix: string, payload: string)
    requires ',' !in prefix && ',' !in payload
    ensures Base64Data(prefix + [','] + payload) == Some(payload)
  {
    assert Text.Join([prefix, payload], ',') == prefix + [','] + payload;
    Text.SplitJoin([prefix, payload], ',');
  }

  /** The reader's data URL of a comma-free media type and a base64 payload
      yields back the payload, tagged with the file's own MIME type. */
  lemma ReaderResultRoundTrip(file: File, mediaType: string, payload: string)
    requires ',' !in mediaType
    requires IsBase64Text(payload)
    ensures FileToGenerativePart(file, DataUrl(mediaType, payload)) == MediaPart(file.mimeType, Some(payload))
  {
    var prefix := "data:" + mediaType + ";base64";
    assert ',' !in prefix by {
      forall i | 0 <= i < |prefix|
        ensures prefix[i] != ','
      {
        if 5 <= i < 5 + |mediaType| {
          assert prefix[i] == mediaType[i - 5];
        }
      }
    }
    assert ',' !in payload by {
      forall i | 0 <= i < |payload|
        ensures payload[i] != ','
      {
        assert IsBase64Char(payload[i]);
      }
    }
    assert DataUrl(mediaType, payload) == prefix + [','] + payload;
    ExtractsPayload(prefix, payload);
  }

  /** The request built from the file and the reader's string. */
  function RequestFor(file: File, readerText: string): Request
  {
    Request(FileToGenerativePart(file, readerText), ResponseSchema)
  }

  /** JavaScript truthiness of the response text: `undefined` and "" are falsy. */
  predicate IsFalsy(text: Option<string>)
  {
    text.None? || text.value == ""
  }

  /** `generateAdCopy`: build the client, read the file, call the provider,
      reject an empty text, parse it and return the parsed list as it is.
      `clientError` is the exception building the client raised, if any (the
      client is built before the file is read); `readerResult` is the
      reader's outcome (`None` for `onerror`), `generateContent` the provider
      (its `Ok` carries `response.text`) and `parse` stands for `JSON.parse`
      (`None` when it throws). */
  function GenerateAdCopy(
    file: File,
    clientError: Option<string>,
    readerResult: Option<string>,
    generateContent: Request -> Result<Option<string>, string>,
    parse: string -> Option<seq<AdCopy>>): (r: Result<seq<AdCopy>, Failure>)
    ensures clientError.Some? ==> r == Err(ClientFailed(clientError.value))
    ensures clientError.None? && readerResult.None? ==> r == Err(ReadFailed)
    ensures clientError.None? && readerResult.Some? && generateContent(RequestFor(file, readerResult.value)).Err? ==>
              r == Err(RequestFailed(generateContent(RequestFor(file, readerResult.value)).error))
    ensures clientError.None? && readerResult.Some? && generateContent(RequestFor(file, readerResult.value)).Ok? &&
            IsFalsy(generateContent(RequestFor(file, readerResult.value)).value) ==>
              r == Err(EmptyResponse)
    ensures r.Ok? <==>
              && clientError.None?
              && readerResult.Some?
              && generateContent(RequestFor(file, readerResult.value)).Ok?
              && !IsFalsy(generateContent(RequestFor(file, readerResult.value)).value)
              && parse(generateContent(RequestFor(file, readerResult.value)).value.value).Some?
    ensures r.Ok? ==> Some(r.value) == parse(generateContent(RequestFor(file, readerResult.value)).value.value)
    ensures clientError.None? && readerResult.Some? && generateContent(RequestFor(file, readerResult.value)).Ok? &&
            !IsFalsy(generateContent(RequestFor(file, readerResult.value)).value) &&
            parse(generateContent(RequestFor(file, readerResult.value)).value.value).None? ==>
              r == Err(MalformedJson)
    ensures r == Err(MalformedJson) ==>
              parse(generateContent(RequestFor(file, readerResult.value)).value.value).None?
  {
    if clientError.Some? then Err(ClientFailed(clientError.value))
    else
      match readerResult
      case None => Err(ReadFailed)
      case Some(readerText) =>
        match generateContent(RequestFor(file, readerText))
        case Err(reason) => Err(RequestFailed(reason))
        case Ok(text) =>
          if IsFalsy(text) then Err(EmptyResponse)
          else
            match parse(text.value)
            case None => Err(MalformedJson)
            case Some(ads) => Ok(ads)
  }

  /** An empty or missing response text is always an error, never an empty
      list of variations: the empty-response error once the client was
      built. */
  lemma EmptyTextIsNeverAResult(
    file: File,
    clientError: Option<string>,
    readerResult: Option<string>,
    generateContent: Request -> Result<Option<string>, string>,
    parse: string -> Option<seq<AdCopy>>)
    requires readerResult.Some?
    requires generateContent(RequestFor(file, readerResult.value)) in {Ok(None), Ok(Some(""))}
    ensures GenerateAdCopy(file, clientError, readerResult, generateContent, parse).Err?
    ensures clientError.None? ==> GenerateAdCopy(file, clientError, readerResult, generateContent, parse) == Err(EmptyResponse)
  {
  }

  /** The required-field list of the schema and its property list both name
      exactly the five fields of `AdCopy`, each once. */
  lemma SchemaNamesEveryField(ad: AdCopy, name: string)
    ensures ResponseSchema.items.ObjectOfStrings?
    ensures |ResponseSchema.items.required| == |FieldNames|
    ensures name in ResponseSchema.items.required <==> FieldValue(ad, name).Some?
    ensures name in ResponseSchema.items.properties <==> FieldValue(ad, name).Some?
  {
  }
}
