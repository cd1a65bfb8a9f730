/** The fortune service's request handling (api/src/index.ts): name
    validation, the response helpers with their header merge, the `/fortune`
    handler and the routing table of the default `fetch` handler.

    What the runtime supplies is taken as input: the request's method, its
    URL's pathname and its body already run through `JSON.parse`; the
    current time as an ISO string; a fresh UUID for `/random`; and the
    letter class `\p{L}` as `isLetter`. */
module Api {
  import opened JsString
  import opened NamePattern
  import Json
  import opened Wrappers
  import Prompt

  // ---------------------------------------------------------------- headers

  const JsonContentType: string := "application/json; charset=utf-8"
  const TextContentType: string := "text/plain; charset=utf-8"

  const CorsHeaders: map<string, string> := map[
    "Access-Control-Allow-Origin" := "*",
    "Access-Control-Allow-Methods" := "POST, OPTIONS",
    "Access-Control-Allow-Headers" := "Content-Type"
  ]

  /** The preflight answer allows any origin, the methods POST and OPTIONS
      and the `Content-Type` request header, and nothing else. */
  lemma CorsAllowsPostFromAnyOrigin()
    ensures CorsHeaders.Keys == {"Access-Control-Allow-Origin", "Access-Control-Allow-Methods", "Access-Control-Allow-Headers"}
    ensures CorsHeaders["Access-Control-Allow-Origin"] == "*"
    ensures CorsHeaders["Access-Control-Allow-Methods"] == "POST, OPTIONS"
    ensures CorsHeaders["Access-Control-Allow-Headers"] == "Content-Type"
  {
  }

  // ---------------------------------------------------------------- requests and responses

  /** What `request.json()` gives: a parse failure or a parsed value. */
  datatype RequestBody = Malformed | Parsed(value: Json.Value)

  datatype Request = Request(httpMethod: string, pathname: string, body: RequestBody)

  /** The body handed to `new Response`: `null`, a text, or a value to `JSON.stringify`. */
  datatype ResponseBody = NoBody | Text(text: string) | JsonText(data: Json.Value)

  datatype Response = Response(status: int, headers: map<string, string>, body: ResponseBody)

  /** The `init` argument of the helpers; both of its members are optional. */
  datatype ResponseInit = ResponseInit(status: Option<int>, headers: Option<map<string, string>>)

  const NoInit: ResponseInit := ResponseInit(None, None)

  function WithStatus(status: int): ResponseInit {
    ResponseInit(Some(status), None)
  }

  /** `init?.headers || {}` */
  function CallerHeaders(init: ResponseInit): map<string, string> {
    match init.headers
    case Some(h) => h
    case None => map[]
  }

  /** The status `new Response` takes from `init`, 200 by default. */
  function StatusOf(init: ResponseInit): int {
    match init.status
    case Some(s) => s
    case None => 200
  }

  /** The headers a helper response must carry: the content type, the three
      CORS headers and the caller's headers, a caller's entry winning over
      the others under the same key. */
  ghost predicate CarriesHeaders(h: map<string, string>, contentType: string, caller: map<string, string>) {
    && h.Keys == {"content-type"} + CorsHeaders.Keys + caller.Keys
    && (forall k | k in caller :: h[k] == caller[k])
    && (forall k | k in CorsHeaders && k !in caller :: h[k] == CorsHeaders[k])
    && ("content-type" !in caller ==> h["content-type"] == contentType)
  }

  /** `{'content-type': ..., ...CORS_HEADERS, ...(init?.headers || {})}`: later spreads win. */
  function MergeHeaders(contentType: string, init: ResponseInit): (h: map<string, string>)
    ensures CarriesHeaders(h, contentType, CallerHeaders(init))
  {
    map["content-type" := contentType] + CorsHeaders + CallerHeaders(init)
  }

  function JsonResponse(data: Json.Value, init: ResponseInit): (r: Response)
    ensures r.status == StatusOf(init) && r.body == JsonText(data)
    ensures CarriesHeaders(r.headers, JsonContentType, CallerHeaders(init))
  {
    Response(StatusOf(init), MergeHeaders(JsonContentType, init), JsonText(data))
  }

  function TextResponse(text: string, init: ResponseInit): (r: Response)
    ensures r.status == StatusOf(init) && r.body == Text(text)
    ensures CarriesHeaders(r.headers, TextContentType, CallerHeaders(init))
  {
    Response(StatusOf(init), MergeHeaders(TextContentType, init), Text(text))
  }

  /** Without caller headers, a helper response has exactly the content type and the CORS headers. */
  lemma HeadersWithoutOverride(contentType: string, init: ResponseInit)
    requires CallerHeaders(init) == map[]
    ensures MergeHeaders(contentType, init) == CorsHeaders["content-type" := contentType]
  {
    var h := MergeHeaders(contentType, init);
    var expected := CorsHeaders["content-type" := contentType];
    assert h.Keys == expected.Keys;
    forall k | k in h ensures h[k] == expected[k] {
      if k != "content-type" {
        assert k in CorsHeaders;
      }
    }
  }

  // ---------------------------------------------------------------- validation

  /** `isValidName`: a length of 2 to 40 UTF-16 code units and a match of the name pattern. */
  function IsValidName(isLetter: char -> bool, name: string): (ok: bool)
    ensures ok ==> 2 <= Utf16Length(name) <= 40
    ensures ok ==> 1 <= |name| <= 40
  {
    if Utf16Length(name) < 2 || Utf16Length(name) > 40 then false
    else MatchesNamePattern(isLetter, name)
  }

  /** Acceptance stated directly: the length bound plus the well-formedness of the name. */
  lemma IsValidNameIff(isLetter: char -> bool, name: string)
    requires SeparatorsAreNotLetters(isLetter)
    ensures IsValidName(isLetter, name) <==> 2 <= Utf16Length(name) <= 40 && WellFormedName(isLetter, name)
  {
    PatternIffWellFormed(isLetter, name);
  }

  /** A leading or trailing separator, or a character that is neither a
      letter nor a separator (a digit, say), makes a name invalid. */
  lemma InvalidCharacters(isLetter: char -> bool, name: string, i: nat)
    requires SeparatorsAreNotLetters(isLetter)
    requires i < |name|
    requires (!isLetter(name[i]) && !IsSeparator(name[i])) || (IsSeparator(name[i]) && (i == 0 || i == |name| - 1))
    ensures !IsValidName(isLetter, name)
  {
    IsValidNameIff(isLetter, name);
  }

  // ---------------------------------------------------------------- the /fortune handler

  const InvalidBodyMessage: string := "Invalid JSON body"
  const InvalidNameMessage: string := "Invalid name. Use 2–40 letters and spaces only."

  datatype Meta = Meta(mocked: bool, timestamp: string)

  datatype FortuneResponse = FortuneResponse(fortuneText: string, meta: Meta)

  /** `{ error: message }`: a client reads the message back from its `error` field. */
  function ErrorPayload(message: string): (v: Json.Value)
    ensures Json.StringField(v, "error") == Some(message)
  {
    Json.Obj(map["error" := Json.Str(message)])
  }

  /** The `FortuneResponse` object as JSON: `fortuneText` and a `meta` object with `mocked` and `timestamp`. */
  function FortunePayload(f: FortuneResponse): (v: Json.Value)
    ensures Json.StringField(v, "fortuneText") == Some(f.fortuneText)
    ensures v.Obj? && "meta" in v.fields && Json.StringField(v.fields["meta"], "timestamp") == Some(f.meta.timestamp)
  {
    Json.Obj(map[
      "fortuneText" := Json.Str(f.fortuneText),
      "meta" := Json.Obj(map["mocked" := Json.Bool(f.meta.mocked), "timestamp" := Json.Str(f.meta.timestamp)])
    ])
  }

  /** How a client reads a fortune response back from its JSON payload. */
  function ReadFortunePayload(v: Json.Value): Option<FortuneResponse> {
    match Json.StringField(v, "fortuneText")
    case None => None
    case Some(text) =>
      if "meta" in v.fields && v.fields["meta"].Obj? && "mocked" in v.fields["meta"].fields
         && v.fields["meta"].fields["mocked"].Bool? then
        match Json.StringField(v.fields["meta"], "timestamp")
        case None => None
        case Some(ts) => Some(FortuneResponse(text, Meta(v.fields["meta"].fields["mocked"].b, ts)))
      else None
  }

  lemma FortunePayloadRoundTrip(f: FortuneResponse)
    ensures ReadFortunePayload(FortunePayload(f)) == Some(f)
  {
  }

  const FortuneAfterName: string := " isminin enerjisi bugün parlak ve davetkâr. "
  const FortuneBody: string :=
    "Yeni başlangıçlara açık ol, küçük bir adım bile büyük fırsatlara dönüşebilir. "
    + "Kendine nazik ol ve sezgilerini takip et. "

  const FortuneClosing: string := FortuneBody + Prompt.Disclaimer

  /** Everything of the mocked fortune after the name. */
  const FortuneTail: string := FortuneAfterName + FortuneClosing

  lemma FortuneTailEndsWithDisclaimer()
    ensures EndsWith(FortuneTail, Prompt.Disclaimer)
  {
    EndsWithConcat(FortuneBody, Prompt.Disclaimer);
    EndsWithAfter(FortuneAfterName, FortuneClosing, Prompt.Disclaimer);
  }

  /** The fixed template: the name, then a tail that does not depend on the
      name and ends with the disclaimer. */
  function FortuneText(name: string): (text: string)
    ensures name <= text && text[|name|..] == FortuneTail
    ensures EndsWith(text, Prompt.Disclaimer)
  {
    FortuneTailEndsWithDisclaimer();
    EndsWithAfter(name, FortuneTail, Prompt.Disclaimer);
    name + FortuneTail
  }

  /** The name `handleFortune` validates: `body.name` trimmed if it is a string, '' otherwise. */
  function SubmittedName(body: Json.Value): (name: string)
    ensures NoEdgeWhitespace(name)
    ensures Json.StringField(body, "name").None? ==> name == ""
  {
    match Json.StringField(body, "name")
    case Some(s) => Trim(s)
    case None => ""
  }

  /** `handleFortune`: a malformed body, then an invalid name, are answered
      with 400; a valid name with 200 and the templated, mocked fortune. */
  function HandleFortune(isLetter: char -> bool, body: RequestBody, timestamp: string): (r: Response)
    ensures r.status == 200 || r.status == 400
    ensures CarriesHeaders(r.headers, JsonContentType, map[])
    ensures body.Malformed? ==> r.status == 400 && r.body == JsonText(ErrorPayload(InvalidBodyMessage))
    ensures r.status == 200 <==> body.Parsed? && IsValidName(isLetter, SubmittedName(body.value))
    ensures r.status == 400 && body.Parsed? ==> r.body == JsonText(ErrorPayload(InvalidNameMessage))
    ensures r.status == 200 ==>
      r.body == JsonText(FortunePayload(FortuneResponse(FortuneText(SubmittedName(body.value)), Meta(true, timestamp))))
  {
    match body
    case Malformed => JsonResponse(ErrorPayload(InvalidBodyMessage), WithStatus(400))
    case Parsed(value) => AnswerName(isLetter, SubmittedName(value), timestamp)
  }

  /** The part of `handleFortune` after the name is extracted: an invalid
      name gets 400 with the invalid-name message, a valid one 200 with the
      mocked fortune; either way as JSON with the CORS headers. */
  function AnswerName(isLetter: char -> bool, name: string, timestamp: string): (r: Response)
    ensures CarriesHeaders(r.headers, JsonContentType, map[])
    ensures r.status == 200 <==> IsValidName(isLetter, name)
    ensures !IsValidName(isLetter, name) ==> r.status == 400 && r.body == JsonText(ErrorPayload(InvalidNameMessage))
    ensures IsValidName(isLetter, name) ==>
      r.body == JsonText(FortunePayload(FortuneResponse(FortuneText(name), Meta(true, timestamp))))
  {
    if !IsValidName(isLetter, name) then
      JsonResponse(ErrorPayload(InvalidNameMessage), WithStatus(400))
    else
      JsonResponse(FortunePayload(FortuneResponse(FortuneText(name), Meta(true, timestamp))), WithStatus(200))
  }

  /** A client reading a 200 response back finds the mocked fortune for the
      trimmed name and the timestamp passed in. */
  lemma ServedPayloadReadsBack(isLetter: char -> bool, body: RequestBody, timestamp: string)
    requires HandleFortune(isLetter, body, timestamp).status == 200
    ensures body.Parsed?
    ensures var r := HandleFortune(isLetter, body, timestamp);
      r.body.JsonText? && ReadFortunePayload(r.body.data)
        == Some(FortuneResponse(FortuneText(SubmittedName(body.value)), Meta(true, timestamp)))
  {
    FortunePayloadRoundTrip(FortuneResponse(FortuneText(SubmittedName(body.value)), Meta(true, timestamp)));
  }

  /** A missing or non-string `name` counts as '' and is rejected as an invalid name. */
  lemma MissingNameRejected(isLetter: char -> bool, value: Json.Value, timestamp: string)
    requires Json.StringField(value, "name").None?
    ensures HandleFortune(isLetter, Parsed(value), timestamp).status == 400
    ensures HandleFortune(isLetter, Parsed(value), timestamp).body == JsonText(ErrorPayload(InvalidNameMessage))
  {
  }

  /** A `name` field holding a string is what `handleFortune` reads, trimmed. */
  lemma SubmittedNameField(fields: map<string, Json.Value>, name: string)
    ensures SubmittedName(Json.Obj(fields["name" := Json.Str(name)])) == Trim(name)
  {
  }

  /** The handler looks at a parsed body only through the name it extracts. */
  lemma HandlerSeesOnlyName(isLetter: char -> bool, a: Json.Value, b: Json.Value, timestamp: string)
    requires SubmittedName(a) == SubmittedName(b)
    ensures HandleFortune(isLetter, Parsed(a), timestamp) == HandleFortune(isLetter, Parsed(b), timestamp)
  {
  }

  /** Whitespace around the submitted name changes nothing: the response
      for `name` and for its trimmed form are the same. */
  lemma SurroundingWhitespaceIgnored(isLetter: char -> bool, fields: map<string, Json.Value>, name: string, timestamp: string)
    ensures HandleFortune(isLetter, Parsed(Json.Obj(fields["name" := Json.Str(name)])), timestamp)
         == HandleFortune(isLetter, Parsed(Json.Obj(fields["name" := Json.Str(Trim(name))])), timestamp)
  {
    SubmittedNameField(fields, name);
    SubmittedNameField(fields, Trim(name));
    TrimIdempotent(name);
    HandlerSeesOnlyName(isLetter, Json.Obj(fields["name" := Json.Str(name)]), Json.Obj(fields["name" := Json.Str(Trim(name))]), timestamp);
  }

  /** A body whose `name` field is a string is answered with 200 exactly
      when that string, trimmed, is a valid name. */
  lemma NameFieldStatus(isLetter: char -> bool, fields: map<string, Json.Value>, name: string, timestamp: string)
    ensures HandleFortune(isLetter, Parsed(Json.Obj(fields["name" := Json.Str(name)])), timestamp).status == 200
        <==> IsValidName(isLetter, Trim(name))
  {
    SubmittedNameField(fields, name);
  }

  /** A fortune served with status 200 is already final: finalising it (with
      any lower-casing) gives it back unchanged. */
  lemma ServedFortuneIsFinal(isLetter: char -> bool, lower: char -> string, value: Json.Value)
    requires IsValidName(isLetter, SubmittedName(value))
    ensures var text := FortuneText(SubmittedName(value));
      Prompt.FinalizeFortuneText(lower, text) == text
  {
    FortuneTextIsFinal(lower, SubmittedName(value));
  }

  lemma FortuneTextIsFinal(lower: char -> string, name: string)
    requires name != [] && !IsWhitespace(name[0])
    ensures Prompt.FinalizeFortuneText(lower, FortuneText(name)) == FortuneText(name)
  {
    var head := name + (FortuneAfterName + FortuneBody);
    ConcatRegroup(name, FortuneAfterName, FortuneBody, Prompt.Disclaimer);
    assert head[0] == name[0];
    Prompt.FinalizeKeepsDisclaimed(lower, head);
  }

  // ---------------------------------------------------------------- routing

  const NotFound: string := "Not Found"
  const HelloWorld: string := "Hello, World!"

  /** The default `fetch` handler: the first matching rule answers. */
  function Fetch(isLetter: char -> bool, request: Request, uuid: string, timestamp: string): (r: Response)
    ensures request.httpMethod == "OPTIONS" ==> r == Response(204, CorsHeaders, NoBody)
    ensures r.status == 204 <==> request.httpMethod == "OPTIONS"
    ensures request.httpMethod != "OPTIONS" ==> CorsHeaders.Items <= r.headers.Items
    ensures r.body.JsonText? <==> request.httpMethod == "POST" && request.pathname == "/fortune"
    ensures request.httpMethod == "POST" && request.pathname == "/fortune" ==> r == HandleFortune(isLetter, request.body, timestamp)
    ensures r.status == 404 <==>
      request.httpMethod != "OPTIONS" && !(request.httpMethod == "POST" && request.pathname == "/fortune")
      && request.pathname != "/message" && request.pathname != "/random"
    ensures r.status == 404 ==> r.body == Text(NotFound)
    ensures r.body.Text? ==> CarriesHeaders(r.headers, TextContentType, map[])
    ensures request.httpMethod != "OPTIONS" && !(request.httpMethod == "POST" && request.pathname == "/fortune") ==>
      (request.pathname == "/message" ==> r.status == 200 && r.body == Text(HelloWorld))
      && (request.pathname == "/random" ==> r.status == 200 && r.body == Text(uuid))
  {
    if request.httpMethod == "OPTIONS" then Response(204, CorsHeaders, NoBody)
    else if request.httpMethod == "POST" && request.pathname == "/fortune" then HandleFortune(isLetter, request.body, timestamp)
    else if request.pathname == "/message" then TextResponse(HelloWorld, NoInit)
    else if request.pathname == "/random" then TextResponse(uuid, NoInit)
    else TextResponse(NotFound, WithStatus(404))
  }

  /** GET on /fortune is not routed to the handler and falls through to 404. */
  lemma GetFortuneNotFound(isLetter: char -> bool, body: RequestBody, uuid: string, timestamp: string)
    ensures Fetch(isLetter, Request("GET", "/fortune", body), uuid, timestamp).status == 404
  {
  }

  // ---------------------------------------------------------------- scenarios

  /** "Ayşe" is a valid name. */
  lemma AcceptsAyse(isLetter: char -> bool)
    requires isLetter('A') && isLetter('y') && isLetter('ş') && isLetter('e')
    ensures IsValidName(isLetter, "Ayşe")
  {
    var name := "Ayşe";
    assert LetterRun(isLetter, name[..4]) && SeparatedRuns(isLetter, name[4..]) by {
      assert name[..4] == name;
    }
    assert Utf16Length(name) == 4;
  }

  /** "Ali-Su" is a valid name: a hyphen may join two letter runs. */
  lemma AcceptsHyphenatedName(isLetter: char -> bool)
    requires SeparatorsAreNotLetters(isLetter)
    requires isLetter('A') && isLetter('l') && isLetter('i') && isLetter('S') && isLetter('u')
    ensures IsValidName(isLetter, "Ali-Su")
  {
    var name := "Ali-Su";
    assert LetterRun(isLetter, "Ali") && LetterRun(isLetter, "Su");
    LetterRunWellFormed(isLetter, "Ali");
    LetterRunWellFormed(isLetter, "Su");
    JoinWellFormed(isLetter, "Ali", '-', "Su");
    assert "Ali" + ['-'] + "Su" == name;
    IsValidNameIff(isLetter, name);
    assert Utf16Length(name) == 6;
  }

  /** The mocked fortune for a name opens with the name and " isminin
      enerjisi" ("Ayşe isminin enerjisi ..." for "Ayşe"). */
  lemma FortuneOpening(name: string)
    ensures name + " isminin enerjisi" <= FortuneText(name)
  {
    var opening := " isminin enerjisi";
    assert opening <= FortuneAfterName;
    PrefixInConcat(name, opening, FortuneAfterName, FortuneClosing);
  }

  /** A one-letter name is too short. */
  lemma RejectsSingleLetter(isLetter: char -> bool, c: char)
    requires c as int < 0x1_0000
    ensures !IsValidName(isLetter, [c])
  {
  }

  /** Digits are rejected when they are not letters. */
  lemma RejectsDigits(isLetter: char -> bool)
    requires SeparatorsAreNotLetters(isLetter) && !isLetter('1')
    ensures !IsValidName(isLetter, "John123")
  {
    InvalidCharacters(isLetter, "John123", 4);
  }

  /** One code point outside the Basic Multilingual Plane is two UTF-16
      units long, so a one-letter name made of it passes the length check. */
  lemma AcceptsSingleAstralLetter(isLetter: char -> bool)
    requires isLetter('\U{1D49C}')
    ensures IsValidName(isLetter, "\U{1D49C}")
  {
    var name := "\U{1D49C}";
    assert LetterRun(isLetter, name[..1]) && SeparatedRuns(isLetter, name[1..]);
  }
}
