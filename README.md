# fortune-app backend core in Dafny

This project models the request-handling core of the fortune-app backend, a
small HTTP worker. A client posts a name to `/fortune`. The worker does three things:

- it validates the trimmed name against a length bound and a Unicode letter pattern;
- it answers with a fixed, mocked fortune text or with a 400 error;
- it routes the few other paths of its default `fetch` handler.

The sibling prompt module builds the system and user prompts for a
text-generation call. It also finalises a generated text: it trims the text and appends
the disclaimer "Sadece eğlence amaçlıdır." unless the text already holds it,
in any letter case.

Everything in the core is pure. The model is written as datatypes, functions and
lemmas in five modules:

- `JsString` (`jsstring.dfy`): the JavaScript string built-ins the core uses.
  These are `trim` (with the exact ECMAScript whitespace set), `toLowerCase` (as a
  per-code-point mapping passed in as `lower`), `includes`, `endsWith`,
  `length` (a count of UTF-16 code units) and `Array.prototype.join`.
- `Json` (`json.dfy`): the shapes of values `JSON.parse` yields (numbers as
  mathematical reals, not IEEE doubles).
- `Wrappers` (`wrappers.dfy`): an `Option` type for optional fields and lookups.
- `NamePattern` (`namepattern.dfy`): the regular expression
  `^\p{L}+(?:[ '\-]\p{L}+)*$` as a grammar. The letter class `\p{L}` is a
  parameter `isLetter`. The grammar is proved equal to a direct
  characterisation of well-formed names.
- `Prompt` (`prompt.dfy`): `api/src/prompt.ts`.
- `Api` (`api.dfy`): `api/src/index.ts`.

The runtime's inputs become parameters:

- the request's method and URL pathname;
- the request body after `request.json()`, either a parse failure or a parsed JSON value;
- the ISO timestamp from `new Date().toISOString()`;
- the UUID from `crypto.randomUUID()`;
- the Unicode letter class and the lower-case mapping.

The general proofs about names need only one fact about `isLetter`: space, apostrophe and
hyphen are not letters, which holds in Unicode (`SeparatorsAreNotLetters`).
The worked examples (`AcceptsAyse`, `AcceptsHyphenatedName`,
`AcceptsSingleAstralLetter`, `RejectsDigits`) also assume which of their
characters are letters.

The error message speaks of 2 to 40 letters, but the code compares
`name.length`, which counts UTF-16 code units; the model follows the code. The pattern, with the `u`
flag, counts code points. The model keeps both measures: `Utf16Length` for the
bound and Dafny characters (code points) for the pattern. So a name made of one
letter outside the Basic Multilingual Plane passes the length check
(`AcceptsSingleAstralLetter`).

## Model

| member | source | states |
|---|---|---|
| JsString.IsWhitespace | api/src/prompt.ts:21 | the characters `trim` removes: the ECMAScript WhiteSpace and LineTerminator code points (tab, vertical tab, form feed, space, no-break space, the `Zs` spaces, the byte order mark, LF, CR, LS, PS) |
| JsString.TrimStart | api/src/prompt.ts:21 | the leading part of `trim`: the result is a suffix of the input, everything cut off is whitespace, and the result does not start with whitespace |
| JsString.TrimEnd | api/src/prompt.ts:21 | the trailing part of `trim`: the result is a prefix of the input, everything cut off is whitespace, and the result does not end with whitespace |
| JsString.Trim | api/src/prompt.ts:21 | the trimmed string neither starts nor ends with whitespace |
| JsString.TrimIsInfix | api/src/prompt.ts:21 | the trimmed string stands inside the input between two all-whitespace margins, starting where the leading whitespace ends |
| JsString.TrimOfMargins | api/src/prompt.ts:21 | trimming whitespace margins around a string with no edge whitespace gives back exactly that string |
| JsString.TrimOfTrimmed | api/src/prompt.ts:21 | a string with no edge whitespace is left unchanged by `trim` |
| JsString.TrimIdempotent | api/src/index.ts:48 | trimming twice equals trimming once |
| JsString.TrimEmptyIff | api/src/prompt.ts:21 | `trim` yields the empty string exactly when the input is all whitespace |
| JsString.TrimEndOfWhitespaceTail | api/src/prompt.ts:21 | the trailing half of `trim` removes exactly an all-whitespace tail after a string not ending in whitespace |
| JsString.TrimStartOfWhitespaceHead | api/src/prompt.ts:21 | the leading half of `trim` removes exactly an all-whitespace head before a string not starting with whitespace |
| JsString.LowerConcat | api/src/prompt.ts:22 | lower-casing distributes over concatenation |
| JsString.Lower | api/src/prompt.ts:22 | `toLowerCase` as the concatenation of a per-code-point mapping `lower` over the string; its law is `LowerConcat` |
| JsString.Includes | api/src/prompt.ts:22 | `includes`: the searched string occurs at some position of the text |
| JsString.IncludesInfix | api/src/prompt.ts:22 | `includes` finds a string between any two others |
| JsString.IncludesSuffix | api/src/prompt.ts:22 | `includes` finds a string at the end of another |
| JsString.IncludesLowered | api/src/prompt.ts:22 | after lower-casing, a string that ends a text is still found in the lower-cased text |
| JsString.EndsWith | api/src/prompt.ts:25 | `endsWith`: the text's last characters are the suffix |
| JsString.EndsWithAfter | api/src/prompt.ts:25 | putting anything in front of a string keeps its `endsWith` suffix |
| JsString.EndsWithConcat | api/src/prompt.ts:25 | a string ends with whatever was appended last |
| JsString.PrefixInConcat | api/src/index.ts:53-54 | a prefix of a middle piece, after a fixed first piece, is a prefix of the whole concatenation |
| JsString.Utf16Length | api/src/index.ts:13 | `length` counts between one and two UTF-16 units per code point, exactly one each when all code points are in the Basic Multilingual Plane |
| JsString.Join | api/src/prompt.ts:2-12 | `Array.prototype.join` over strings: the parts with the separator between neighbours; its law is `JoinLast` |
| JsString.JoinLast | api/src/prompt.ts:12 | `join` of two or more parts ends with the separator and the last part |
| Json.StringField | api/src/index.ts:48 | a string is read out exactly when the value is an object whose field under the key is a string, and it is that field's string |
| NamePattern.MatchesNamePattern | api/src/index.ts:15 | the anchored pattern as a grammar: a letter run, then groups of one separator and a letter run up to the end; a match is non-empty and starts with a letter |
| NamePattern.FirstSeparator | api/src/index.ts:15 | the first separator position: no separator before it, and a separator at it unless it is the end |
| NamePattern.LetterRunWellFormed | api/src/index.ts:15 | a single run of letters is a well-formed name |
| NamePattern.JoinWellFormed | api/src/index.ts:15 | two well-formed names joined by one separator form a well-formed name |
| NamePattern.DerivedWellFormed | api/src/index.ts:15 | every string of the form `\p{L}+` followed by `(?:[ '\-]\p{L}+)*` is well formed: letters at both ends, only letters and separators, no two separators side by side |
| NamePattern.WellFormedDerived | api/src/index.ts:15 | every well-formed name matches the name pattern |
| NamePattern.PatternIffWellFormed | api/src/index.ts:15 | a string matches `^\p{L}+(?:[ '\-]\p{L}+)*$` if and only if it is well formed |
| Api.CorsAllowsPostFromAnyOrigin | api/src/index.ts:6-10 | the CORS headers are exactly the three keys, allowing any origin, the methods POST and OPTIONS and the `Content-Type` header |
| Api.MergeHeaders | api/src/index.ts:21-25 | the merged headers hold exactly the content-type key, the three CORS keys and the caller's keys; a caller's entry wins, otherwise the CORS value, otherwise the helper's content type |
| Api.JsonResponse | api/src/index.ts:18-27 | a JSON response has the status of `init` (200 by default), the data as its body and the merged headers with the JSON content type |
| Api.TextResponse | api/src/index.ts:29-38 | a text response has the status of `init` (200 by default), the text as its body and the merged headers with the plain-text content type |
| Api.HeadersWithoutOverride | api/src/index.ts:18-38 | without caller headers, a helper response carries exactly the three CORS headers plus its content type |
| Api.IsValidName | api/src/index.ts:12-16 | an accepted name is 2 to 40 UTF-16 units long, hence 1 to 40 code points |
| Api.IsValidNameIff | api/src/index.ts:12-16 | a name is accepted if and only if it is 2 to 40 UTF-16 units long and well formed |
| Api.InvalidCharacters | api/src/index.ts:15 | a name with a character that is neither a letter nor a separator, or with a separator at either end, is rejected |
| Api.ErrorPayload | api/src/index.ts:45 | an error payload reads back its message from the `error` field |
| Api.FortunePayload | api/src/index.ts:58-61 | the payload's `fortuneText` field and its `meta.timestamp` field read back as the fortune text and the timestamp |
| Api.FortunePayloadRoundTrip | api/src/index.ts:58-61 | reading a fortune payload back from its JSON gives the same fortune text, `mocked` flag and timestamp |
| Api.FortuneTailEndsWithDisclaimer | api/src/index.ts:53-56 | the fixed part of the mocked fortune ends with the disclaimer |
| Api.FortuneText | api/src/index.ts:53-56 | the mocked fortune is the name followed by a tail that does not depend on the name, and it ends with the disclaimer |
| Api.FortuneOpening | api/src/index.ts:53-54 | the mocked fortune opens with the name and " isminin enerjisi" |
| Api.SubmittedName | api/src/index.ts:48 | the extracted name has no edge whitespace, and it is empty when the body has no string `name` |
| Api.AnswerName | api/src/index.ts:49-62 | for an extracted name: 200 exactly when it is valid, with the mocked fortune for it; otherwise 400 with the invalid-name message; always the JSON content type with the CORS headers |
| Api.HandleFortune | api/src/index.ts:40-63 | the status is 200 or 400 and the headers are the JSON content type with the CORS headers; a malformed body gives 400 "Invalid JSON body"; 200 is given exactly for a parsed body whose trimmed string name is valid; any other parsed body gets 400 with the invalid-name message; a 200 body is the mocked fortune for the trimmed name with `mocked` true and the given timestamp |
| Api.ServedPayloadReadsBack | api/src/index.ts:58-62 | a 200 answer comes from a parsed body and reads back as the mocked fortune for the trimmed name with `mocked` true and the given timestamp |
| Api.MissingNameRejected | api/src/index.ts:48-51 | a body without a string `name` is rejected with 400 and the invalid-name message |
| Api.SubmittedNameField | api/src/index.ts:48 | a string `name` field is taken trimmed, whatever the other fields are |
| Api.HandlerSeesOnlyName | api/src/index.ts:48-62 | two parsed bodies with the same trimmed name get the same response |
| Api.SurroundingWhitespaceIgnored | api/src/index.ts:48 | a name and its trimmed form get the same response |
| Api.NameFieldStatus | api/src/index.ts:48-49 | a body with a string name gets 200 exactly when the trimmed name is valid |
| Api.ServedFortuneIsFinal | api/src/index.ts:53-56 | the mocked fortune for an accepted name is already final: finalising it changes nothing |
| Api.FortuneTextIsFinal | api/src/index.ts:53-56 | the mocked fortune for any name with a non-whitespace first character is left unchanged by finalisation |
| Api.Fetch | api/src/index.ts:65-85 | OPTIONS gets 204 with only the CORS headers and no body, and 204 means exactly that; every other answer carries the CORS headers; only POST `/fortune` reaches the handler, and it is the only JSON answer; `/message` and `/random` answer 200 with "Hello, World!" and the UUID for any other method; everything else is 404 "Not Found"; every text answer carries exactly the plain-text content type and the CORS headers |
| Api.GetFortuneNotFound | api/src/index.ts:75-83 | GET `/fortune` falls through to 404 |
| Api.AcceptsAyse | api/src/index.ts:12-16 | "Ayşe" is a valid name |
| Api.AcceptsHyphenatedName | api/src/index.ts:12-16 | "Ali-Su" is a valid name |
| Api.RejectsSingleLetter | api/src/index.ts:13 | a single code point from the Basic Multilingual Plane is too short to be a valid name |
| Api.RejectsDigits | api/src/index.ts:15 | "John123" is rejected when digits are not letters |
| Api.AcceptsSingleAstralLetter | api/src/index.ts:13-15 | one letter outside the Basic Multilingual Plane is two UTF-16 units long and is accepted |
| Prompt.BuildSystemPrompt | api/src/prompt.ts:1-13 | the nine lines joined by newlines end with the line asking for the disclaimer |
| Prompt.SystemPromptNamesDisclaimer | api/src/prompt.ts:11 | the system prompt contains the exact disclaimer that finalisation appends |
| Prompt.BuildUserPrompt | api/src/prompt.ts:15-17 | the user prompt has the fixed head "İsim: ", the fixed tail with the newline and the instruction, and the name verbatim between them |
| Prompt.UserPromptInjective | api/src/prompt.ts:15-17 | different names give different user prompts |
| Prompt.PeriodIfMissing | api/src/prompt.ts:25 | the suffix is empty exactly when the text ends with a period, and "." otherwise |
| Prompt.DisclaimerEndsWithPeriod | api/src/prompt.ts:20 | the disclaimer ends with a period |
| Prompt.FinalizeFortuneText | api/src/prompt.ts:19-27 | the result has no edge whitespace, starts with the trimmed input and contains the disclaimer in lower case; it is the trimmed input when that already contains the disclaimer in lower case, and otherwise the trimmed input, a period if missing, a space and the disclaimer |
| Prompt.AppendedEdges | api/src/prompt.ts:25-26 | the appended text has no edge whitespace and starts with the trimmed input |
| Prompt.AppendedIsTrimmed | api/src/prompt.ts:26 | the closing `trim` does not change the appended text, and the lower-cased appended text contains the lower-cased disclaimer |
| Prompt.FinalizeIdempotent | api/src/prompt.ts:19-27 | finalising twice equals finalising once |
| Prompt.FinalizeKeepsDisclaimed | api/src/prompt.ts:22-24 | a text that starts with a non-whitespace character and ends with the disclaimer is already final |
| Prompt.FinalizeWhitespaceOnly | api/src/prompt.ts:21-26 | an empty or whitespace-only text becomes exactly ". Sadece eğlence amaçlıdır." |
| Prompt.PeriodThenDisclaimer | api/src/prompt.ts:25-26 | the text, an optional period and a space before the disclaimer always end in ". " followed by the disclaimer |
| Prompt.FinalizePeriodBeforeDisclaimer | api/src/prompt.ts:25-26 | when the disclaimer is appended, the result ends with ". " and the disclaimer |

## Left out

- Strings are sequences of Unicode code points (Dafny characters are scalar values), so JavaScript strings holding unpaired UTF-16 surrogates, which `JSON.parse` can produce from `\ud800` escapes, are not modelled; the source rejects such names anyway, since a lone surrogate is not a letter.
- JSON numbers are mathematical reals, not IEEE doubles; no number reaches a decision of the core.
- The letter class `\p{L}` and `toLowerCase` are parameters, not Unicode tables. `toLowerCase` is modelled per code point, so context-dependent mappings (the final-sigma rule) are not captured.
- `FinalizeWhitespaceOnly` assumes the lower-case mapping never turns a character into nothing, which is true of `toLowerCase`.
- `JSON.parse`, `JSON.stringify`, `Request`, `URL` and `Response` are runtime objects and are not modelled. The body arrives already parsed, the method and pathname as strings, and a response is a record of status, header map and body value.
- A response's headers are the plain object built by the spread. `Headers` normalisation (case-insensitive names, `Headers` or array values passed as `init.headers`) is not modelled.
- Response options other than `status` and `headers` pass through `...init` and are not modelled. So is the check `new Response` makes on the status code.
- The clock and `crypto.randomUUID()` are inputs.
- `buildSystemPrompt`: the model proves that the prompt ends with the disclaimer line and contains the disclaimer. It does not prove that splitting the prompt on newlines gives back the nine lines.
- The mobile client (`mobile/`) is a user interface and network client outside the backend core.
- The worker has no live text-generation call, mock-mode flag or health route, so none is modelled.
