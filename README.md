# Share links and the AI proxy of server.js

The Express server behind the site answers three small JSON endpoints. This
project models them as pure functions:

- `POST /api/social` turns a `platform`, a `text` and a `url` into a share link.
  The platform is matched case-insensitively, `fb` and `ig` are aliases, and the
  text and url are passed through `encodeURIComponent` before they go into the
  Facebook, Twitter or TikTok template. Instagram always gets its home page. An
  unrecognised platform gets the raw url back, or `""` when there is none. A
  missing or empty platform is refused with 400 "Missing platform".
- `POST /api/ai` refuses a missing or empty prompt with 400 "Missing prompt".
  Otherwise `callAI` picks OpenAI when its key is set, then Groq, and otherwise
  answers "AI key not configured.". It sends one user message, capped at 500
  tokens, to the caller's model or the provider's default (`gpt-4o-mini`,
  `gemma2-9b-it`). The reply is `choices[0].message.content`, or "No reply"
  when the response has none. A thrown error becomes 500 "AI Error" with the
  error's message as detail.
- `GET /api/quote` picks one of five fixed quotes with a random number in [0, 1).

Modules:

- `Wrappers` holds the `Option` datatype the other modules share.
- `JsValues` models a JSON body field that may be absent (`Field`), JavaScript
  truthiness on it, and `||` with a fallback.
- `UriComponent` models `encodeURIComponent` as section 19.2.6 of ECMA-262
  defines it: unreserved characters are kept, and every other character is
  UTF-8 encoded with each octet written as `%XX` in upper-case hex. Its inverse
  is the decoder: percent-decoding (section 2.1 of RFC 3986) followed by UTF-8
  decoding (RFC 3629). The module proves that decoding an encoding gives back
  the input, that the output uses only unreserved characters, `%` and hex
  digits, and so that no `&`, `=`, `?` or `#` can appear in it.
- `UrlQuery` reads the query of a URL back, the way the platform receiving a
  share link does. It proves that a query built from plain names and encoded
  values reads back as exactly those names and values.
- `SocialShare` models the share handler. It proves each template equation, and
  that each link's query reads back as the caller's own text and url under the
  intended parameter names.
- `AiProxy` models `callAI` up to the network call, and the `/api/ai` handler.
  How the provider call ends is an input (`Outcome`).
- `Quotes` models the quote pick.

## Model

| member | source | states |
|---|---|---|
| JsValues.Truthy | server.js:105 | `!x` on a body field: `undefined`, `null` and `""` are falsy, every other string is truthy. Used by `Share` and `HandleAi`, whose contracts state the refusals. |
| JsValues.Or | server.js:135-136 | Defaulting `text` and `url` to `""` keeps the caller's string whenever there is one, the empty string included, and gives `""` only for an absent field; in general the result is the field's own string when it is truthy, and otherwise the fallback. |
| SocialShare.Share | server.js:129-133 | The answer is 400 "Missing platform" exactly when the platform is absent or empty; otherwise it is a link. |
| SocialShare.LowerChar | server.js:140 | `toLowerCase` on one character: the result is never an ASCII capital, it is an ASCII lower-case letter exactly when the input is an ASCII letter or the KELVIN SIGN, and ASCII stays ASCII. |
| SocialShare.Lower | server.js:140 | `Lower` keeps the length of the platform; `LowerIdempotent`, `LowerKeepsLowerCase` and `LowerOfCasing` state the rest. |
| SocialShare.LowerKeepsLowerCase | server.js:140 | A name of ASCII lower-case letters is its own lower case. |
| SocialShare.LowerOfCasing | server.js:140 | Every spelling of a lower-case name, each letter in either case, lower-cases to that name. |
| SocialShare.Arm | server.js:140-155 | The switch's case labels: only a name of at least two ASCII lower-case letters selects an arm; `NamedArm`, the alias lemmas and the link lemmas state which. |
| SocialShare.CasingExamples | server.js:140-154 | `FB` selects the Facebook arm and `TikTok` the TikTok arm. |
| SocialShare.Link | server.js:135-157 | The switch body: the link of each arm. Its contracts are `FacebookLink`, `TwitterLink`, `TikTokLink`, `InstagramIsConstant` and `UnrecognisedEchoesUrl`. |
| SocialShare.LowerIdempotent | server.js:140 | Lower-casing the platform twice is the same as lower-casing it once. |
| SocialShare.ShareIgnoresCase | server.js:140-157 | A platform and its lower case give the same answer, and so do any two platforms with the same lower case. |
| SocialShare.NamedArm | server.js:140-157 | A platform name listed in the switch selects its arm for every spelling of it, each letter in either case (`FB`, `TikTok`, `TWITTER`), with the KELVIN SIGN allowed for `k`. |
| SocialShare.FacebookAlias | server.js:141-144 | `fb` gives the same answer as `facebook` for every text and url. |
| SocialShare.InstagramAlias | server.js:148-151 | `ig` gives the same answer as `instagram` for every text and url. |
| SocialShare.InstagramIsConstant | server.js:148-151 | Any spelling of `ig` or `instagram` gets `https://www.instagram.com/`, whatever the text and url. |
| SocialShare.UnrecognisedEchoesUrl | server.js:155-156 | A platform outside the switch gets the url back unencoded, or `""` when it is absent. |
| SocialShare.FacebookLink | server.js:135-144 | The link is the sharer endpoint with `u=` the encoded url and `quote=` the encoded text, and its query reads back as exactly `u` = url and `quote` = text. |
| SocialShare.TwitterLink | server.js:135-146 | The link is the tweet-intent endpoint with `text=` and `url=`, and its query reads back as exactly `text` = text and `url` = url. |
| SocialShare.TikTokLink | server.js:152-154 | The link is the search endpoint with `q=` the encoded text, and its query reads back as exactly `q` = text. |
| SocialShare.TwoParameterQuery | server.js:143 | A two-parameter template `base?n1=enc(v1)&n2=enc(v2)` has endpoint `base`, and its query reads back as `n1` = v1 and `n2` = v2. |
| SocialShare.LinkReadsBack | server.js:143 | A link `base?query` built from plain names and encoded values has endpoint `base` and reads back as those parameters. |
| UriComponent.HexDigit | server.js:135-136 | Each digit of an escape is an upper-case hex digit that reads back as its value. |
| UriComponent.HexValue | server.js:135-136 | A hex digit in either case has a value below 16; exactly the hex digits have a value. |
| UriComponent.Utf8 | server.js:135-136 | A character takes 1 to 4 octets. It takes one octet exactly when it is ASCII, and that octet is its code; in a longer form every octet is at least 0x80. |
| UriComponent.Escape | server.js:135-136 | Escaping octets gives three characters per octet. |
| UriComponent.Encode | server.js:135-136 | The encoding is a sequence of unreserved characters and `%XX` escapes with upper-case hex digits, and it is never shorter than the input. |
| UriComponent.EscapeForm | server.js:135-136 | Escaped octets are a sequence of well-formed `%XX` escapes. |
| UriComponent.EncodeCharForm | server.js:135-136 | Each character encodes to a non-empty well-formed piece. |
| UriComponent.EncodedFormAlphabet | server.js:135-136 | A well-formed encoding uses only unreserved characters, `%` and upper-case hex digits. |
| UriComponent.EncodeHasNoDelimiter | server.js:135-136 | An encoding contains no `&`, `=`, `?` or `#`. |
| UriComponent.EncodeIdentity | server.js:135-136 | A string encodes to itself exactly when every character in it is unreserved. |
| UriComponent.EscapeDecodes | server.js:135-136 | Percent-decoding escaped octets gives those octets back. |
| UriComponent.PercentDecodeEncode | server.js:135-136 | Percent-decoding an encoding gives the UTF-8 octets of the input. |
| UriComponent.Utf8DecodeFirstOf | server.js:135-136 | Decoding the UTF-8 form of a character reads that character and exactly its octets. |
| UriComponent.Utf8RoundTrip | server.js:135-136 | UTF-8 decoding of the UTF-8 encoding gives the input back. |
| UriComponent.DecodeEncode | server.js:135-136 | Decoding the encoding of any string gives the string back. |
| UriComponent.EncodeInjective | server.js:135-136 | Two strings have the same encoding exactly when they are equal. |
| UrlQuery.Cut | server.js:143 | Part of the query reader that the templates of server.js:143-153 are read back with. Cutting at a delimiter fails exactly when the delimiter is absent; otherwise the two parts joined by it give the input back, and the first part has no delimiter. |
| UrlQuery.CutAt | server.js:143 | Part of the query reader that the templates of server.js:143-153 are read back with. Cutting `a + d + b`, where `a` has no `d`, gives `a` and `b`. |
| UrlQuery.Split | server.js:143 | Part of the query reader that the templates of server.js:143-153 are read back with. Splitting gives at least one piece, none containing the delimiter, and joining the pieces gives the input back. |
| UrlQuery.QueryRoundTrip | server.js:143-146 | A query written from plain names and encoded values has no `#` and reads back as exactly those names and values. |
| UrlQuery.UrlReadsBack | server.js:143-146 | `base?query`, with no `?` in the base, reads back as the parameters the query was written from. |
| AiProxy.SelectProvider | server.js:64-94 | OpenAI exactly when its key is set; Groq exactly when only the Groq key is set; none exactly when neither key is set. |
| AiProxy.DefaultModel | server.js:72-86 | The default model of each provider is a non-empty name (`gpt-4o-mini`, `gemma2-9b-it`, stated in `RequestShape`). |
| AiProxy.BuildRequest | server.js:64-89 | The request body of either provider; `RequestShape` states its provider, key, model, message and token cap. |
| AiProxy.CallAI | server.js:62-95 | `callAI` answers the placeholder "AI key not configured." exactly when neither key is set, and otherwise sends to the provider selection picks. |
| AiProxy.HandleAi | server.js:102-112 | The handler answers "Missing prompt" exactly for a falsy prompt, and answers "AI Error" only when the call threw, with the thrown message as detail. |
| AiProxy.ExtractReply | server.js:78-91 | The reply is the first choice's message content when there is one, and "No reply" otherwise. |
| AiProxy.CallsExactly | server.js:104-107 | The handler calls a provider exactly when the prompt is truthy and at least one key is set. |
| AiProxy.NoCallNoOutcome | server.js:104-107 | When no call is made, the answer does not depend on how a call would have ended. |
| AiProxy.MissingPromptRefused | server.js:104-105 | A falsy prompt gets 400 "Missing prompt" and no provider call. |
| AiProxy.NotConfiguredPlaceholder | server.js:94 | With no key set, a valid prompt gets "AI key not configured." with 200 and no call. |
| AiProxy.RequestShape | server.js:64-89 | The request goes to the selected provider with its non-empty key. It names the caller's model or the default (`gpt-4o-mini` for OpenAI, `gemma2-9b-it` for Groq). It holds one user message carrying the prompt and asks for at most 500 tokens. |
| AiProxy.ResolvedCallReplies | server.js:77-78 | A resolved call is answered with 200 whatever its HTTP status; the reply is the content or "No reply". |
| AiProxy.ReplyExamples | server.js:78 | Content `x` gives `{reply: x}`, empty content gives `""`, and a 401 body without choices gives "No reply". |
| AiProxy.ThrownCallFails | server.js:109-111 | A call that throws is answered with 500 "AI Error" and the error's message as detail. |
| Quotes.QuoteIndex | server.js:124 | The index picked for a random number in [0, 1) is a valid index into the list. |
| Quotes.PickQuote | server.js:115-126 | The quote answered is always one of the five in the list. |
| Quotes.PickedInterval | server.js:124 | Entry `i` is picked exactly for the random numbers in [i/5, (i+1)/5). |

## Left out

- Express setup, security headers, CORS, JSON body parsing, rate limiting and static files (server.js:1-47) are out of scope. The model starts from the request body's fields.
- The environment and `dotenv` are not modelled. The keys read at start-up (server.js:52-53) are a parameter, with an unset variable read as `""`.
- The start-up warning when no key is set (server.js:55-57) is console output only.
- The provider calls themselves are abstracted as `Outcome`: the `fetch` to OpenAI, the Groq client, and `res.json()` (server.js:65-77, 83-89). The HTTP headers and the endpoint URL are not modelled; the bearer key is `ChatRequest.apiKey`.
- Body fields that are not strings are not modelled. A field is absent or a string. A non-string truthy `platform` would make `toLowerCase` throw, and a non-string `text` or `url` would be converted to a string before encoding.
- SocialShare.Lower: `toLowerCase` is exact on ASCII, on U+212A KELVIN SIGN (which lower-cases to `k`) and on every character that is its own lower case. A non-ASCII character with a different lower case (`É`, `Σ`, `İ`) is kept as it is. Its true lower case holds a non-ASCII character, so no switch arm can be taken either way, but on such characters the function differs from `toLowerCase`.
- UriComponent.Encode: the `URIError` that `encodeURIComponent` throws on a lone surrogate cannot arise, because a Dafny `char` is a Unicode scalar value.
- AiProxy.ResolvedCallReplies: the OpenAI path does not check the HTTP status (server.js:76-78), so an error answer from the provider becomes a 200 reply, usually "No reply". The model follows the code as written. A design that reports provider failures as errors would instead answer 500 on a non-success status.
- AiProxy.ReplyExamples: a `Resolved` outcome with a non-success status arises only on the OpenAI path. On the Groq path (server.js:85-89) the Groq client library raises an error on a non-success status, which is a `Threw` outcome and a 500 answer. That library is not part of this model, so the model does not tie the outcome to the provider.
- Quotes.QuoteIndex: `Math.random()` is a parameter, and it is an exact real rather than a double.
- The health check has a comment (server.js:162) but no route handler, so there is nothing to model. ai.js, the browser-side wrapper around `fetch("/api/ai")`, is not part of this model.
