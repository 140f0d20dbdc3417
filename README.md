# Character-counting JSON-RPC server: verified model of the dispatcher

The server answers JSON-RPC 2.0 requests of the form
`{id, jsonrpc, method, params: {some_string}}` on `POST /`, and a liveness
probe on `GET /health_check`. All of its decision-making is in
`json_rpc_handler`:

- for the method `char_count` it trims `some_string` (Rust `str::trim`: the
  leading and trailing runs of Unicode White_Space code points), counts the
  extended grapheme clusters of what is left (`graphemes(true).count()`),
  casts the count to `i32` and answers `{id, jsonrpc, result: {count}}`;
- for any other method it answers the "Method not found" error object of
  section 5.1 of the JSON-RPC 2.0 Specification (code -32601), as
  `{error: {code, message}, id, jsonrpc}`;
- in both cases `id` and `jsonrpc` are echoed unchanged and the HTTP status
  is 200; the error travels in the body.

`health_check` answers 200 with an empty body.

The model is pure, like the handler: datatypes for the request and response
structs and functions for the operations, with lemmas for the properties.

- `whitespace.dfy` (module `Whitespace`): the White_Space property and
  `Trim`, characterised by uniqueness (`TrimUnique`): whatever whitespace
  pads a trimmed string, trimming gives back exactly that string.
- `segmentation.dfy` (module `Segmentation`): grapheme clusters under a
  subset of the boundary rules of UAX #29 section 3.1.1 (GB3, GB4, GB5, GB9,
  GB999), which breaks wherever the full rules do. `Graphemes` is characterised by `IsSegmentation` and a uniqueness
  lemma (`SegmentationUnique`).
- `json_rpc.dfy` (module `JsonRpc`): the structs, the `i32` cast,
  `JsonRpcHandler` and `HealthCheck`, and the properties the handler promises.
- `json_body.dfy` (module `JsonBody`): the JSON text that serde_json writes
  for the two envelopes (members in declaration order, no whitespace), for
  strings that need no escaping, together with a decoder and the round trip
  between them. It also proves the shape of the unknown-method body for any
  `id` and `jsonrpc`.
- `scenarios.dfy` (module `Scenarios`): the cases of the repository's handler
  tests, proved about the model.

`json_rpc_handler` appears twice in the repository:
src/routes/json_rpc.rs:43-69 and src/main.rs:48-74 (likewise the structs at
json_rpc.rs:5-41 and main.rs:6-42), identical apart from `pub` visibility.
It is modelled once; the table cites the routes copy for the handler and
main.rs for what only main.rs holds.

The test value written "Olivér" at src/routes/json_rpc.rs:127 is
encoding-damaged text: as written it spells "Olive", two other characters
(U+00C3, U+00C5) and "r", and would count 8, not 6. The model uses the same
case as src/main.rs:156, where it is "e" followed by U+0301 COMBINING ACUTE ACCENT.

## Model

| member | source | states |
|---|---|---|
| JsonRpc.JsonRpcHandler | src/routes/json_rpc.rs:43-69 | always status 200 with a JSON body; `id` and `jsonrpc` echoed unchanged (not normalised); success envelope exactly when the method is "char_count"; otherwise the error is code -32601 with message "Method not found" |
| JsonRpc.HealthCheck | src/main.rs:44-46 | status 200 and an empty body, with no input |
| JsonRpc.CharCount | src/routes/json_rpc.rs:46-47 | the `count` field: trim, count clusters, cast to `i32`; always in the `i32` range, and equal to the cluster count of the trimmed string whenever it has fewer than 2^31 code points |
| JsonRpc.AsI32 | src/routes/json_rpc.rs:47 | `usize as i32` keeps the value modulo 2^32 and lands in the `i32` range |
| JsonRpc.AsI32Exact | src/routes/json_rpc.rs:47 | below 2^31 the cast leaves the count unchanged |
| JsonRpc.CharCountExact | src/main.rs:51-52 | for fewer than 2^31 code points the count is the cluster count of the trimmed string, between 0 and the trimmed length |
| JsonRpc.CountWithinBodyCap | src/main.rs:90 | under the 4096-byte body limit the count never wraps and lies between 0 and 4096 |
| JsonRpc.CharCountIgnoresPadding | src/routes/json_rpc.rs:46 | whitespace added before or after the string never changes the count |
| JsonRpc.CharCountOfTrim | src/routes/json_rpc.rs:46 | counting the trimmed string gives the count of the string |
| JsonRpc.CharCountZeroIffBlank | src/routes/json_rpc.rs:46-47 | for strings under 2^31 code points (which the 4096-byte body cap guarantees), the count is 0 exactly when the string is empty or all whitespace |
| JsonRpc.SuccessCarriesCount | src/routes/json_rpc.rs:45-51 | on the "char_count" branch, for parameters under 2^31 code points (which the 4096-byte body cap guarantees), the result's count is the cluster count of the trimmed parameter |
| JsonRpc.ErrorIgnoresParams | src/routes/json_rpc.rs:56-65 | off the "char_count" branch the whole response depends only on `id` and `jsonrpc`, not on the method name or the parameters |
| Whitespace.IsWhitespace | src/routes/json_rpc.rs:46 | `char::is_whitespace` as `str::trim` uses it: true of exactly the 25 listed White_Space code points |
| Whitespace.LeadingWhitespace | src/routes/json_rpc.rs:46 | the length of the maximal leading run of whitespace |
| Whitespace.TrailingWhitespace | src/routes/json_rpc.rs:46 | the length of the maximal trailing run of whitespace |
| Whitespace.TrimStart | src/routes/json_rpc.rs:46 | a suffix of the input, with only whitespace removed, that does not start with whitespace |
| Whitespace.TrimEnd | src/routes/json_rpc.rs:46 | a prefix of the input, with only whitespace removed, that does not end with whitespace |
| Whitespace.Trim | src/routes/json_rpc.rs:46 | the result is trimmed and sits in the input with only whitespace before and after it |
| Whitespace.TrimUnique | src/routes/json_rpc.rs:46 | a trimmed string padded with any whitespace trims back to itself |
| Whitespace.TrimOfTrimmed | src/routes/json_rpc.rs:46 | trimming leaves alone a string with no whitespace at either end |
| Whitespace.TrimIdempotent | src/routes/json_rpc.rs:46 | trimming twice is trimming once |
| Whitespace.TrimIgnoresPadding | src/routes/json_rpc.rs:46 | extra whitespace on either side does not change the trimmed string |
| Whitespace.TrimEmptyIffBlank | src/routes/json_rpc.rs:46 | the trimmed string is empty exactly when the input is all whitespace |
| Segmentation.IsBreak | src/routes/json_rpc.rs:47 | the boundary rules GB3, GB4, GB5, GB9 and GB999 applied in order; they keep two code points together exactly for CR LF, or for an Extend or ZWJ after anything but a control, CR or LF |
| Segmentation.ClusterEnd | src/routes/json_rpc.rs:47 | the end of the current cluster is the first boundary at or after the given index, or the end of the string |
| Segmentation.ClusterEndAt | src/routes/json_rpc.rs:47 | the cluster ends at no position other than the first boundary |
| Segmentation.Graphemes | src/routes/json_rpc.rs:47 | the clusters put back together give the string; none is empty, none holds a boundary, and there is a boundary at every join |
| Segmentation.SegmentationUnique | src/routes/json_rpc.rs:47 | any cutting of the string into unbroken pieces at boundaries is the one `Graphemes` computes |
| Segmentation.GraphemeCount | src/routes/json_rpc.rs:47 | the cluster count is at most the number of code points, and 0 exactly for the empty string |
| Segmentation.ConcatLength | src/routes/json_rpc.rs:47 | non-empty clusters make a string at least as long as their number |
| Segmentation.FormatControlsBreak | src/routes/json_rpc.rs:47 | a combining mark after ZERO WIDTH SPACE, ZERO WIDTH NO-BREAK SPACE or SOFT HYPHEN starts a new cluster (GB4), so U+200B U+0301 counts 2; an unassigned code point such as U+20F5 is not Extend |
| Segmentation.AllBreaksCountEach | src/routes/json_rpc.rs:47 | where every adjacent pair is a boundary, the count is the number of code points |
| JsonBody.ResponseJson | src/routes/json_rpc.rs:18-41 | the text `HttpResponse::Ok().json(..)` writes for an envelope, members in declaration order; its contract states the text is one JSON object (braces at both ends), and `JsonBody.ResponseJsonRoundTrip` shows the text determines the envelope |
| JsonBody.BodyText | src/routes/json_rpc.rs:54-66 | the response body: empty exactly for the liveness answer, otherwise the envelope's JSON text |
| JsonBody.NatDecimalValue | src/routes/json_rpc.rs:27 | the decimal digits of a number read back as that number |
| JsonBody.ParseIntRoundTrip | src/routes/json_rpc.rs:27 | an `i32` written in decimal, negative ones included, reads back as itself |
| JsonBody.ParseQuotedRoundTrip | src/routes/json_rpc.rs:20-21 | a string that needs no escaping reads back from its quoted form |
| JsonBody.ResponseJsonRoundTrip | src/routes/json_rpc.rs:18-41 | both envelopes, written with their members in declaration order, decode back to the same envelope |
| JsonBody.ErrorHeadText | src/routes/json_rpc.rs:57-61 | the fixed start of the error body, up to the `id` member, is this exact text |
| JsonBody.UnknownMethodBodyText | src/routes/json_rpc.rs:56-66 | for an unknown method the body is the fixed error object followed by the echoed `id` and `jsonrpc`, for any `id` and `jsonrpc` that need no escaping |
| Scenarios.OliverCount | src/main.rs:113 | "Oliver" has 6 clusters |
| Scenarios.OliverAccentedCount | src/main.rs:156 | "Olivér" written with a combining accent has 7 code points and 6 clusters |
| Scenarios.CountedRequest | src/routes/json_rpc.rs:45-54 | a `char_count` request whose string counts n is answered with 200 and count n, `id` and `jsonrpc` echoed |
| Scenarios.EmptyStringCount | src/routes/json_rpc.rs:84 | "" counts 0 |
| Scenarios.OliverStringCount | src/routes/json_rpc.rs:84 | "Oliver" counts 6 |
| Scenarios.HappyPaths | src/routes/json_rpc.rs:84-111 | "" answers 200 with count 0, and "Oliver" answers 200 with count 6 |
| Scenarios.PaddedOliverCount | src/routes/json_rpc.rs:122-126 | "Oliver" padded with any whitespace counts 6 |
| Scenarios.TrailingSpaceCount | src/routes/json_rpc.rs:124 | "Oliver " counts 6 |
| Scenarios.LeadingSpaceCount | src/routes/json_rpc.rs:125 | " Oliver" counts 6 |
| Scenarios.BothSpacesCount | src/routes/json_rpc.rs:126 | " Oliver " counts 6 |
| Scenarios.AccentedCount | src/main.rs:156 | "Olivér" with a combining accent counts 6 |
| Scenarios.OtherPossibilities | src/main.rs:151-157 | " " counts 0, and the three padded forms and the accented form all count 6 |
| Scenarios.NearMissesAreUnknown | src/main.rs:49-61 | dispatch is by exact equality: "wrong", "", "Char_count" and "char_count " all get the error envelope |
| Scenarios.NonExistentMethod | src/main.rs:190-216 | method "wrong" answers 200 with exactly the body the test expects |
| Scenarios.PaddedOliverBody | src/routes/json_rpc.rs:146-157 | " Oliver " answers 200 with exactly the text `{"id":…,"jsonrpc":"2.0","result":{"count":6}}` |
| Scenarios.HealthCheckBody | src/main.rs:44-46 | the liveness check answers 200 with an empty body text |

`JsonBody.Expect`, `JsonBody.Span`, `JsonBody.ParseQuoted`, `JsonBody.ParseInt`,
`JsonBody.ParseResponse` and the lemmas `JsonBody.ExpectLiteral` and
`JsonBody.SpanStops` are not part of the server, which never decodes a
response. They make up the inverse that `JsonBody.ResponseJsonRoundTrip` uses
to show the serialised text determines the envelope.

## Left out

- `main()` (src/main.rs:76-97) and src/startup.rs: logger set-up, reading
  `APP_URL`, binding the socket and running the server are I/O and framework
  wiring. src/startup.rs:43 routes "/" with GET while src/main.rs:91 uses
  POST; that routing difference is outside the handler and is not modelled.
- Decoding the request JSON, and enforcing the 4096-byte body limit
  (src/main.rs:90): actix and serde reject malformed or oversized bodies
  before the handler runs. The model starts from an already decoded
  request. `JsonRpc.CountWithinBodyCap` takes the limit as its
  precondition.
- Segmentation.Graphemes: implements only GB3, GB4, GB5, GB9 and GB999 of
  UAX #29. Control is the whole Grapheme_Cluster_Break=Control class of
  Unicode 15.0. Extend is limited to the assigned code points of the
  combining-mark blocks, the variation selectors and U+200C. Hangul
  syllables (GB6-GB8), SpacingMark and Prepend (GB9a, GB9b), emoji ZWJ
  sequences (GB11), regional-indicator pairs (GB12, GB13) and the rest of
  the Extend class are not modelled. The crate's full tables are external
  data.
- Segmentation.IsBreak: every rule and class member left out is one that
  keeps code points together. Against Unicode 15.0 tables, the model
  therefore breaks wherever the crate breaks, and in some places where it
  does not. DEVANAGARI KA followed by the virama U+094D is one cluster for
  the crate but two here; so are a regional-indicator flag pair and a
  Hangul L V pair. If the crate's tables are older than 15.0, the
  Egyptian format controls U+13439-U+1343F are Control here but were
  unassigned, hence not Control, there.
- JsonBody.ResponseJson: writes only strings that need no JSON escaping (no
  quote, backslash or control character). serde_json's escaping of other
  strings is not modelled.
- The request and response structs at src/main.rs:6-42 and the handler at
  src/main.rs:48-74 repeat src/routes/json_rpc.rs, identical apart from `pub`
  visibility. They are modelled once.
- The async actix test harness (`test::init_service`, `app.call`) is
  framework plumbing. The tests' expectations are stated as lemmas about
  the model instead.
- Strings are sequences of Unicode code points. UTF-8 byte lengths are not
  modelled. The only place bytes matter is the body limit, and a body of at
  most 4096 bytes holds at most 4096 code points.
