/** The JSON text of a response body as `HttpResponse::Ok().json(..)`
    writes it with serde_json: members in declaration order, no whitespace,
    integers in plain decimal. Strings are written only where serde_json
    would copy them unchanged between quotes (no escaping needed). A small
    decoder for exactly these shapes shows that the text determines the
    envelope. */
module JsonBody {
  import opened Whitespace
  import opened JsonRpc

  datatype Option<T> = None | Some(value: T) {
    predicate IsFailure() { None? }
    function PropagateFailure<U>(): Option<U> requires None? { None }
    function Extract(): T requires Some? { value }
  }

  /** serde_json copies a string unchanged between quotes when it holds no
      quote, no backslash and no control character below U+0020. */
  predicate NeedsNoEscape(s: string) {
    forall i :: 0 <= i < |s| ==> s[i] != '"' && s[i] != '\\' && s[i] >= ' '
  }

  /** Every string field of the envelope needs no escaping. */
  predicate Writable(r: Response) {
    && NeedsNoEscape(r.id)
    && NeedsNoEscape(r.jsonrpc)
    && (r.MethodNotFoundErrorResponse? ==> NeedsNoEscape(r.error.message))
  }

  predicate IsDigit(c: char) { '0' <= c <= '9' }

  function DigitChar(d: nat): (c: char)
    requires d < 10
    ensures IsDigit(c) && DigitValue(c) == d
  {
    (48 + d) as char
  }

  function DigitValue(c: char): (d: nat)
    requires IsDigit(c)
    ensures d < 10
  {
    c as int - '0' as int
  }

  /** Decimal digits of `n`, most significant first, no leading zero. */
  function NatDecimal(n: nat): string {
    if n < 10 then [DigitChar(n)] else NatDecimal(n / 10) + [DigitChar(n % 10)]
  }

  /** How serde_json writes an integer. */
  function IntDecimal(i: int): string {
    if i < 0 then "-" + NatDecimal(-i) else NatDecimal(i)
  }

  function Quote(s: string): string {
    "\"" + s + "\""
  }

  const ErrorOpening: string := "{\"error\":{\"code\":"
  const SuccessOpening: string := "{\"id\":"

  /** The envelope as JSON text: `id`, `jsonrpc`, `result` for a success;
      `error` (with `code` before `message`), `id`, `jsonrpc` for an error.
      Either way the text is one JSON object, braces at both ends. */
  function ResponseJson(r: Response): (text: string)
    requires Writable(r)
    ensures |text| > 1 && text[0] == '{' && text[|text| - 1] == '}'
  {
    match r
    case CharCountResponse(id, jsonrpc, result) =>
      SuccessOpening + (Quote(id) + (",\"jsonrpc\":" + (Quote(jsonrpc)
        + (",\"result\":{\"count\":" + (IntDecimal(result.count) + "}}")))))
    case MethodNotFoundErrorResponse(error, id, jsonrpc) =>
      ErrorOpening + (IntDecimal(error.code) + (",\"message\":" + (Quote(error.message)
        + ("},\"id\":" + (Quote(id) + (",\"jsonrpc\":" + (Quote(jsonrpc) + "}")))))))
  }

  /** The bytes of an HTTP response body. */
  function BodyText(b: Body): (text: string)
    requires b.Json? ==> Writable(b.value)
    ensures text == [] <==> b.Empty?
  {
    match b
    case Empty => ""
    case Json(r) => ResponseJson(r)
  }

  // ---- decoder ----

  /** What follows `lit` in `s`, if `s` starts with `lit`. */
  function Expect(lit: string, s: string): (rest: Option<string>)
    ensures rest.Some? ==> s == lit + rest.value
  {
    if lit <= s then Some(s[|lit|..]) else None
  }

  /** Length of the longest prefix of `s` whose code points satisfy `p`. */
  function Span(s: string, p: char -> bool): (n: nat)
    ensures n <= |s|
    ensures forall i :: 0 <= i < n ==> p(s[i])
    ensures n < |s| ==> !p(s[n])
  {
    if s != [] && p(s[0]) then 1 + Span(s[1..], p) else 0
  }

  function DecimalValue(ds: string): nat
    requires forall i :: 0 <= i < |ds| ==> IsDigit(ds[i])
  {
    if ds == [] then 0 else 10 * DecimalValue(ds[..|ds| - 1]) + DigitValue(ds[|ds| - 1])
  }

  predicate NotQuote(c: char) { c != '"' }

  /** A quoted string with no escapes in it, and what follows it. */
  function ParseQuoted(s: string): Option<(string, string)> {
    if s == [] || s[0] != '"' then None
    else
      var t := s[1..];
      var n := Span(t, NotQuote);
      if n == |t| then None else Some((t[..n], t[n + 1..]))
  }

  /** A run of decimal digits, and what follows it. */
  function ParseNat(s: string): Option<(int, string)> {
    var n := Span(s, IsDigit);
    if n == 0 then None else Some((DecimalValue(s[..n]), s[n..]))
  }

  /** An optional minus sign and a run of decimal digits. */
  function ParseInt(s: string): Option<(int, string)> {
    if s != [] && s[0] == '-' then
      var p :- ParseNat(s[1..]);
      Some((-p.0, p.1))
    else
      ParseNat(s)
  }

  /** Reads back the text ResponseJson writes. */
  function ParseResponse(text: string): Option<Response> {
    if ErrorOpening <= text then ParseErrorResponse(text[|ErrorOpening|..])
    else ParseSuccessResponse(text)
  }

  function ParseSuccessResponse(text: string): Option<Response> {
    var s1 :- Expect(SuccessOpening, text);
    var id :- ParseQuoted(s1);
    var s2 :- Expect(",\"jsonrpc\":", id.1);
    var jsonrpc :- ParseQuoted(s2);
    var s3 :- Expect(",\"result\":{\"count\":", jsonrpc.1);
    var count :- ParseInt(s3);
    if count.1 == "}}" then Some(CharCountResponse(id.0, jsonrpc.0, CharCountResult(count.0)))
    else None
  }

  function ParseErrorResponse(s: string): Option<Response> {
    var code :- ParseInt(s);
    var s1 :- Expect(",\"message\":", code.1);
    var message :- ParseQuoted(s1);
    var s2 :- Expect("},\"id\":", message.1);
    var id :- ParseQuoted(s2);
    var s3 :- Expect(",\"jsonrpc\":", id.1);
    var jsonrpc :- ParseQuoted(s3);
    if jsonrpc.1 == "}" then
      Some(MethodNotFoundErrorResponse(MethodNotFoundError(code.0, message.0), id.0, jsonrpc.0))
    else None
  }

  // ---- round trip ----

  lemma ExpectLiteral(lit: string, rest: string)
    ensures Expect(lit, lit + rest) == Some(rest)
  {
    assert (lit + rest)[|lit|..] == rest;
  }

  /** Span stops exactly where the run of `p` ends. */
  lemma {:induction false} SpanStops(s: string, rest: string, p: char -> bool)
    requires forall i :: 0 <= i < |s| ==> p(s[i])
    requires rest == [] || !p(rest[0])
    ensures Span(s + rest, p) == |s|
    decreases |s|
  {
    if s != [] {
      assert (s + rest)[1..] == s[1..] + rest;
      SpanStops(s[1..], rest, p);
    }
  }

  /** The digits of `n` read back as `n`. */
  lemma {:induction false} NatDecimalValue(n: nat)
    ensures NatDecimal(n) != []
    ensures forall i :: 0 <= i < |NatDecimal(n)| ==> IsDigit(NatDecimal(n)[i])
    ensures DecimalValue(NatDecimal(n)) == n
  {
    if n >= 10 {
      NatDecimalValue(n / 10);
      var ds := NatDecimal(n);
      assert ds[..|ds| - 1] == NatDecimal(n / 10);
    }
  }

  lemma ParseIntRoundTrip(i: int, rest: string)
    requires rest == [] || !IsDigit(rest[0])
    ensures ParseInt(IntDecimal(i) + rest) == Some((i, rest))
  {
    var ds := NatDecimal(if i < 0 then -i else i);
    NatDecimalValue(if i < 0 then -i else i);
    SpanStops(ds, rest, IsDigit);
    assert (ds + rest)[..|ds|] == ds && (ds + rest)[|ds|..] == rest;
    if i < 0 {
      assert ("-" + ds + rest)[1..] == ds + rest;
    } else {
      assert ds[0] != '-';
    }
  }

  lemma ParseQuotedRoundTrip(x: string, rest: string)
    requires NeedsNoEscape(x)
    ensures ParseQuoted(Quote(x) + rest) == Some((x, rest))
  {
    var t := (Quote(x) + rest)[1..];
    assert t == x + ("\"" + rest);
    SpanStops(x, "\"" + rest, NotQuote);
    assert t[..|x|] == x && t[|x| + 1..] == rest;
  }

  /** The body text determines the envelope: decoding what ResponseJson
      writes gives back the same envelope. */
  lemma ResponseJsonRoundTrip(r: Response)
    requires Writable(r)
    ensures ParseResponse(ResponseJson(r)) == Some(r)
  {
    if r.CharCountResponse? {
      SuccessRoundTrip(r.id, r.jsonrpc, r.result);
    } else {
      ErrorRoundTrip(r.error, r.id, r.jsonrpc);
    }
  }

  lemma SuccessRoundTrip(id: string, jsonrpc: string, result: CharCountResult)
    requires NeedsNoEscape(id) && NeedsNoEscape(jsonrpc)
    ensures ParseResponse(ResponseJson(CharCountResponse(id, jsonrpc, result)))
            == Some(CharCountResponse(id, jsonrpc, result))
  {
    var text := ResponseJson(CharCountResponse(id, jsonrpc, result));
    var s3 := IntDecimal(result.count) + "}}";
    var s2 := ",\"result\":{\"count\":" + s3;
    var s1 := ",\"jsonrpc\":" + (Quote(jsonrpc) + s2);
    assert text[2] == 'i' != ErrorOpening[2];
    ExpectLiteral(SuccessOpening, Quote(id) + s1);
    ParseQuotedRoundTrip(id, s1);
    ExpectLiteral(",\"jsonrpc\":", Quote(jsonrpc) + s2);
    ParseQuotedRoundTrip(jsonrpc, s2);
    ExpectLiteral(",\"result\":{\"count\":", s3);
    ParseIntRoundTrip(result.count, "}}");
  }

  lemma ErrorRoundTrip(error: MethodNotFoundError, id: string, jsonrpc: string)
    requires NeedsNoEscape(error.message) && NeedsNoEscape(id) && NeedsNoEscape(jsonrpc)
    ensures ParseResponse(ResponseJson(MethodNotFoundErrorResponse(error, id, jsonrpc)))
            == Some(MethodNotFoundErrorResponse(error, id, jsonrpc))
  {
    var text := ResponseJson(MethodNotFoundErrorResponse(error, id, jsonrpc));
    var s5 := Quote(jsonrpc) + "}";
    var s4 := ",\"jsonrpc\":" + s5;
    var s3 := "},\"id\":" + (Quote(id) + s4);
    var s2 := Quote(error.message) + s3;
    var s1 := ",\"message\":" + s2;
    assert text[|ErrorOpening|..] == IntDecimal(error.code) + s1;
    ParseIntRoundTrip(error.code, s1);
    ExpectLiteral(",\"message\":", s2);
    ParseQuotedRoundTrip(error.message, s3);
    ExpectLiteral("},\"id\":", Quote(id) + s4);
    ParseQuotedRoundTrip(id, s4);
    ExpectLiteral(",\"jsonrpc\":", s5);
    ParseQuotedRoundTrip(jsonrpc, "}");
  }

  const ErrorHead: string := "{\"error\":{\"code\":-32601,\"message\":\"Method not found\"},\"id\":"

  /** The fixed part of the error body, before the echoed `id`. */
  lemma ErrorHeadText(tail: string)
    ensures ErrorOpening + (IntDecimal(MethodNotFoundCode) + (",\"message\":" + (Quote(MethodNotFoundMessage)
              + ("},\"id\":" + tail)))) == ErrorHead + tail
  {
    assert NatDecimal(3) == "3";
    assert NatDecimal(32) == "32";
    assert NatDecimal(326) == "326";
    assert NatDecimal(3260) == "3260";
    assert IntDecimal(MethodNotFoundCode) == "-32601";
    var q := Quote(MethodNotFoundMessage);
    Reassociate(",\"message\":", q, "},\"id\":" + tail);
    Reassociate(",\"message\":" + q, "},\"id\":", tail);
    Reassociate("-32601", ",\"message\":" + q + "},\"id\":", tail);
    Reassociate("-32601", ",\"message\":", q);
    Reassociate("-32601" + ",\"message\":", q, "},\"id\":");
    Reassociate(ErrorOpening, "-32601" + ",\"message\":" + q + "},\"id\":", tail);
    Reassociate(ErrorOpening, "-32601", ",\"message\":");
    Reassociate(ErrorOpening, "-32601" + ",\"message\":", q);
    Reassociate(ErrorOpening, "-32601" + ",\"message\":" + q, "},\"id\":");
    ErrorHeadLiteral();
  }

  lemma ErrorHeadLiteral()
    ensures ErrorOpening + "-32601" + ",\"message\":" + Quote(MethodNotFoundMessage) + "},\"id\":" == ErrorHead
  {
    assert Quote(MethodNotFoundMessage) == "\"Method not found\"";
    assert ErrorOpening + "-32601" == "{\"error\":{\"code\":-32601";
    assert "{\"error\":{\"code\":-32601" + ",\"message\":" == "{\"error\":{\"code\":-32601,\"message\":";
    assert "{\"error\":{\"code\":-32601,\"message\":" + "\"Method not found\""
      == "{\"error\":{\"code\":-32601,\"message\":\"Method not found\"";
    assert "{\"error\":{\"code\":-32601,\"message\":\"Method not found\"" + "},\"id\":" == ErrorHead;
  }

  /** For an unknown method the body is the fixed error object, with the
      request's `id` and `jsonrpc` echoed verbatim. */
  lemma UnknownMethodBodyText(item: CharCountRequest)
    requires item.methodName != CharCountMethod
    requires NeedsNoEscape(item.id) && NeedsNoEscape(item.jsonrpc)
    ensures var r := JsonRpcHandler(item);
      && Writable(r.body.value)
      && BodyText(r.body) == ErrorHead + ("\"" + item.id + ("\",\"jsonrpc\":\"" + item.jsonrpc + "\"}"))
  {
    var id, v := item.id, item.jsonrpc;
    var tail := Quote(id) + (",\"jsonrpc\":" + (Quote(v) + "}"));
    assert tail == "\"" + id + ("\",\"jsonrpc\":\"" + v + "\"}");
    ErrorHeadText(tail);
  }
}
