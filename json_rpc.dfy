/** The JSON-RPC method dispatcher `json_rpc_handler` and the liveness
    endpoint `health_check`. The request has already been decoded from JSON
    by the web framework; the handler picks the branch by the exact method
    name and always answers HTTP 200, with either a success envelope or the
    JSON-RPC 2.0 "Method not found" error envelope (section 5.1 of the
    JSON-RPC 2.0 Specification) in the body. */
module JsonRpc {
  import opened Whitespace
  import opened Segmentation

  const CharCountMethod: string := "char_count"
  const MethodNotFoundCode: int := -32601
  const MethodNotFoundMessage: string := "Method not found"
  const StatusOk: nat := 200
  /** The JSON body limit the server installs (`JsonConfig::limit(4096)`). */
  const MaxBodyBytes: nat := 4096

  const I32Modulus: int := 0x1_0000_0000
  const I32Min: int := -0x8000_0000
  const I32Max: int := 0x7FFF_FFFF

  datatype CharCountParams = CharCountParams(someString: string)

  datatype CharCountRequest =
    CharCountRequest(id: string, jsonrpc: string, methodName: string, params: CharCountParams)

  datatype CharCountResult = CharCountResult(count: int)

  datatype MethodNotFoundError = MethodNotFoundError(code: int, message: string)

  /** The two response envelopes, fields in their declared order. */
  datatype Response =
    | CharCountResponse(id: string, jsonrpc: string, result: CharCountResult)
    | MethodNotFoundErrorResponse(error: MethodNotFoundError, id: string, jsonrpc: string)

  /** An HTTP response body: nothing, or an envelope to be written as JSON. */
  datatype Body = Empty | Json(value: Response)

  datatype HttpResponse = HttpResponse(status: nat, body: Body)

  /** Rust's `usize as i32`: keep the low 32 bits and read them as a two's
      complement number. */
  function AsI32(n: nat): (r: int)
    ensures I32Min <= r <= I32Max
    ensures (n - r) % I32Modulus == 0
    ensures n <= I32Max ==> r == n
  {
    var low := n % I32Modulus;
    assert n <= I32Max ==> low == n;
    if low <= I32Max then low else low - I32Modulus
  }

  /** The `char_count` computation: trim, count extended grapheme clusters,
      cast the count to `i32`. */
  function CharCount(someString: string): (count: int)
    ensures I32Min <= count <= I32Max
    ensures |someString| <= I32Max ==> count == GraphemeCount(Trim(someString))
  {
    var n := GraphemeCount(Trim(someString));
    assert n <= |someString|;
    AsI32(n)
  }

  /** `json_rpc_handler`: dispatch on the method name, echo `id` and
      `jsonrpc`, answer 200 on both branches. */
  function JsonRpcHandler(item: CharCountRequest): (r: HttpResponse)
    ensures r.status == StatusOk && r.body.Json?
    ensures r.body.value.id == item.id && r.body.value.jsonrpc == item.jsonrpc
    ensures r.body.value.CharCountResponse? <==> item.methodName == CharCountMethod
    ensures r.body.value.MethodNotFoundErrorResponse? ==>
              r.body.value.error == MethodNotFoundError(MethodNotFoundCode, MethodNotFoundMessage)
  {
    if item.methodName == CharCountMethod then
      var count := CharCount(item.params.someString);
      HttpResponse(StatusOk, Json(CharCountResponse(item.id, item.jsonrpc, CharCountResult(count))))
    else
      var error := MethodNotFoundError(MethodNotFoundCode, MethodNotFoundMessage);
      HttpResponse(StatusOk, Json(MethodNotFoundErrorResponse(error, item.id, item.jsonrpc)))
  }

  /** `health_check`: 200 with an empty body, whatever else holds. */
  function HealthCheck(): (r: HttpResponse)
    ensures r.status == StatusOk && r.body == Empty
  {
    HttpResponse(StatusOk, Empty)
  }

  /** Below 2^31 the `as i32` cast is the identity. */
  lemma {:induction false} AsI32Exact(n: nat)
    requires n <= I32Max
    ensures AsI32(n) == n
  {
    assert n % I32Modulus == n;
  }

  /** While the string has fewer than 2^31 code points (a body of at most
      MaxBodyBytes UTF-8 bytes holds at most MaxBodyBytes of them), the count
      is exactly the number of clusters of the trimmed string: never
      negative and never more than its code points. */
  lemma CharCountExact(someString: string)
    requires |someString| <= I32Max
    ensures CharCount(someString) == GraphemeCount(Trim(someString))
    ensures 0 <= CharCount(someString) <= |Trim(someString)|
  {
    AsI32Exact(GraphemeCount(Trim(someString)));
  }

  /** Under the body limit the cast never wraps: the count is a valid `i32`
      between 0 and MaxBodyBytes. */
  lemma CountWithinBodyCap(someString: string)
    requires |someString| <= MaxBodyBytes
    ensures 0 <= CharCount(someString) <= MaxBodyBytes
    ensures CharCount(someString) == GraphemeCount(Trim(someString))
  {
    CharCountExact(someString);
  }

  /** Leading and trailing whitespace never change the count. */
  lemma CharCountIgnoresPadding(pre: string, someString: string, post: string)
    requires AllWhitespace(pre) && AllWhitespace(post)
    ensures CharCount(pre + someString + post) == CharCount(someString)
  {
    TrimIgnoresPadding(pre, someString, post);
  }

  /** Counting the trimmed string gives the same count as the string. */
  lemma CharCountOfTrim(someString: string)
    ensures CharCount(Trim(someString)) == CharCount(someString)
  {
    TrimIdempotent(someString);
  }

  /** The count is 0 exactly when the string is empty or whitespace only. */
  lemma CharCountZeroIffBlank(someString: string)
    requires |someString| <= I32Max
    ensures CharCount(someString) == 0 <==> AllWhitespace(someString)
  {
    CharCountExact(someString);
    TrimEmptyIffBlank(someString);
  }

  /** On the `char_count` branch the response carries the cluster count of
      the trimmed parameter string. */
  lemma SuccessCarriesCount(item: CharCountRequest)
    requires item.methodName == CharCountMethod
    requires |item.params.someString| <= I32Max
    ensures JsonRpcHandler(item).body.value.result.count == GraphemeCount(Trim(item.params.someString))
  {
    CharCountExact(item.params.someString);
  }

  /** Off the `char_count` branch the response depends on `id` and `jsonrpc`
      only: neither the method name nor the parameters matter. */
  lemma ErrorIgnoresParams(a: CharCountRequest, b: CharCountRequest)
    requires a.methodName != CharCountMethod && b.methodName != CharCountMethod
    requires a.id == b.id && a.jsonrpc == b.jsonrpc
    ensures JsonRpcHandler(a) == JsonRpcHandler(b)
  {
  }
}
