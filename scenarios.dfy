/** The cases the repository's handler tests exercise, stated about the
    model: the happy paths, the whitespace and combining-mark cases, and the
    unknown method. */
module Scenarios {
  import opened Whitespace
  import opened Segmentation
  import opened JsonRpc
  import opened JsonBody

  const TestId: string := "00000000-0000-0000-0000-000000000000"
  const TestVersion: string := "2.0"

  /** "Olivér" spelt with "e" followed by U+0301 COMBINING ACUTE ACCENT. */
  const OliverAccented: string := "Olive\U{301}r"

  function TestRequest(methodName: string, someString: string): CharCountRequest {
    CharCountRequest(TestId, TestVersion, methodName, CharCountParams(someString))
  }

  /** Six letters, a cluster each. */
  lemma OliverCount()
    ensures GraphemeCount("Oliver") == 6
  {
    AllBreaksCountEach("Oliver");
  }

  /** The clusters of OliverAccented: the accent rides on the "e". */
  const OliverAccentedClusters: seq<string> := ["O", "l", "i", "v", "e\U{301}", "r"]

  /** The accent joins the "e" before it: six clusters for seven code points. */
  lemma OliverAccentedCount()
    ensures |OliverAccented| == 7
    ensures GraphemeCount(OliverAccented) == 6
  {
    OliverAccentedSegmentation();
    SegmentationUnique(OliverAccented, OliverAccentedClusters);
  }

  lemma OliverAccentedSegmentation()
    ensures IsSegmentation(OliverAccented, OliverAccentedClusters)
  {
    var cs := OliverAccentedClusters;
    OliverAccentedConcat();
    assert forall k :: 0 <= k < |cs| ==> cs[k] != [] && Unbroken(cs[k]) by {
      assert !IsBreak('e', '\U{301}');
    }
    assert forall i, j :: 0 <= i && j == i + 1 < |cs| ==> BreakBetween(cs[i], cs[j]);
  }

  lemma OliverAccentedConcat()
    ensures Concat(OliverAccentedClusters) == OliverAccented
  {
    var cs := OliverAccentedClusters;
    assert Concat(cs[5..]) == "r";
    assert Concat(cs[4..]) == "e\U{301}r";
    assert Concat(cs[3..]) == "ve\U{301}r";
    assert Concat(cs[2..]) == "ive\U{301}r";
    assert Concat(cs[1..]) == "live\U{301}r";
  }

  /** The happy paths: "" counts 0 and "Oliver" counts 6, both with 200. */
  lemma HappyPaths()
    ensures JsonRpcHandler(TestRequest(CharCountMethod, "")).status == StatusOk
    ensures JsonRpcHandler(TestRequest(CharCountMethod, "")).body
            == Json(CharCountResponse(TestId, TestVersion, CharCountResult(0)))
    ensures JsonRpcHandler(TestRequest(CharCountMethod, "Oliver")).status == StatusOk
    ensures JsonRpcHandler(TestRequest(CharCountMethod, "Oliver")).body
            == Json(CharCountResponse(TestId, TestVersion, CharCountResult(6)))
  {
    EmptyStringCount();
    CountedRequest("", 0);
    OliverStringCount();
    CountedRequest("Oliver", 6);
  }

  /** A `char_count` test request whose string counts `n` is answered with
      200 and the count `n`. */
  lemma CountedRequest(someString: string, n: int)
    requires CharCount(someString) == n
    ensures JsonRpcHandler(TestRequest(CharCountMethod, someString)).status == StatusOk
    ensures JsonRpcHandler(TestRequest(CharCountMethod, someString)).body
            == Json(CharCountResponse(TestId, TestVersion, CharCountResult(n)))
  {
  }

  lemma EmptyStringCount()
    ensures CharCount("") == 0
  {
    CharCountZeroIffBlank("");
  }

  lemma OliverStringCount()
    ensures CharCount("Oliver") == 6
  {
    TrimOfTrimmed("Oliver");
    OliverCount();
    CharCountExact("Oliver");
  }

  /** "Oliver" counts 6, whatever whitespace pads it. */
  lemma PaddedOliverCount(pre: string, post: string)
    requires AllWhitespace(pre) && AllWhitespace(post)
    ensures CharCount(pre + "Oliver" + post) == 6
  {
    TrimOfTrimmed("Oliver");
    OliverCount();
    CharCountExact("Oliver");
    CharCountIgnoresPadding(pre, "Oliver", post);
  }

  lemma TrailingSpaceCount()
    ensures CharCount("Oliver ") == 6
  {
    var s := "Oliver ";
    assert s == "" + "Oliver" + " " by {
      assert "" + "Oliver" == "Oliver";
      assert "Oliver" + " " == "Oliver ";
    }
    PaddedOliverCount("", " ");
  }

  lemma LeadingSpaceCount()
    ensures CharCount(" Oliver") == 6
  {
    var s := " Oliver";
    assert s == " " + "Oliver" + "" by {
      assert " " + "Oliver" == " Oliver";
      assert " Oliver" + "" == " Oliver";
    }
    PaddedOliverCount(" ", "");
  }

  lemma BothSpacesCount()
    ensures CharCount(" Oliver ") == 6
  {
    var s := " Oliver ";
    assert s == " " + "Oliver" + " " by {
      assert " " + "Oliver" == " Oliver";
      assert " Oliver" + " " == " Oliver ";
    }
    PaddedOliverCount(" ", " ");
  }

  /** The other possibilities: a lone space counts 0; padding on either
      side, and a combining accent, leave the count at 6. */
  lemma OtherPossibilities()
    ensures CharCount(" ") == 0
    ensures CharCount("Oliver ") == 6
    ensures CharCount(" Oliver") == 6
    ensures CharCount(" Oliver ") == 6
    ensures CharCount(OliverAccented) == 6
  {
    CharCountZeroIffBlank(" ");
    TrailingSpaceCount();
    LeadingSpaceCount();
    BothSpacesCount();
    AccentedCount();
  }

  lemma AccentedCount()
    ensures CharCount(OliverAccented) == 6
  {
    TrimOfTrimmed(OliverAccented);
    OliverAccentedCount();
    CharCountExact(OliverAccented);
  }

  /** Dispatch is by exact name: near misses of "char_count" are unknown. */
  lemma NearMissesAreUnknown()
    ensures JsonRpcHandler(TestRequest("wrong", "Oliver")).body.value.MethodNotFoundErrorResponse?
    ensures JsonRpcHandler(TestRequest("", "Oliver")).body.value.MethodNotFoundErrorResponse?
    ensures JsonRpcHandler(TestRequest("Char_count", "Oliver")).body.value.MethodNotFoundErrorResponse?
    ensures JsonRpcHandler(TestRequest("char_count ", "Oliver")).body.value.MethodNotFoundErrorResponse?
  {
    assert "Char_count"[0] != CharCountMethod[0];
    assert |"char_count "| != |CharCountMethod|;
  }

  /** The unknown-method test: status 200 and exactly this body. */
  lemma NonExistentMethod()
    ensures JsonRpcHandler(TestRequest("wrong", "Oliver")).status == StatusOk
    ensures BodyText(JsonRpcHandler(TestRequest("wrong", "Oliver")).body)
            == "{\"error\":{\"code\":-32601,\"message\":\"Method not found\"},\"id\":\"00000000-0000-0000-0000-000000000000\",\"jsonrpc\":\"2.0\"}"
  {
    UnknownMethodBodyText(TestRequest("wrong", "Oliver"));
    ErrorBodyLiteral();
  }

  /** The error body, checked one literal join at a time (a long literal
      appended in one step is more than the solver unfolds). */
  lemma ErrorBodyLiteral()
    ensures ErrorHead + ("\"" + TestId + ("\",\"jsonrpc\":\"" + TestVersion + "\"}"))
            == "{\"error\":{\"code\":-32601,\"message\":\"Method not found\"},\"id\":\"00000000-0000-0000-0000-000000000000\",\"jsonrpc\":\"2.0\"}"
  {
    QuotedIdLiteral();
    ErrorTailLiteral();
    Reassociate(ErrorHead, "\"00000000-0000-0000-0000-000000000000", "\",\"jsonrpc\":\"2.0\"}");
    ErrorIdLiteral();
    ErrorJoinLiteral();
  }

  lemma QuotedIdLiteral()
    ensures "\"" + TestId == "\"00000000-0000-0000-0000-000000000000"
  {
  }

  lemma ErrorTailLiteral()
    ensures "\",\"jsonrpc\":\"" + TestVersion + "\"}" == "\",\"jsonrpc\":\"2.0\"}"
  {
  }

  lemma ErrorIdLiteral()
    ensures ErrorHead + "\"00000000-0000-0000-0000-000000000000"
            == "{\"error\":{\"code\":-32601,\"message\":\"Method not found\"},\"id\":\"00000000-0000-0000-0000-000000000000"
  {
  }

  lemma ErrorJoinLiteral()
    ensures "{\"error\":{\"code\":-32601,\"message\":\"Method not found\"},\"id\":\"00000000-0000-0000-0000-000000000000"
              + "\",\"jsonrpc\":\"2.0\"}"
            == "{\"error\":{\"code\":-32601,\"message\":\"Method not found\"},\"id\":\"00000000-0000-0000-0000-000000000000\",\"jsonrpc\":\"2.0\"}"
  {
  }

  /** End to end: " Oliver " is answered with 200 and a count of 6, written
      as JSON with `id`, `jsonrpc`, `result` in that order. */
  lemma PaddedOliverBody()
    ensures JsonRpcHandler(TestRequest(CharCountMethod, " Oliver ")).status == StatusOk
    ensures Writable(JsonRpcHandler(TestRequest(CharCountMethod, " Oliver ")).body.value)
    ensures BodyText(JsonRpcHandler(TestRequest(CharCountMethod, " Oliver ")).body)
            == "{\"id\":\"00000000-0000-0000-0000-000000000000\",\"jsonrpc\":\"2.0\",\"result\":{\"count\":6}}"
  {
    var item := TestRequest(CharCountMethod, " Oliver ");
    var resp := CharCountResponse(TestId, TestVersion, CharCountResult(6));
    assert JsonRpcHandler(item).body == Json(resp) by {
      BothSpacesCount();
    }
    TestFieldsWritable();
    assert Writable(resp);
    assert BodyText(Json(resp)) == ResponseJson(resp);
    SuccessBodyLiteral();
  }

  /** The test's `id` and `jsonrpc` are written without escapes. */
  lemma TestFieldsWritable()
    ensures NeedsNoEscape(TestId) && NeedsNoEscape(TestVersion)
  {
  }

  /** The success body, checked one literal join at a time. */
  lemma SuccessBodyLiteral()
    ensures ResponseJson(CharCountResponse(TestId, TestVersion, CharCountResult(6)))
            == "{\"id\":\"00000000-0000-0000-0000-000000000000\",\"jsonrpc\":\"2.0\",\"result\":{\"count\":6}}"
  {
    SuccessTailLiteral();
    SuccessIdLiteral();
    Reassociate("{\"id\":", "\"00000000-0000-0000-0000-000000000000\"", ",\"jsonrpc\":\"2.0\",\"result\":{\"count\":6}}");
    SuccessJoinLiteral();
  }

  lemma SuccessTailLiteral()
    ensures ",\"jsonrpc\":" + (Quote(TestVersion) + (",\"result\":{\"count\":" + (IntDecimal(6) + "}}")))
            == ",\"jsonrpc\":\"2.0\",\"result\":{\"count\":6}}"
  {
    assert IntDecimal(6) == "6";
  }

  lemma SuccessIdLiteral()
    ensures SuccessOpening == "{\"id\":"
    ensures Quote(TestId) == "\"00000000-0000-0000-0000-000000000000\""
  {
  }

  lemma SuccessJoinLiteral()
    ensures "{\"id\":" + "\"00000000-0000-0000-0000-000000000000\"" + ",\"jsonrpc\":\"2.0\",\"result\":{\"count\":6}}"
            == "{\"id\":\"00000000-0000-0000-0000-000000000000\",\"jsonrpc\":\"2.0\",\"result\":{\"count\":6}}"
  {
    SuccessOpenLiteral();
    SuccessRestLiteral();
  }

  lemma SuccessOpenLiteral()
    ensures "{\"id\":" + "\"00000000-0000-0000-0000-000000000000\"" == "{\"id\":\"00000000-0000-0000-0000-000000000000\""
  {
  }

  lemma SuccessRestLiteral()
    ensures "{\"id\":\"00000000-0000-0000-0000-000000000000\"" + ",\"jsonrpc\":\"2.0\",\"result\":{\"count\":6}}"
            == "{\"id\":\"00000000-0000-0000-0000-000000000000\",\"jsonrpc\":\"2.0\",\"result\":{\"count\":6}}"
  {
  }

  /** The liveness check answers 200 with nothing in the body. */
  lemma HealthCheckBody()
    ensures HealthCheck().status == 200
    ensures BodyText(HealthCheck().body) == ""
  {
  }
}
