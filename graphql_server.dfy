/**
 * The request path of the GraphQL package: `parse_graphql_request` pulls the
 * query text out of the request body and classifies it, `GraphQLServer`
 * refuses queries that nest braces too deeply or name too many fields and
 * answers introspection only when it is enabled, and
 * `format_graphql_response` writes the response object.  The schema's
 * introspection text and the outcome of creating a subscription are inputs.
 */
module GraphqlServer {
  import opened Text
  import opened Wrappers
  import opened Seqs
  import RestRouter
  import RestHandler

  // ---------------------------------------------------------------------------
  // Query depth
  // ---------------------------------------------------------------------------

  /** The brace depth after the whole of `s`: '{' opens, '}' closes. */
  function Depth(s: string): int
  {
    RestRouter.Depth(s)
  }

  /** The deepest nesting the depth counter records: 0, or its value after some '{'. */
  function MaxNesting(s: string): (m: nat)
    decreases |s|
  {
    if s == [] then 0
    else
      var m := MaxNesting(s[..|s| - 1]);
      if s[|s| - 1] == '{' then Max(m, Depth(s)) else m
  }

  /** The recorded maximum bounds the depth after every prefix, and is reached by one. */
  lemma {:induction false} MaxNestingMeaning(s: string)
    ensures forall k :: 0 <= k <= |s| ==> Depth(s[..k]) <= MaxNesting(s)
    ensures exists k :: 0 <= k <= |s| && Depth(s[..k]) == MaxNesting(s)
    decreases |s|
  {
    if s == [] {
      assert Depth(s[..0]) == 0;
    } else {
      var p := s[..|s| - 1];
      MaxNestingMeaning(p);
      assert s[..|s|] == s;
      forall k | 0 <= k <= |s|
        ensures Depth(s[..k]) <= MaxNesting(s)
      {
        if k < |s| {
          assert s[..k] == p[..k];
        } else {
          assert s[..k] == s;
          assert p[..|p|] == p;
        }
      }
      var j :| 0 <= j <= |p| && Depth(p[..j]) == MaxNesting(p);
      assert s[..j] == p[..j];
      if s[|s| - 1] == '{' && Depth(s) > MaxNesting(p) {
        assert Depth(s[..|s|]) == MaxNesting(s);
      } else {
        assert Depth(s[..j]) == MaxNesting(s);
      }
    }
  }

  /** `validate_query_depth` accepts exactly the queries whose depth never exceeds the limit. */
  lemma DepthLimitMeaning(query: string, maxDepth: int)
    ensures MaxNesting(query) <= maxDepth <==> forall k :: 0 <= k <= |query| ==> Depth(query[..k]) <= maxDepth
  {
    MaxNestingMeaning(query);
  }

  /** `validate_query_depth`: the counter loop. */
  method ValidateQueryDepth(query: string, maxDepth: int) returns (ok: bool)
    ensures ok <==> MaxNesting(query) <= maxDepth
  {
    var depth := 0;
    var maxFound := 0;
    for i := 0 to |query|
      invariant depth == Depth(query[..i])
      invariant maxFound == MaxNesting(query[..i])
    {
      assert query[..i + 1][..i] == query[..i];
      if query[i] == '{' {
        depth := depth + 1;
        maxFound := Max(maxFound, depth);
      } else if query[i] == '}' {
        depth := depth - 1;
      }
    }
    assert query[..|query|] == query;
    ok := maxFound <= maxDepth;
  }

  // ---------------------------------------------------------------------------
  // Query complexity
  // ---------------------------------------------------------------------------

  predicate IsWordChar(c: char)
  {
    IsAlnum(c) || c == '_'
  }

  /** The length of the run of word characters at the start of `s`. */
  function WordLen(s: string): (n: nat)
    ensures n <= |s|
    ensures forall k :: 0 <= k < n ==> IsWordChar(s[k])
    ensures n < |s| ==> !IsWordChar(s[n])
  {
    if s != [] && IsWordChar(s[0]) then 1 + WordLen(s[1..]) else 0
  }

  lemma {:induction false} WordLenUnique(s: string, n: nat)
    requires n <= |s| && (forall k :: 0 <= k < n ==> IsWordChar(s[k])) && (n < |s| ==> !IsWordChar(s[n]))
    ensures WordLen(s) == n
  {
    if n > 0 {
      WordLenUnique(s[1..], n - 1);
    }
  }

  /**
   * The count of `validate_query_complexity`: a letter starts a field, which
   * runs over the following word characters; the loop's own step then passes
   * over the character after it.
   */
  function Complexity(s: string): nat
    decreases |s|
  {
    if s == [] then 0
    else if IsAlpha(s[0]) then
      var w := WordLen(s);
      1 + (if w < |s| then Complexity(s[w + 1..]) else 0)
    else Complexity(s[1..])
  }

  /** The maximal runs of word characters that hold at least one letter. */
  function LetterRuns(s: string): nat
    decreases |s|
  {
    if s == [] then 0
    else if !IsWordChar(s[0]) then LetterRuns(s[1..])
    else
      var w := WordLen(s);
      (if exists k :: 0 <= k < w && IsAlpha(s[k]) then 1 else 0) + LetterRuns(s[w..])
  }

  /**
   * A field is a maximal run of letters, digits and underscores holding a
   * letter: a run that starts with digits or '_' counts from its first letter.
   */
  lemma {:induction false} ComplexityCountsRuns(s: string)
    ensures Complexity(s) == LetterRuns(s)
    decreases |s|
  {
    if s != [] {
      if IsAlpha(s[0]) {
        var w := WordLen(s);
        assert IsAlpha(s[0]) && 0 < w;
        if w < |s| {
          ComplexityCountsRuns(s[w + 1..]);
          assert s[w..][1..] == s[w + 1..];
          assert !IsWordChar(s[w..][0]);
        } else {
          assert s[w..] == [];
        }
      } else if !IsWordChar(s[0]) {
        ComplexityCountsRuns(s[1..]);
      } else {
        ComplexityCountsRuns(s[1..]);
        RunTail(s);
      }
    }
  }

  /** Dropping a leading digit or '_' keeps the run count. */
  lemma RunTail(s: string)
    requires s != [] && IsWordChar(s[0]) && !IsAlpha(s[0])
    ensures LetterRuns(s[1..]) == LetterRuns(s)
  {
    var w := WordLen(s);
    var t := s[1..];
    if w == 1 {
      assert s[w..] == t;
      assert !(exists k :: 0 <= k < w && IsAlpha(s[k]));
      if t != [] {
        assert !IsWordChar(t[0]);
      }
    } else {
      WordLenUnique(t, w - 1);
      assert t[w - 1..] == s[w..];
      assert (exists k :: 0 <= k < w && IsAlpha(s[k])) <==> (exists k :: 0 <= k < w - 1 && IsAlpha(t[k])) by {
        if exists k :: 0 <= k < w && IsAlpha(s[k]) {
          var k :| 0 <= k < w && IsAlpha(s[k]);
          assert k > 0 && t[k - 1] == s[k];
        }
        if exists k :: 0 <= k < w - 1 && IsAlpha(t[k]) {
          var k :| 0 <= k < w - 1 && IsAlpha(t[k]);
          assert s[k + 1] == t[k];
        }
      }
    }
  }

  /** `validate_query_complexity`: the scanning loop. */
  method ValidateQueryComplexity(query: string, maxComplexity: int) returns (ok: bool)
    ensures ok <==> Complexity(query) <= maxComplexity
  {
    var complexity := 0;
    var i := 0;
    while i < |query|
      invariant 0 <= i <= |query|
      invariant complexity + Complexity(query[i..]) == Complexity(query)
    {
      if IsAlpha(query[i]) {
        complexity := complexity + 1;
        var start := i;
        while i < |query| && IsWordChar(query[i])
          invariant start <= i <= |query|
          invariant forall k :: start <= k < i ==> IsWordChar(query[k])
        {
          i := i + 1;
        }
        WordLenUnique(query[start..], i - start);
        if i < |query| {
          assert query[start..][i - start + 1..] == query[i + 1..];
          i := i + 1;
        }
      } else {
        assert query[i..][1..] == query[i + 1..];
        i := i + 1;
      }
    }
    ok := complexity <= maxComplexity;
  }

  /** One field inside braces. */
  lemma ComplexityExample()
    ensures Complexity("{ id }") == 1
  {
    var s := "{ id }";
    assert s[1..] == " id }" && s[2..] == "id }";
    assert WordLen(s[2..]) == 2 by { WordLenUnique(s[2..], 2); }
    assert s[2..][3..] == "}";
  }

  /** A run that starts with a digit still counts once, from its letter. */
  lemma DigitLedRunCounts()
    ensures Complexity("1a") == 1
  {
    assert "1a"[1..] == "a";
    assert WordLen("a") == 1;
  }

  // ---------------------------------------------------------------------------
  // Requests and responses
  // ---------------------------------------------------------------------------

  datatype OperationType = Query | Mutation | Subscription

  datatype Status = Success | Error | ValidationError | ExecutionError | TimeoutError
  {
    function Code(): int
    {
      match this
      case Success => 0
      case Error => 1
      case ValidationError => 2
      case ExecutionError => 3
      case TimeoutError => 4
    }
  }

  datatype Request = Request(query: string, operationType: OperationType)

  /** The text between the first two quotes after `"query":`, or "" when there is none. */
  function QueryText(data: string): (q: string)
    ensures q != [] ==> Contains(data, "\"query\":")
    ensures '"' !in q
  {
    ContainsIffIndexOf(data, "\"query\":");
    var pos := IndexOf(data, "\"query\":", 0);
    if pos < 0 then []
    else
      var start := FindChar(data, '"', pos + 8);
      if start < 0 then []
      else
        var end := FindChar(data, '"', start + 1);
        FindCharMeaning(data, '"', start + 1);
        if end < 0 then [] else data[start + 1..end]
  }

  /** The operation a query names: "subscription" first, then "mutation". */
  function Classify(query: string): (t: OperationType)
    ensures t == Subscription <==> Contains(query, "subscription")
    ensures t == Mutation <==> !Contains(query, "subscription") && Contains(query, "mutation")
  {
    ContainsIffIndexOf(query, "subscription");
    ContainsIffIndexOf(query, "mutation");
    if IndexOf(query, "subscription", 0) >= 0 then Subscription
    else if IndexOf(query, "mutation", 0) >= 0 then Mutation
    else Query
  }

  /** `parse_graphql_request`: fails when no non-empty query text is found. */
  function ParseRequest(data: string): (r: Option<Request>)
    ensures r.Some? <==> QueryText(data) != []
    ensures r.Some? ==> r.value.query == QueryText(data) && r.value.operationType == Classify(r.value.query)
    ensures !Contains(data, "\"query\":") ==> r.None?
  {
    var q := QueryText(data);
    if q == [] then None else Some(Request(q, Classify(q)))
  }

  lemma ParseExample()
    ensures ParseRequest("\"query\":\"a\"") == Some(Request("a", Query))
  {
    var d := "\"query\":\"a\"";
    assert d[0..8] == "\"query\":";
    assert FindChar(d, '"', 8) == 8;
    FindCharFirst(d, '"', 9, 10);
    assert d[9..10] == "a";
    ContainsIffIndexOf("a", "subscription");
    ContainsIffIndexOf("a", "mutation");
  }

  datatype Response = Response(status: Status, data: string, errors: seq<string>,
                               extensions: seq<(string, string)>)

  /** The server settings `handle_request` reads. */
  datatype ServerConfig = ServerConfig(introspectionEnabled: bool, maxQueryDepth: int, maxQueryComplexity: int)

  function DefaultServerConfig(): (c: ServerConfig)
    ensures c.introspectionEnabled && c.maxQueryDepth == 15 && c.maxQueryComplexity == 1000
  {
    ServerConfig(true, 15, 1000)
  }

  const DefaultData := "{\"data\": {\"hello\": \"World\"}}"

  predicate IsIntrospection(query: string)
  {
    Contains(query, "__schema") || Contains(query, "__type")
  }

  /**
   * `GraphQLServer::handle_request`.  `introspection` is the schema's
   * introspection text, None when no schema is loaded.
   */
  function HandleRequest(config: ServerConfig, query: string, introspection: Option<string>): (r: Response)
    ensures r.extensions == []
    ensures MaxNesting(query) > config.maxQueryDepth ==>
      r == Response(ValidationError, "", ["Query depth exceeds maximum allowed"], [])
    ensures MaxNesting(query) <= config.maxQueryDepth && Complexity(query) > config.maxQueryComplexity ==>
      r == Response(ValidationError, "", ["Query complexity exceeds maximum allowed"], [])
    ensures r.status == ValidationError <==>
      MaxNesting(query) > config.maxQueryDepth || Complexity(query) > config.maxQueryComplexity
    ensures r.status != ValidationError && IsIntrospection(query) && !config.introspectionEnabled ==>
      r == Response(Error, "", ["Introspection is disabled"], [])
    ensures r.status == Success <==> r.errors == []
    ensures r.status == Success && !IsIntrospection(query) ==> r.data == DefaultData
  {
    if MaxNesting(query) > config.maxQueryDepth then
      Response(ValidationError, "", ["Query depth exceeds maximum allowed"], [])
    else if Complexity(query) > config.maxQueryComplexity then
      Response(ValidationError, "", ["Query complexity exceeds maximum allowed"], [])
    else if IsIntrospection(query) then
      if !config.introspectionEnabled then Response(Error, "", ["Introspection is disabled"], [])
      else match introspection
        case Some(text) => Response(Success, text, [], [])
        case None => Response(Error, "", ["Introspection query failed"], [])
    else Response(Success, DefaultData, [], [])
  }

  /** The limits apply before the introspection switch is consulted. */
  lemma LimitsBeforeIntrospection(config: ServerConfig, query: string, introspection: Option<string>)
    requires !config.introspectionEnabled && IsIntrospection(query)
    requires Complexity(query) > config.maxQueryComplexity
    ensures HandleRequest(config, query, introspection).status == ValidationError
  {
  }

  function ErrorItems(errors: seq<string>): string
    decreases |errors|
  {
    if errors == [] then []
    else
      var item := "{\"message\":\"" + errors[0] + "\"}";
      (if |errors| > 1 then item + "," else item) + ErrorItems(errors[1..])
  }

  function ExtensionItems(extensions: seq<(string, string)>): string
    decreases |extensions|
  {
    if extensions == [] then []
    else
      var item := "\"" + extensions[0].0 + "\":\"" + extensions[0].1 + "\"";
      (if |extensions| > 1 then item + "," else item) + ExtensionItems(extensions[1..])
  }

  /** The members of the response object, in the order they are written. */
  function ResponseFields(r: Response): (fields: string)
    ensures r.status == Success ==> "\"data\":" + r.data <= fields
    ensures r.status != Success && r.errors != [] ==> "\"errors\":[" <= fields
    ensures r.status != Success && r.errors == [] && r.extensions == [] ==> fields == []
  {
    var dataPart := if r.status == Success then "\"data\":" + r.data else "";
    var errorPart :=
      if r.errors == [] then ""
      else (if r.status == Success then "," else "") + "\"errors\":[" + ErrorItems(r.errors) + "]";
    var extPart := if r.extensions == [] then "" else ",\"extensions\":{" + ExtensionItems(r.extensions) + "}";
    dataPart + (errorPart + extPart)
  }

  /**
   * `format_graphql_response`: "data" for a success, then the "errors" list,
   * then the "extensions" object (taken in key order).  Messages are written
   * without escaping.
   */
  function FormatResponse(r: Response): (text: string)
    ensures |text| >= 2 && text[0] == '{' && text[|text| - 1] == '}'
    ensures RestHandler.IsValidJson(text)
    ensures r.status == Success ==> "{\"data\":" + r.data <= text
    ensures r.status != Success && r.errors != [] ==> "{\"errors\":[" <= text
  {
    var fields := ResponseFields(r);
    var text := "{" + fields + "}";
    assert r.status == Success ==> "{\"data\":" + r.data <= "{" + fields;
    assert r.status != Success && r.errors != [] ==> "{\"errors\":[" <= "{" + fields;
    text
  }

  /**
   * `GraphQLManager::handle_graphql_request` once the socket's server is
   * found: the response it formats, or None when parsing fails.  `subscribed`
   * is whether creating the subscription succeeded.
   */
  function HandleGraphqlRequest(config: ServerConfig, data: string, introspection: Option<string>,
                                subscribed: bool): (r: Option<Response>)
    ensures r.None? <==> ParseRequest(data).None?
    ensures r.Some? && ParseRequest(data).value.operationType == Subscription ==>
      r.value.status == (if subscribed then Success else Error)
    ensures r.Some? && ParseRequest(data).value.operationType != Subscription ==>
      r.value == HandleRequest(config, ParseRequest(data).value.query, introspection)
  {
    match ParseRequest(data)
    case None => None
    case Some(request) =>
      if request.operationType == Subscription then
        if subscribed then Some(Response(Success, "{\"data\": {\"subscription\": \"created\"}}", [], []))
        else Some(Response(Error, "", ["Failed to create subscription"], []))
      else Some(HandleRequest(config, request.query, introspection))
  }

  /** A subscription skips the depth and complexity limits. */
  lemma SubscriptionBypassesLimits(config: ServerConfig, data: string, introspection: Option<string>)
    requires ParseRequest(data).Some? && ParseRequest(data).value.operationType == Subscription
    ensures HandleGraphqlRequest(config, data, introspection, true).value.status == Success
  {
  }

  // ---------------------------------------------------------------------------
  // The server object
  // ---------------------------------------------------------------------------

  /**
   * `GraphQLServer`: its switches and limits.  `introspection` is the text the
   * schema object answers introspection with, None before any schema is set.
   */
  class Server {
    var configured: bool
    var introspectionEnabled: bool
    var playgroundEnabled: bool
    var subscriptionsEnabled: bool
    var maxQueryDepth: int
    var maxQueryComplexity: int
    var timeoutMs: int
    var introspection: Option<string>

    constructor ()
      ensures !configured && introspectionEnabled && playgroundEnabled && subscriptionsEnabled
      ensures maxQueryDepth == 15 && maxQueryComplexity == 1000 && timeoutMs == 30000
      ensures introspection.None?
      ensures Config() == DefaultServerConfig()
    {
      configured := false;
      introspectionEnabled := true;
      playgroundEnabled := true;
      subscriptionsEnabled := true;
      maxQueryDepth := 15;
      maxQueryComplexity := 1000;
      timeoutMs := 30000;
      introspection := None;
    }

    /** The settings `handle_request` consults. */
    function Config(): (c: ServerConfig)
      reads this
      ensures c.introspectionEnabled == introspectionEnabled
      ensures c.maxQueryDepth == maxQueryDepth && c.maxQueryComplexity == maxQueryComplexity
    {
      ServerConfig(introspectionEnabled, maxQueryDepth, maxQueryComplexity)
    }

    /**
     * `set_schema`: the server keeps the new schema object whether or not its
     * text loads, so introspection is answered from then on; `answer` is that
     * object's introspection text.
     */
    method SetSchema(answer: string)
      modifies this
      ensures introspection == Some(answer)
      ensures configured == old(configured) && Config() == old(Config())
      ensures timeoutMs == old(timeoutMs) && playgroundEnabled == old(playgroundEnabled)
      ensures subscriptionsEnabled == old(subscriptionsEnabled)
    {
      introspection := Some(answer);
    }

    method EnableIntrospection(enabled: bool)
      modifies this
      ensures introspectionEnabled == enabled
      ensures Config() == old(Config()).(introspectionEnabled := enabled)
      ensures configured == old(configured) && introspection == old(introspection)
      ensures timeoutMs == old(timeoutMs) && playgroundEnabled == old(playgroundEnabled)
      ensures subscriptionsEnabled == old(subscriptionsEnabled)
    {
      introspectionEnabled := enabled;
    }

    method EnablePlayground(enabled: bool)
      modifies this
      ensures playgroundEnabled == enabled
      ensures configured == old(configured) && introspection == old(introspection) && Config() == old(Config())
      ensures timeoutMs == old(timeoutMs) && subscriptionsEnabled == old(subscriptionsEnabled)
    {
      playgroundEnabled := enabled;
    }

    method EnableSubscriptions(enabled: bool)
      modifies this
      ensures subscriptionsEnabled == enabled
      ensures configured == old(configured) && introspection == old(introspection) && Config() == old(Config())
      ensures timeoutMs == old(timeoutMs) && playgroundEnabled == old(playgroundEnabled)
    {
      subscriptionsEnabled := enabled;
    }

    method SetMaxQueryDepth(depth: int)
      modifies this
      ensures Config() == old(Config()).(maxQueryDepth := depth)
      ensures configured == old(configured) && introspection == old(introspection)
      ensures timeoutMs == old(timeoutMs) && playgroundEnabled == old(playgroundEnabled)
      ensures subscriptionsEnabled == old(subscriptionsEnabled)
    {
      maxQueryDepth := depth;
    }

    method SetMaxQueryComplexity(complexity: int)
      modifies this
      ensures Config() == old(Config()).(maxQueryComplexity := complexity)
      ensures configured == old(configured) && introspection == old(introspection)
      ensures timeoutMs == old(timeoutMs) && playgroundEnabled == old(playgroundEnabled)
      ensures subscriptionsEnabled == old(subscriptionsEnabled)
    {
      maxQueryComplexity := complexity;
    }

    method SetTimeout(ms: int)
      modifies this
      ensures timeoutMs == ms
      ensures configured == old(configured) && introspection == old(introspection) && Config() == old(Config())
      ensures playgroundEnabled == old(playgroundEnabled) && subscriptionsEnabled == old(subscriptionsEnabled)
    {
      timeoutMs := ms;
    }

    /**
     * `configure` with an option manager: each option the manager holds is
     * applied (a non-zero integer switches a feature on), the others are kept.
     */
    method Configure(schema: Option<string>, introspectionOpt: Option<int>, playgroundOpt: Option<int>,
                     maxDepth: Option<int>, maxComplexity: Option<int>, timeout: Option<int>)
      modifies this
      ensures configured
      ensures introspection == (if schema.Some? then schema else old(introspection))
      ensures introspectionEnabled == (if introspectionOpt.Some? then introspectionOpt.value != 0 else old(introspectionEnabled))
      ensures playgroundEnabled == (if playgroundOpt.Some? then playgroundOpt.value != 0 else old(playgroundEnabled))
      ensures maxQueryDepth == (if maxDepth.Some? then maxDepth.value else old(maxQueryDepth))
      ensures maxQueryComplexity == (if maxComplexity.Some? then maxComplexity.value else old(maxQueryComplexity))
      ensures timeoutMs == (if timeout.Some? then timeout.value else old(timeoutMs))
      ensures subscriptionsEnabled == old(subscriptionsEnabled)
    {
      if schema.Some? {
        SetSchema(schema.value);
      }
      if introspectionOpt.Some? {
        EnableIntrospection(introspectionOpt.value != 0);
      }
      if playgroundOpt.Some? {
        EnablePlayground(playgroundOpt.value != 0);
      }
      if maxDepth.Some? {
        SetMaxQueryDepth(maxDepth.value);
      }
      if maxComplexity.Some? {
        SetMaxQueryComplexity(maxComplexity.value);
      }
      if timeout.Some? {
        SetTimeout(timeout.value);
      }
      configured := true;
    }

    /** `handle_request` on this server's settings. */
    method Handle(query: string) returns (r: Response)
      ensures r == HandleRequest(Config(), query, introspection)
    {
      var depthOk := ValidateQueryDepth(query, maxQueryDepth);
      if !depthOk {
        return Response(ValidationError, "", ["Query depth exceeds maximum allowed"], []);
      }
      var complexityOk := ValidateQueryComplexity(query, maxQueryComplexity);
      if !complexityOk {
        return Response(ValidationError, "", ["Query complexity exceeds maximum allowed"], []);
      }
      ContainsIffIndexOf(query, "__schema");
      ContainsIffIndexOf(query, "__type");
      if IndexOf(query, "__schema", 0) >= 0 || IndexOf(query, "__type", 0) >= 0 {
        if !introspectionEnabled {
          return Response(Error, "", ["Introspection is disabled"], []);
        }
        match introspection
        case Some(text) => return Response(Success, text, [], []);
        case None => return Response(Error, "", ["Introspection query failed"], []);
      }
      return Response(Success, DefaultData, [], []);
    }
  }
}
