/**
 * The REST handler of the unified socket package (`RESTHandler`): a table of
 * routes searched in insertion order, named middleware, the CORS switch, and
 * the text helpers it applies to requests and responses (route-pattern
 * normalisation, query-string splitting, content-type detection, the JSON
 * body check and JSON string escaping).
 *
 * Strings hold the bytes of a `std::string` (`HttpServer.IsBytes`).  Regular
 * expression matching of a compiled route against a path is a parameter.
 */
module RestHandler {
  import opened Text
  import opened Wrappers
  import HttpServer
  import RestRouter
  import Rest

  // ---------------------------------------------------------------------------
  // JSON bodies
  // ---------------------------------------------------------------------------

  const MaxJsonSize: nat := 1048576

  /** The shape test of `is_valid_json`: empty, or wrapped in {} or in []. */
  function IsValidJson(s: string): (ok: bool)
    ensures ok <==> s == [] || (s[0] == '{' && s[|s| - 1] == '}') || (s[0] == '[' && s[|s| - 1] == ']')
    ensures ok && s != [] ==> |s| >= 1
  {
    if s == [] then true
    else
      var first, last := s[0], s[|s| - 1];
      (first == '{' && last == '}') || (first == '[' && last == ']')
  }

  /**
   * The error `parse_json_body` records, or None when it accepts the body.
   * `parses` is whether the body converts to a mapping.
   */
  function JsonBodyError(body: string, parses: bool): (r: Option<string>)
    ensures r == None <==> body == [] || (|body| <= MaxJsonSize && IsValidJson(body) && parses)
    ensures body != [] && |body| > MaxJsonSize ==> r == Some("JSON body exceeds maximum size limit")
    ensures body != [] && |body| <= MaxJsonSize && !IsValidJson(body) ==> r == Some("Invalid JSON syntax in request body")
  {
    if body == [] then None
    else if |body| > MaxJsonSize then Some("JSON body exceeds maximum size limit")
    else if !IsValidJson(body) then Some("Invalid JSON syntax in request body")
    else if !parses then Some("Failed to parse JSON body to mapping")
    else None
  }

  /** A body of two characters that is not a bracket pair is refused; "{}" and "[]" pass. */
  lemma JsonShapeExamples()
    ensures IsValidJson("{}") && IsValidJson("[]") && IsValidJson("")
    ensures !IsValidJson("{]") && !IsValidJson("x")
    ensures JsonBodyError("{\"a\":1}", true) == None
  {
  }

  // ---------------------------------------------------------------------------
  // Content types
  // ---------------------------------------------------------------------------

  datatype ContentType = Json | Xml | Form | PlainText | Binary | Multipart | Unknown
  {
    /** The `rest_content_type` enumerator. */
    function Code(): int
    {
      match this
      case Json => 0
      case Xml => 1
      case Form => 2
      case PlainText => 3
      case Binary => 4
      case Multipart => 5
      case Unknown => 99
    }
  }

  /**
   * `detect_content_type`: the lower-cased "Content-Type" header is searched
   * for json, then xml, then form, then "text/", then "multipart/".
   */
  function DetectContentType(headers: map<string, string>): (t: ContentType)
    ensures "Content-Type" !in headers ==> t == Unknown
    ensures "Content-Type" in headers ==>
      var v := Lower(headers["Content-Type"]);
      (t == Json <==> Contains(v, "application/json"))
      && (t == Xml <==> !Contains(v, "application/json") && Contains(v, "application/xml"))
      && (t == Form <==> !Contains(v, "application/json") && !Contains(v, "application/xml")
                         && Contains(v, "application/x-www-form-urlencoded"))
      && (t == PlainText <==> !Contains(v, "application/json") && !Contains(v, "application/xml")
                              && !Contains(v, "application/x-www-form-urlencoded") && Contains(v, "text/"))
      && (t == Multipart <==> !Contains(v, "application/json") && !Contains(v, "application/xml")
                              && !Contains(v, "application/x-www-form-urlencoded") && !Contains(v, "text/")
                              && Contains(v, "multipart/"))
    ensures t != Binary
  {
    if "Content-Type" !in headers then Unknown
    else
      var v := Lower(headers["Content-Type"]);
      ContainsIffIndexOf(v, "application/json");
      ContainsIffIndexOf(v, "application/xml");
      ContainsIffIndexOf(v, "application/x-www-form-urlencoded");
      ContainsIffIndexOf(v, "text/");
      ContainsIffIndexOf(v, "multipart/");
      if IndexOf(v, "application/json", 0) >= 0 then Json
      else if IndexOf(v, "application/xml", 0) >= 0 then Xml
      else if IndexOf(v, "application/x-www-form-urlencoded", 0) >= 0 then Form
      else if IndexOf(v, "text/", 0) >= 0 then PlainText
      else if IndexOf(v, "multipart/", 0) >= 0 then Multipart
      else Unknown
  }

  // ---------------------------------------------------------------------------
  // Query strings
  // ---------------------------------------------------------------------------

  /** The text after the first '=' of a pair, taken as it is (no decoding). */
  function RawValue(pair: string): string
  {
    var k := IndexOf(pair, "=", 0);
    if k < 0 then "" else pair[k + 1..]
  }

  /** The pairs stored one after the other; a pair without '=' is skipped. */
  function PairsAdded(m: map<string, string>, pairs: seq<string>): map<string, string>
    decreases |pairs|
  {
    if pairs == [] then m
    else
      var m' := match Rest.KeyOf(pairs[0])
        case None => m
        case Some(key) => m[key := RawValue(pairs[0])];
      PairsAdded(m', pairs[1..])
  }

  /** The query parameters `parse_query_parameters` adds to `params`. */
  function QueryAdded(params: map<string, string>, query: string): map<string, string>
  {
    PairsAdded(params, Getline(query, '&'))
  }

  /** `parse_query_parameters`: it always succeeds. */
  method ParseQueryParameters(query: string, params0: map<string, string>)
    returns (ok: bool, params: map<string, string>)
    ensures ok
    ensures params == QueryAdded(params0, query)
  {
    ok := true;
    params := params0;
    if query == [] {
      return;
    }
    var pairs := Getline(query, '&');
    var i := 0;
    while i < |pairs|
      invariant 0 <= i <= |pairs|
      invariant PairsAdded(params, pairs[i..]) == QueryAdded(params0, query)
    {
      assert pairs[i..][1..] == pairs[i + 1..];
      var pair := pairs[i];
      var eq := IndexOf(pair, "=", 0);
      if eq >= 0 {
        params := params[pair[..eq] := pair[eq + 1..]];
      }
      i := i + 1;
    }
  }

  /** A key is present iff it was already there or some pair with '=' names it. */
  lemma {:induction false} PairsAddedKeys(m: map<string, string>, pairs: seq<string>, key: string)
    ensures key in PairsAdded(m, pairs) <==>
      key in m || exists j :: 0 <= j < |pairs| && Rest.KeyOf(pairs[j]) == Some(key)
    decreases |pairs|
  {
    if pairs != [] {
      var m' := match Rest.KeyOf(pairs[0])
        case None => m
        case Some(k) => m[k := RawValue(pairs[0])];
      PairsAddedKeys(m', pairs[1..], key);
      if exists j :: 0 <= j < |pairs| && Rest.KeyOf(pairs[j]) == Some(key) {
        var j :| 0 <= j < |pairs| && Rest.KeyOf(pairs[j]) == Some(key);
        if j > 0 {
          assert pairs[1..][j - 1] == pairs[j];
        }
      }
      if exists j :: 0 <= j < |pairs[1..]| && Rest.KeyOf(pairs[1..][j]) == Some(key) {
        var j :| 0 <= j < |pairs[1..]| && Rest.KeyOf(pairs[1..][j]) == Some(key);
        assert pairs[j + 1] == pairs[1..][j];
      }
    }
  }

  /** Pairs that do not name `key` leave its entry as it was. */
  lemma {:induction false} PairsAddedUntouched(m: map<string, string>, pairs: seq<string>, key: string)
    requires forall i :: 0 <= i < |pairs| ==> Rest.KeyOf(pairs[i]) != Some(key)
    ensures key in PairsAdded(m, pairs) <==> key in m
    ensures key in m ==> PairsAdded(m, pairs)[key] == m[key]
    decreases |pairs|
  {
    if pairs != [] {
      var m' := match Rest.KeyOf(pairs[0])
        case None => m
        case Some(k) => m[k := RawValue(pairs[0])];
      PairsAddedUntouched(m', pairs[1..], key);
    }
  }

  /** The last pair naming a key decides its value: later duplicates overwrite earlier ones. */
  lemma {:induction false} PairsAddedLastWins(m: map<string, string>, pairs: seq<string>, j: nat, key: string)
    requires j < |pairs| && Rest.KeyOf(pairs[j]) == Some(key)
    requires forall i :: j < i < |pairs| ==> Rest.KeyOf(pairs[i]) != Some(key)
    ensures key in PairsAdded(m, pairs) && PairsAdded(m, pairs)[key] == RawValue(pairs[j])
    decreases |pairs|
  {
    var m' := match Rest.KeyOf(pairs[0])
      case None => m
      case Some(k) => m[k := RawValue(pairs[0])];
    if j == 0 {
      PairsAddedUntouched(m', pairs[1..], key);
    } else {
      forall i | j - 1 < i < |pairs[1..]|
        ensures Rest.KeyOf(pairs[1..][i]) != Some(key)
      {
        assert pairs[1..][i] == pairs[i + 1];
      }
      PairsAddedLastWins(m', pairs[1..], j - 1, key);
    }
  }

  /** Values are stored as they arrive: "%20" is not decoded. */
  lemma QueryExample()
    ensures QueryAdded(map[], "q=x%20y") == map["q" := "x%20y"]
  {
    var pair := "q=x%20y";
    SplitWhole(pair, '&');
    var pairs := Getline(pair, '&');
    assert pairs == [pair];
    assert IndexOf(pair, "=", 0) == 1 by {
      assert pair[0..1] == "q" && pair[1..2] == "=";
    }
    assert Rest.KeyOf(pair) == Some("q");
    assert RawValue(pair) == "x%20y";
    assert pairs[1..] == [];
  }

  // ---------------------------------------------------------------------------
  // JSON string escaping
  // ---------------------------------------------------------------------------

  function Hex2(n: nat): (r: string)
    requires n < 256
    ensures |r| == 2 && IsHexDigit(r[0]) && IsHexDigit(r[1])
    ensures 16 * HttpServer.HexValue(r[0]) + HttpServer.HexValue(r[1]) == n
  {
    [HttpServer.HexDigit(n / 16), HttpServer.HexDigit(n % 16)]
  }

  /**
   * The escape of one byte: the two-character escapes for '"', '\\', and the
   * backspace, form feed, newline, carriage return and tab control characters,
   * `\u` and four hex digits for the other bytes below 32, the byte itself otherwise.
   */
  function Escaped(c: char): (r: string)
    requires c as int < 256
    ensures r != [] && forall k :: 0 <= k < |r| ==> r[k] as int >= 32
    ensures r == [c] <==> 32 <= c as int && c != '"' && c != '\\'
  {
    if c == '"' then "\\\""
    else if c == '\\' then "\\\\"
    else if c as int == 8 then "\\b"
    else if c as int == 12 then "\\f"
    else if c == '\n' then "\\n"
    else if c == '\r' then "\\r"
    else if c == '\t' then "\\t"
    else if c as int < 32 then "\\u00" + Hex2(c as int)
    else [c]
  }

  /** The escaped text of a whole string; no character of it is a control character. */
  function JsonEscaped(s: string): (r: string)
    requires HttpServer.IsBytes(s)
    ensures forall k :: 0 <= k < |r| ==> r[k] as int >= 32
    ensures |r| >= |s|
  {
    if s == [] then [] else Escaped(s[0]) + JsonEscaped(s[1..])
  }

  /** `escape_json_string`, with `char` taken as unsigned (see `EscapedAsWritten`). */
  method EscapeJsonString(input: string) returns (escaped: string)
    requires HttpServer.IsBytes(input)
    ensures escaped == JsonEscaped(input)
  {
    escaped := [];
    var i := 0;
    while i < |input|
      invariant 0 <= i <= |input|
      invariant escaped + JsonEscaped(input[i..]) == JsonEscaped(input)
    {
      assert input[i..][1..] == input[i + 1..];
      escaped := escaped + Escaped(input[i]);
      i := i + 1;
    }
    assert input[|input|..] == [];
  }

  /**
   * One byte as `escape_json_string` writes it where `char` is signed: a byte
   * of 0x80 or more is a negative `char`, below 32, and `(int)c` printed in
   * hex is the eight digits "ffffff" and the byte.
   */
  function EscapedAsWritten(c: char): (r: string)
    requires c as int < 256
    ensures c as int < 128 ==> r == Escaped(c)
    ensures c as int >= 128 ==> |r| == 10 && r[..6] == "\\uffff"
  {
    if c as int >= 128 then "\\uffffff" + Hex2(c as int) else Escaped(c)
  }

  function JsonEscapedAsWritten(s: string): (r: string)
    requires HttpServer.IsBytes(s)
    ensures (forall k :: 0 <= k < |s| ==> s[k] as int < 128) ==> r == JsonEscaped(s)
  {
    if s == [] then [] else EscapedAsWritten(s[0]) + JsonEscapedAsWritten(s[1..])
  }

  /** The characters a JSON string may hold unescaped (section 7 of RFC 8259). */
  predicate Unescaped(c: char)
  {
    c as int >= 32 && c != '"' && c != '\\'
  }

  predicate HexQuad(t: string)
  {
    |t| == 4 && IsHexDigit(t[0]) && IsHexDigit(t[1]) && IsHexDigit(t[2]) && IsHexDigit(t[3])
  }

  /** The text between the quotes of a JSON string literal (section 7 of RFC 8259). */
  predicate JsonStringBody(t: string)
    decreases |t|
  {
    if t == [] then true
    else if Unescaped(t[0]) then JsonStringBody(t[1..])
    else if t[0] != '\\' || |t| < 2 then false
    else if t[1] in "\"\\/bfnrt" then JsonStringBody(t[2..])
    else t[1] == 'u' && |t| >= 6 && HexQuad(t[2..6]) && JsonStringBody(t[6..])
  }

  function QuadValue(t: string): nat
    requires HexQuad(t)
  {
    var h := HttpServer.HexValue;
    4096 * h(t[0]) + 256 * h(t[1]) + 16 * h(t[2]) + h(t[3])
  }

  function ShortEscapeValue(c: char): int
  {
    match c
    case '"' => 34
    case '\\' => 92
    case '/' => 47
    case 'b' => 8
    case 'f' => 12
    case 'n' => 10
    case 'r' => 13
    case _ => 9
  }

  /** The code units a JSON decoder reads from the body of a string literal. */
  function JsonStringValue(t: string): seq<int>
    requires JsonStringBody(t)
    decreases |t|
  {
    if t == [] then []
    else if Unescaped(t[0]) then [t[0] as int] + JsonStringValue(t[1..])
    else if t[1] in "\"\\/bfnrt" then [ShortEscapeValue(t[1])] + JsonStringValue(t[2..])
    else [QuadValue(t[2..6])] + JsonStringValue(t[6..])
  }

  function Codes(s: string): (r: seq<int>)
    ensures |r| == |s| && forall k :: 0 <= k < |s| ==> r[k] == s[k] as int
  {
    seq(|s|, k requires 0 <= k < |s| => s[k] as int)
  }

  /** One escaped byte in front of a string body is read back as that byte. */
  lemma EscapedStep(c: char, rest: string)
    requires c as int < 256 && JsonStringBody(rest)
    ensures JsonStringBody(Escaped(c) + rest)
    ensures JsonStringValue(Escaped(c) + rest) == [c as int] + JsonStringValue(rest)
  {
    var e := Escaped(c);
    var t := e + rest;
    if |e| == 1 {
      assert t[1..] == rest;
    } else if |e| == 2 {
      assert t[2..] == rest;
    } else {
      var h := Hex2(c as int);
      assert t[2..6] == "00" + h;
      assert t[6..] == rest;
    }
  }

  /** The escaped text is a valid JSON string body, and decoding it gives the input back. */
  lemma {:induction false} JsonEscapeRoundTrip(s: string)
    requires HttpServer.IsBytes(s)
    ensures JsonStringBody(JsonEscaped(s))
    ensures JsonStringValue(JsonEscaped(s)) == Codes(s)
  {
    if s != [] {
      JsonEscapeRoundTrip(s[1..]);
      EscapedStep(s[0], JsonEscaped(s[1..]));
    }
  }

  /**
   * With a signed `char`, the byte 0xC3 (the first byte of a UTF-8 "e" with acute accent) is
   * written as the ten characters `\uffffffc3`, which a JSON decoder reads as U+FFFF followed by
   * the four characters "ffc3".
   */
  lemma HighByteMangledAsWritten()
    ensures JsonEscapedAsWritten([0xC3 as char]) == "\\uffffffc3"
    ensures JsonStringBody("\\uffffffc3")
    ensures JsonStringValue("\\uffffffc3") == [0xFFFF, 'f' as int, 'f' as int, 'c' as int, '3' as int]
    ensures JsonStringValue("\\uffffffc3") != Codes([0xC3 as char])
  {
    var t := "\\uffffffc3";
    assert t[2..6] == "ffff";
    assert t[6..] == "ffc3";
    assert "ffc3"[1..] == "fc3";
    assert "fc3"[1..] == "c3";
    assert "c3"[1..] == "3";
  }

  // ---------------------------------------------------------------------------
  // Route patterns
  // ---------------------------------------------------------------------------

  /** `validate_route_pattern`: the parameter scan it performs decides nothing. */
  predicate ValidRoutePattern(p: string)
  {
    p != [] && p[0] == '/'
  }

  /** `normalize_route_pattern`: a leading '/' is added when missing, then one trailing '/' is dropped unless only "/" is left. */
  function NormalizeRoutePattern(p: string): (r: string)
    ensures ValidRoutePattern(r)
    ensures ValidRoutePattern(p) && (p == "/" || p[|p| - 1] != '/') ==> r == p
    ensures ValidRoutePattern(p) ==> r == p || r + "/" == p
    ensures !ValidRoutePattern(p) ==> r == "/" + p || r + "/" == "/" + p
    ensures r == "/" || r[|r| - 1] != '/' || (|p| >= 2 && p[|p| - 2..] == "//")
  {
    var q := if p == [] || p[0] != '/' then "/" + p else p;
    if |q| > 1 && q[|q| - 1] == '/' then q[..|q| - 1] else q
  }

  lemma NormalizeExamples()
    ensures NormalizeRoutePattern("api/users/") == "/api/users"
    ensures NormalizeRoutePattern("/users/{id}/") == "/users/{id}"
    ensures NormalizeRoutePattern("/") == "/"
    ensures NormalizeRoutePattern("") == "/"
  {
  }

  /**
   * The names of the `\{([^}]+)\}` matches, left to right: from a '{' the
   * name runs to the first '}' and must not be empty.
   */
  function ParamNames(s: string): (names: seq<string>)
    ensures forall k :: 0 <= k < |names| ==> names[k] != [] && '}' !in names[k]
    decreases |s|
  {
    if s == [] then []
    else if s[0] != '{' then ParamNames(s[1..])
    else
      var close := FindChar(s, '}', 1);
      FindCharMeaning(s, '}', 1);
      if close > 1 then [s[1..close]] + ParamNames(s[close + 1..])
      else ParamNames(s[1..])
  }

  /** Characters before the first '{' play no part. */
  lemma {:induction false} ParamNamesSkip(s: string, k: nat)
    requires k <= |s| && forall i :: 0 <= i < k ==> s[i] != '{'
    ensures ParamNames(s) == ParamNames(s[k..])
  {
    if k > 0 {
      assert s[1..][k - 1..] == s[k..];
      ParamNamesSkip(s[1..], k - 1);
    }
  }

  lemma ParamNamesExamples()
    ensures ParamNames("/users/{id}") == ["id"]
    ensures ParamNames("/a/{}/b") == []
  {
    var s := "/users/{id}";
    ParamNamesSkip(s, 7);
    var t := s[7..];
    assert t == "{id}";
    FindCharFirst(t, '}', 1, 3);
    assert t[1..3] == "id" && t[4..] == [];
    var w := "/a/{}/b";
    ParamNamesSkip(w, 3);
    var x := w[3..];
    assert x == "{}/b";
    assert FindChar(x, '}', 1) == 1;
    ParamNamesSkip(x[1..], 3);
    assert x[1..][3..] == [];
  }

  // ---------------------------------------------------------------------------
  // The route table
  // ---------------------------------------------------------------------------

  datatype Route = Route(
    id: int,
    verb: string,
    pattern: string,
    handlerObject: string,
    handlerFunction: string,
    description: string,
    paramNames: seq<string>)

  predicate IdsDistinct(routes: seq<Route>)
  {
    forall i, j :: 0 <= i < j < |routes| ==> routes[i].id != routes[j].id
  }

  /** Every stored route has a valid method and a normalised pattern. */
  predicate RoutesWellFormed(routes: seq<Route>)
  {
    forall i :: 0 <= i < |routes| ==>
      RestRouter.ValidMethod(routes[i].verb) && ValidRoutePattern(routes[i].pattern)
  }

  function MaxId(routes: seq<Route>): (m: nat)
    ensures forall i :: 0 <= i < |routes| ==> routes[i].id <= m
  {
    if routes == [] then 0
    else
      var m := MaxId(routes[..|routes| - 1]);
      var last := routes[|routes| - 1].id;
      if last > m then last else m
  }

  const InvalidRouteError := "Invalid method or route pattern"
  const CompileError := "Failed to compile route pattern"

  /** The route `add_route` would build with the given id. */
  function NewRoute(id: int, verb: string, pattern: string, handlerObject: string,
                    handlerFunction: string, description: string): Route
  {
    Route(id, verb, NormalizeRoutePattern(pattern), handlerObject, handlerFunction,
          description, ParamNames(pattern))
  }

  /**
   * `add_route` as written: the new id is the number of routes plus one.
   * `compiles` is whether the generated regular expression compiles.
   */
  function RouteAddedAsWritten(routes: seq<Route>, verb: string, pattern: string, handlerObject: string,
                               handlerFunction: string, description: string, compiles: bool)
    : (r: Result<seq<Route>, string>)
    ensures r.Ok? <==> RestRouter.ValidMethod(verb) && ValidRoutePattern(pattern) && compiles
    ensures r.Ok? ==> r.value == routes + [NewRoute(|routes| + 1, verb, pattern, handlerObject,
                                                    handlerFunction, description)]
  {
    if !RestRouter.ValidMethod(verb) || !ValidRoutePattern(pattern) then Err(InvalidRouteError)
    else if !compiles then Err(CompileError)
    else Ok(routes + [NewRoute(|routes| + 1, verb, pattern, handlerObject, handlerFunction, description)])
  }

  /**
   * `add_route` with the id one above the largest in use, so that ids stay
   * distinct after removals.
   */
  function RouteAdded(routes: seq<Route>, verb: string, pattern: string, handlerObject: string,
                      handlerFunction: string, description: string, compiles: bool)
    : (r: Result<seq<Route>, string>)
    ensures r.Ok? <==> RestRouter.ValidMethod(verb) && ValidRoutePattern(pattern) && compiles
    ensures r.Err? ==> r.error == (if RestRouter.ValidMethod(verb) && ValidRoutePattern(pattern)
                                   then CompileError else InvalidRouteError)
    ensures r.Ok? ==> |r.value| == |routes| + 1 && r.value[..|routes|] == routes
    ensures r.Ok? ==> var added := r.value[|routes|];
      added.verb == verb && added.pattern == NormalizeRoutePattern(pattern)
      && added.paramNames == ParamNames(pattern)
      && forall i :: 0 <= i < |routes| ==> routes[i].id < added.id
  {
    if !RestRouter.ValidMethod(verb) || !ValidRoutePattern(pattern) then Err(InvalidRouteError)
    else if !compiles then Err(CompileError)
    else
      var added := NewRoute(MaxId(routes) + 1, verb, pattern, handlerObject, handlerFunction, description);
      assert (routes + [added])[..|routes|] == routes;
      Ok(routes + [added])
  }

  lemma RouteAddedKeepsInvariant(routes: seq<Route>, verb: string, pattern: string, handlerObject: string,
                                 handlerFunction: string, description: string, compiles: bool)
    requires IdsDistinct(routes) && RoutesWellFormed(routes)
    ensures var r := RouteAdded(routes, verb, pattern, handlerObject, handlerFunction, description, compiles);
      r.Ok? ==> IdsDistinct(r.value) && RoutesWellFormed(r.value)
  {
    var r := RouteAdded(routes, verb, pattern, handlerObject, handlerFunction, description, compiles);
    if r.Ok? {
      var rs := r.value;
      forall i, j | 0 <= i < j < |rs|
        ensures rs[i].id != rs[j].id
      {
        if j < |routes| {
          assert rs[i] == routes[i] && rs[j] == routes[j];
        } else {
          assert rs[i] == routes[i];
        }
      }
      forall i | 0 <= i < |rs|
        ensures RestRouter.ValidMethod(rs[i].verb) && ValidRoutePattern(rs[i].pattern)
      {
        if i < |routes| {
          assert rs[i] == routes[i];
        }
      }
    }
  }

  /** The index of the first route satisfying the search of `remove_route`, or -1. */
  function IndexOfId(routes: seq<Route>, id: int): (k: int)
    ensures -1 <= k < |routes|
    ensures k >= 0 ==> routes[k].id == id && forall i :: 0 <= i < k ==> routes[i].id != id
    ensures k == -1 <==> forall i :: 0 <= i < |routes| ==> routes[i].id != id
    decreases |routes|
  {
    if routes == [] then -1
    else if routes[0].id == id then 0
    else
      var k := IndexOfId(routes[1..], id);
      assert forall i :: 1 <= i < |routes| ==> routes[i] == routes[1..][i - 1];
      if k < 0 then -1 else k + 1
  }

  function IndexOfPattern(routes: seq<Route>, verb: string, pattern: string): (k: int)
    ensures -1 <= k < |routes|
    ensures k >= 0 ==> routes[k].verb == verb && routes[k].pattern == pattern
    ensures k >= 0 ==> forall i :: 0 <= i < k ==> !(routes[i].verb == verb && routes[i].pattern == pattern)
    ensures k == -1 <==> forall i :: 0 <= i < |routes| ==> !(routes[i].verb == verb && routes[i].pattern == pattern)
    decreases |routes|
  {
    if routes == [] then -1
    else if routes[0].verb == verb && routes[0].pattern == pattern then 0
    else
      var k := IndexOfPattern(routes[1..], verb, pattern);
      assert forall i :: 1 <= i < |routes| ==> routes[i] == routes[1..][i - 1];
      if k < 0 then -1 else k + 1
  }

  function Without(routes: seq<Route>, k: int): (r: seq<Route>)
    requires 0 <= k < |routes|
    ensures |r| == |routes| - 1
    ensures forall i :: 0 <= i < k ==> r[i] == routes[i]
    ensures forall i :: k <= i < |r| ==> r[i] == routes[i + 1]
  {
    routes[..k] + routes[k + 1..]
  }

  /** Erasing one route keeps the others, and their ids distinct. */
  lemma WithoutKeeps(routes: seq<Route>, k: int)
    requires 0 <= k < |routes|
    ensures forall i :: 0 <= i < |Without(routes, k)| ==> Without(routes, k)[i] in routes
    ensures IdsDistinct(routes) ==> IdsDistinct(Without(routes, k))
  {
    var r := Without(routes, k);
    forall i | 0 <= i < |r|
      ensures r[i] in routes
    {
      if i >= k {
        assert r[i] == routes[i + 1];
      }
    }
    if IdsDistinct(routes) {
      forall i, j | 0 <= i < j < |r|
        ensures r[i].id != r[j].id
      {
        var i' := if i < k then i else i + 1;
        var j' := if j < k then j else j + 1;
        assert r[i] == routes[i'] && r[j] == routes[j'];
      }
    }
  }

  /** `remove_route(id)`: true iff some route has the id; the first such route is erased. */
  function RouteRemovedById(routes: seq<Route>, id: int): (r: (bool, seq<Route>))
    ensures r.0 <==> exists i :: 0 <= i < |routes| && routes[i].id == id
    ensures !r.0 ==> r.1 == routes
    ensures r.0 ==> |r.1| == |routes| - 1 && multiset(r.1) + multiset{routes[IndexOfId(routes, id)]} == multiset(routes)
    ensures IdsDistinct(routes) ==> IdsDistinct(r.1) && forall i :: 0 <= i < |r.1| ==> r.1[i].id != id
  {
    var k := IndexOfId(routes, id);
    if k < 0 then (false, routes)
    else
      assert routes == routes[..k] + [routes[k]] + routes[k + 1..];
      WithoutKeeps(routes, k);
      (true, Without(routes, k))
  }

  /** `remove_route(verb, pattern)`: the pattern is normalised before the search. */
  function RouteRemovedByPattern(routes: seq<Route>, verb: string, pattern: string): (r: (bool, seq<Route>))
    ensures var p := NormalizeRoutePattern(pattern);
      (r.0 <==> exists i :: 0 <= i < |routes| && routes[i].verb == verb && routes[i].pattern == p)
    ensures !r.0 ==> r.1 == routes
    ensures r.0 ==> |r.1| == |routes| - 1
    ensures IdsDistinct(routes) ==> IdsDistinct(r.1)
    ensures forall i :: 0 <= i < |r.1| ==> r.1[i] in routes
  {
    var k := IndexOfPattern(routes, verb, NormalizeRoutePattern(pattern));
    if k < 0 then (false, routes)
    else
      WithoutKeeps(routes, k);
      (true, Without(routes, k))
  }

  /** Removal keeps the table's invariant. */
  lemma RemovalKeepsWellFormed(routes: seq<Route>, id: int, verb: string, pattern: string)
    requires RoutesWellFormed(routes)
    ensures RoutesWellFormed(RouteRemovedById(routes, id).1)
    ensures RoutesWellFormed(RouteRemovedByPattern(routes, verb, pattern).1)
  {
    var a := RouteRemovedById(routes, id).1;
    forall i | 0 <= i < |a|
      ensures RestRouter.ValidMethod(a[i].verb) && ValidRoutePattern(a[i].pattern)
    {
      var k := IndexOfId(routes, id);
      if k >= 0 && i >= k {
        assert a[i] == routes[i + 1];
      } else {
        assert a[i] == routes[i];
      }
    }
    var b := RouteRemovedByPattern(routes, verb, pattern).1;
    forall i | 0 <= i < |b|
      ensures RestRouter.ValidMethod(b[i].verb) && ValidRoutePattern(b[i].pattern)
    {
      var k :| 0 <= k < |routes| && routes[k] == b[i];
    }
  }

  /**
   * With the id taken from the table size, adding two routes, removing the
   * first and adding a third leaves two routes with id 2, and `remove_route(2)`
   * then removes the older one.
   */
  lemma DuplicateIdAsWritten()
    ensures var r1 := RouteAddedAsWritten([], "GET", "/a", "o", "f", "", true).value;
      var r2 := RouteAddedAsWritten(r1, "GET", "/b", "o", "f", "", true).value;
      var r3 := RouteRemovedById(r2, 1).1;
      var r4 := RouteAddedAsWritten(r3, "GET", "/c", "o", "f", "", true).value;
      |r4| == 2 && r4[0].id == 2 && r4[1].id == 2 && !IdsDistinct(r4)
      && RouteRemovedById(r4, 2).1 == [r4[1]] && r4[1].pattern == "/c"
  {
    ExamplePatternNormal();
    DuplicateIdFor("/a", "/b", "/c");
  }

  /** `DuplicateIdAsWritten` for any three valid patterns. */
  lemma DuplicateIdFor(pa: string, pb: string, pc: string)
    requires ValidRoutePattern(pa) && ValidRoutePattern(pb) && ValidRoutePattern(pc)
    ensures var r1 := RouteAddedAsWritten([], "GET", pa, "o", "f", "", true).value;
      var r2 := RouteAddedAsWritten(r1, "GET", pb, "o", "f", "", true).value;
      var r3 := RouteRemovedById(r2, 1).1;
      var r4 := RouteAddedAsWritten(r3, "GET", pc, "o", "f", "", true).value;
      |r4| == 2 && r4[0].id == 2 && r4[1].id == 2 && !IdsDistinct(r4)
      && RouteRemovedById(r4, 2).1 == [r4[1]] && r4[1].pattern == NormalizeRoutePattern(pc)
  {
    var a := NewRoute(1, "GET", pa, "o", "f", "");
    var b := NewRoute(2, "GET", pb, "o", "f", "");
    var c := NewRoute(2, "GET", pc, "o", "f", "");
    ExampleAddedAsWritten([], pa);
    ExampleAddedAsWritten([a], pb);
    RemovedFirst(a, b);
    ExampleAddedAsWritten([b], pc);
    RemovedFirst(b, c);
  }

  /** An example route added as written, with method "GET". */
  lemma ExampleAddedAsWritten(routes: seq<Route>, pattern: string)
    requires ValidRoutePattern(pattern)
    ensures RouteAddedAsWritten(routes, "GET", pattern, "o", "f", "", true)
            == Ok(routes + [NewRoute(|routes| + 1, "GET", pattern, "o", "f", "")])
  {
    assert RestRouter.ValidMethod("GET");
  }

  /** An example route added with the corrected id, with method "GET". */
  lemma ExampleAdded(routes: seq<Route>, pattern: string)
    requires ValidRoutePattern(pattern)
    ensures RouteAdded(routes, "GET", pattern, "o", "f", "", true)
            == Ok(routes + [NewRoute(MaxId(routes) + 1, "GET", pattern, "o", "f", "")])
  {
    assert RestRouter.ValidMethod("GET");
  }

  /** Removing the first of two routes by its id leaves the second. */
  lemma RemovedFirst(x: Route, y: Route)
    ensures RouteRemovedById([x, y], x.id).1 == [y]
  {
    assert IndexOfId([x, y], x.id) == 0;
    assert Without([x, y], 0) == [y];
  }

  lemma ExamplePatternNormal()
    ensures NormalizeRoutePattern("/c") == "/c"
  {
    assert ValidRoutePattern("/c") && "/c"[1] != '/';
  }

  /** The same steps with `RouteAdded` give the third route id 3. */
  lemma DistinctIdCorrected()
    ensures var r1 := RouteAdded([], "GET", "/a", "o", "f", "", true).value;
      var r2 := RouteAdded(r1, "GET", "/b", "o", "f", "", true).value;
      var r3 := RouteRemovedById(r2, 1).1;
      var r4 := RouteAdded(r3, "GET", "/c", "o", "f", "", true).value;
      |r4| == 2 && IdsDistinct(r4) && RouteRemovedById(r4, 2).1 == [r4[1]] && r4[1].pattern == "/c"
  {
    ExamplePatternNormal();
    DistinctIdFor("/a", "/b", "/c");
  }

  /** `DistinctIdCorrected` for any three valid patterns. */
  lemma DistinctIdFor(pa: string, pb: string, pc: string)
    requires ValidRoutePattern(pa) && ValidRoutePattern(pb) && ValidRoutePattern(pc)
    ensures var r1 := RouteAdded([], "GET", pa, "o", "f", "", true).value;
      var r2 := RouteAdded(r1, "GET", pb, "o", "f", "", true).value;
      var r3 := RouteRemovedById(r2, 1).1;
      var r4 := RouteAdded(r3, "GET", pc, "o", "f", "", true).value;
      |r4| == 2 && IdsDistinct(r4) && RouteRemovedById(r4, 2).1 == [r4[1]]
      && r4[1].pattern == NormalizeRoutePattern(pc)
  {
    var a := NewRoute(1, "GET", pa, "o", "f", "");
    var b := NewRoute(2, "GET", pb, "o", "f", "");
    var c := NewRoute(3, "GET", pc, "o", "f", "");
    ExampleAdded([], pa);
    var r1 := RouteAdded([], "GET", pa, "o", "f", "", true).value;
    assert r1 == [a];
    MaxIdSingle(a);
    ExampleAdded([a], pb);
    var r2 := RouteAdded(r1, "GET", pb, "o", "f", "", true).value;
    assert r2 == [a, b];
    RemovedFirst(a, b);
    var r3 := RouteRemovedById(r2, 1).1;
    assert r3 == [b];
    MaxIdSingle(b);
    ExampleAdded([b], pc);
    var r4 := RouteAdded(r3, "GET", pc, "o", "f", "", true).value;
    assert r4 == [b, c];
    RemovedFirst(b, c);
    PairIdsDistinct(b, c);
  }

  lemma PairIdsDistinct(x: Route, y: Route)
    requires x.id != y.id
    ensures IdsDistinct([x, y])
  {
    forall i, j | 0 <= i < j < 2
      ensures [x, y][i].id != [x, y][j].id
    {
      assert i == 0 && j == 1;
    }
  }

  lemma MaxIdSingle(x: Route)
    requires x.id >= 0
    ensures MaxId([x]) == x.id
  {
    assert [x][..0] == [];
  }

  // ---------------------------------------------------------------------------
  // Matching and parameters
  // ---------------------------------------------------------------------------

  /**
   * Whether a path matches a route's compiled pattern as a whole, with the
   * captured groups in order (group 1 first) when it does.
   */
  type Matcher = (string, string) -> Option<seq<string>>

  /** The `i`-th name bound to the `i`-th group, for as many as both have; a later duplicate name wins. */
  function ParamsOf(names: seq<string>, groups: seq<string>): (m: map<string, string>)
    ensures forall k :: 0 <= k < |names| && k < |groups| ==> names[k] in m
    ensures forall key :: key in m ==> key in names
    decreases |names|
  {
    var n := if |names| < |groups| then |names| else |groups|;
    if n == 0 then map[]
    else ParamsOf(names[..n - 1], groups[..n - 1])[names[n - 1] := groups[n - 1]]
  }

  datatype RouteMatch = NoMatch | Found(route: Route, params: map<string, string>)

  predicate Matches(route: Route, verb: string, path: string, matches: Matcher)
  {
    route.verb == verb && matches(route.pattern, path).Some?
  }

  /** The index of the first route of the method whose pattern matches the path, or -1. */
  function MatchIndex(routes: seq<Route>, verb: string, path: string, matches: Matcher): (k: int)
    ensures -1 <= k < |routes|
    ensures k >= 0 ==> Matches(routes[k], verb, path, matches)
    ensures k >= 0 ==> forall i :: 0 <= i < k ==> !Matches(routes[i], verb, path, matches)
    ensures k == -1 <==> forall i :: 0 <= i < |routes| ==> !Matches(routes[i], verb, path, matches)
    decreases |routes|
  {
    if routes == [] then -1
    else if Matches(routes[0], verb, path, matches) then 0
    else
      var k := MatchIndex(routes[1..], verb, path, matches);
      assert forall i :: 1 <= i < |routes| ==> routes[i] == routes[1..][i - 1];
      if k < 0 then -1 else k + 1
  }

  /** `find_matching_route`: the first matching route, with its parameters bound to the captured groups. */
  function MatchOf(routes: seq<Route>, verb: string, path: string, matches: Matcher): (m: RouteMatch)
    ensures m.NoMatch? <==> forall i :: 0 <= i < |routes| ==> !Matches(routes[i], verb, path, matches)
    ensures m.Found? ==> (Matches(m.route, verb, path, matches) && m.route in routes
                          && m.params == ParamsOf(m.route.paramNames, matches(m.route.pattern, path).value))
  {
    var k := MatchIndex(routes, verb, path, matches);
    if k < 0 then NoMatch
    else Found(routes[k], ParamsOf(routes[k].paramNames, matches(routes[k].pattern, path).value))
  }

  datatype ValidationLevel = ValidationNone | ValidationBasic | ValidationStrict | ValidationSchema

  /** The first name of `names` missing from `params`, if any. */
  function FirstMissing(names: seq<string>, params: map<string, string>): (r: Option<string>)
    ensures r.None? <==> forall k :: 0 <= k < |names| ==> names[k] in params
    ensures r.Some? ==> r.value in names && r.value !in params
    decreases |names|
  {
    if names == [] then None
    else if names[0] !in params then Some(names[0])
    else
      var r := FirstMissing(names[1..], params);
      assert forall k :: 1 <= k < |names| ==> names[k] == names[1..][k - 1];
      r
  }

  /** `validate_request_parameters`: the error for the first path parameter the request lacks. */
  function ParametersError(level: ValidationLevel, route: Route, pathParams: map<string, string>): (r: Option<string>)
    ensures r.None? <==> level == ValidationNone || forall k :: 0 <= k < |route.paramNames| ==> route.paramNames[k] in pathParams
    ensures r.Some? ==> exists name :: (name in route.paramNames && name !in pathParams
                                        && r.value == "Missing required parameter: " + name)
  {
    if level == ValidationNone then None
    else match FirstMissing(route.paramNames, pathParams)
      case None => None
      case Some(name) => Some("Missing required parameter: " + name)
  }

  /** The parameters a match binds satisfy the check for the matched route. */
  lemma MatchedParametersComplete(routes: seq<Route>, verb: string, path: string, matches: Matcher,
                                  level: ValidationLevel)
    requires MatchOf(routes, verb, path, matches).Found?
    requires var m := MatchOf(routes, verb, path, matches);
      |m.route.paramNames| <= |matches(m.route.pattern, path).value|
    ensures var m := MatchOf(routes, verb, path, matches);
      ParametersError(level, m.route, m.params).None?
  {
  }

  // ---------------------------------------------------------------------------
  // CORS
  // ---------------------------------------------------------------------------

  const CorsHeaders: map<string, string> := map[
    "Access-Control-Allow-Origin" := "*",
    "Access-Control-Allow-Methods" := "GET, POST, PUT, DELETE, OPTIONS",
    "Access-Control-Allow-Headers" := "Content-Type, Authorization"]

  /** `add_cors_headers`: the CORS headers override the response's when CORS is on. */
  function WithCorsHeaders(enabled: bool, headers: map<string, string>): (r: map<string, string>)
    ensures !enabled ==> r == headers
    ensures enabled ==> forall k :: k in CorsHeaders ==> k in r && r[k] == CorsHeaders[k]
    ensures forall k :: k in headers && k !in CorsHeaders ==> k in r && r[k] == headers[k]
    ensures forall k :: k in r ==> k in headers || k in CorsHeaders
  {
    if enabled then headers + CorsHeaders else headers
  }

  // ---------------------------------------------------------------------------
  // The handler
  // ---------------------------------------------------------------------------

  class Handler {
    const socketId: int
    var routes: seq<Route>
    var middleware: map<string, string>
    var corsEnabled: bool
    var validationLevel: ValidationLevel
    var lastError: string

    ghost predicate Valid()
      reads this
    {
      IdsDistinct(routes) && RoutesWellFormed(routes)
    }

    constructor(socketId: int)
      ensures Valid()
      ensures this.socketId == socketId && routes == [] && middleware == map[]
      ensures !corsEnabled && validationLevel == ValidationBasic && lastError == ""
    {
      this.socketId := socketId;
      routes := [];
      middleware := map[];
      corsEnabled := false;
      validationLevel := ValidationBasic;
      lastError := "";
    }

    method AddRoute(verb: string, pattern: string, handlerObject: string, handlerFunction: string,
                    description: string, compiles: bool) returns (ok: bool)
      requires Valid()
      modifies this
      ensures Valid()
      ensures var r := RouteAdded(old(routes), verb, pattern, handlerObject, handlerFunction, description, compiles);
        ok == r.Ok?
        && (ok ==> routes == r.value && lastError == old(lastError))
        && (!ok ==> routes == old(routes) && lastError == r.error)
      ensures middleware == old(middleware) && corsEnabled == old(corsEnabled)
      ensures validationLevel == old(validationLevel)
    {
      var r := RouteAdded(routes, verb, pattern, handlerObject, handlerFunction, description, compiles);
      RouteAddedKeepsInvariant(routes, verb, pattern, handlerObject, handlerFunction, description, compiles);
      if r.Err? {
        lastError := r.error;
        return false;
      }
      routes := r.value;
      ok := true;
    }

    method RemoveRoute(id: int) returns (ok: bool)
      requires Valid()
      modifies this
      ensures Valid()
      ensures (ok, routes) == RouteRemovedById(old(routes), id)
      ensures ok ==> forall i :: 0 <= i < |routes| ==> routes[i].id != id
      ensures middleware == old(middleware) && corsEnabled == old(corsEnabled)
      ensures validationLevel == old(validationLevel) && lastError == old(lastError)
    {
      RemovalKeepsWellFormed(routes, id, "", "");
      var r := RouteRemovedById(routes, id);
      ok, routes := r.0, r.1;
    }

    method RemoveRouteByPattern(verb: string, pattern: string) returns (ok: bool)
      requires Valid()
      modifies this
      ensures Valid()
      ensures (ok, routes) == RouteRemovedByPattern(old(routes), verb, pattern)
      ensures middleware == old(middleware) && corsEnabled == old(corsEnabled)
      ensures validationLevel == old(validationLevel) && lastError == old(lastError)
    {
      RemovalKeepsWellFormed(routes, 0, verb, pattern);
      var r := RouteRemovedByPattern(routes, verb, pattern);
      ok, routes := r.0, r.1;
    }

    method ClearAllRoutes()
      modifies this
      ensures Valid() && routes == []
      ensures middleware == old(middleware) && corsEnabled == old(corsEnabled)
      ensures validationLevel == old(validationLevel) && lastError == old(lastError)
    {
      routes := [];
    }

    /** The loop of `find_matching_route`. */
    method FindMatchingRoute(verb: string, path: string, matches: Matcher) returns (m: RouteMatch)
      ensures m == MatchOf(routes, verb, path, matches)
    {
      var i := 0;
      while i < |routes|
        invariant 0 <= i <= |routes|
        invariant forall j :: 0 <= j < i ==> !Matches(routes[j], verb, path, matches)
      {
        var route := routes[i];
        if route.verb == verb {
          var groups := matches(route.pattern, path);
          if groups.Some? {
            assert MatchIndex(routes, verb, path, matches) == i;
            return Found(route, ParamsOf(route.paramNames, groups.value));
          }
        }
        i := i + 1;
      }
      m := NoMatch;
    }

    method ValidateRequestParameters(route: Route, pathParams: map<string, string>) returns (ok: bool)
      modifies this
      ensures var e := ParametersError(old(validationLevel), route, pathParams);
        ok == e.None? && (ok ==> lastError == old(lastError)) && (!ok ==> lastError == e.value)
      ensures routes == old(routes) && middleware == old(middleware)
      ensures corsEnabled == old(corsEnabled) && validationLevel == old(validationLevel)
    {
      var e := ParametersError(validationLevel, route, pathParams);
      ok := e.None?;
      if !ok {
        lastError := e.value;
      }
    }

    method SetValidationLevel(level: ValidationLevel)
      modifies this
      ensures validationLevel == level
      ensures routes == old(routes) && middleware == old(middleware)
      ensures corsEnabled == old(corsEnabled) && lastError == old(lastError)
    {
      validationLevel := level;
    }

    /** `add_middleware` replaces a function registered under the same name. */
    method AddMiddleware(name: string, fn: string) returns (ok: bool)
      modifies this
      ensures ok && middleware == old(middleware)[name := fn]
      ensures routes == old(routes) && corsEnabled == old(corsEnabled)
      ensures validationLevel == old(validationLevel) && lastError == old(lastError)
    {
      middleware := middleware[name := fn];
      ok := true;
    }

    method RemoveMiddleware(name: string) returns (ok: bool)
      modifies this
      ensures ok <==> name in old(middleware)
      ensures middleware == old(middleware) - {name}
      ensures routes == old(routes) && corsEnabled == old(corsEnabled)
      ensures validationLevel == old(validationLevel) && lastError == old(lastError)
    {
      ok := name in middleware;
      middleware := middleware - {name};
    }

    /** `get_middleware_chain`: the names, in the unspecified order of a hash map. */
    function MiddlewareChain(): (names: set<string>)
      reads this
      ensures forall n :: n in names <==> n in middleware
    {
      middleware.Keys
    }

    method EnableCors()
      modifies this
      ensures corsEnabled
      ensures routes == old(routes) && middleware == old(middleware)
      ensures validationLevel == old(validationLevel) && lastError == old(lastError)
    {
      corsEnabled := true;
    }

    method DisableCors()
      modifies this
      ensures !corsEnabled
      ensures routes == old(routes) && middleware == old(middleware)
      ensures validationLevel == old(validationLevel) && lastError == old(lastError)
    {
      corsEnabled := false;
    }
  }
}
