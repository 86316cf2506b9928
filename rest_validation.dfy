/**
 * `RestValidator` from the HTTP REST layer: the brace/bracket JSON check,
 * required route parameters, the query-string shape and the JSON request check.
 *
 * The JSON check is specified by a lexer that decides which characters count
 * (outside strings, not escaped) and by the running depths of the counted
 * braces and brackets.
 */
module RestValidation {
  import opened Text

  // ---------------------------------------------------------------------------
  // The lexer: which characters reach the counters
  // ---------------------------------------------------------------------------

  datatype Lexer = Lexer(inString: bool, escaped: bool)

  const Start := Lexer(false, false)

  /** One character: an escaped character is skipped, `\` escapes, `"` toggles strings. */
  function LexStep(l: Lexer, c: char): Lexer
  {
    if l.escaped then l.(escaped := false)
    else if c == '\\' then l.(escaped := true)
    else if c == '"' then l.(inString := !l.inString)
    else l
  }

  predicate Structural(c: char)
  {
    c == '{' || c == '}' || c == '[' || c == ']'
  }

  /** Whether `c`, read in state `l`, reaches the counters' switch. */
  predicate Counts(l: Lexer, c: char)
  {
    !l.escaped && !l.inString && Structural(c)
  }

  function LexFrom(l: Lexer, s: string): Lexer
  {
    if s == [] then l else LexStep(LexFrom(l, s[..|s| - 1]), s[|s| - 1])
  }

  /** The structural characters of `s`, read from state `l`, in order. */
  function CountedFrom(l: Lexer, s: string): (t: string)
    ensures forall k :: 0 <= k < |t| ==> Structural(t[k])
  {
    if s == [] then []
    else
      var init := s[..|s| - 1];
      CountedFrom(l, init) + (if Counts(LexFrom(l, init), s[|s| - 1]) then [s[|s| - 1]] else [])
  }

  /** Opening minus closing characters. */
  function Depth(t: string, open: char, close: char): int
  {
    if t == [] then 0
    else
      var last := t[|t| - 1];
      Depth(t[..|t| - 1], open, close) + (if last == open then 1 else if last == close then -1 else 0)
  }

  /** No prefix closes more than it opened. */
  predicate NeverNegative(t: string, open: char, close: char)
  {
    forall k :: 0 <= k <= |t| ==> Depth(t[..k], open, close) >= 0
  }

  /** No prefix closes more than it opened, and everything opened is closed. */
  predicate Nested(t: string, open: char, close: char)
  {
    NeverNegative(t, open, close) && Depth(t, open, close) == 0
  }

  /** What `is_valid_json` decides: braces and brackets nest, and no string is left open. */
  predicate BalancedJson(s: string)
  {
    var t := CountedFrom(Start, s);
    Nested(t, '{', '}') && Nested(t, '[', ']') && !LexFrom(Start, s).inString
  }

  /** Reading one more character. */
  lemma LexSnoc(l: Lexer, s: string, c: char)
    ensures LexFrom(l, s + [c]) == LexStep(LexFrom(l, s), c)
    ensures CountedFrom(l, s + [c]) == CountedFrom(l, s) + (if Counts(LexFrom(l, s), c) then [c] else [])
  {
    assert (s + [c])[..|s|] == s;
  }

  /** Counting one more character keeps the running depth non-negative while the total is. */
  lemma DepthSnoc(t: string, d: string, open: char, close: char)
    requires |d| <= 1
    ensures Depth(t + d, open, close)
      == Depth(t, open, close) + (if d == [] then 0 else if d[0] == open then 1 else if d[0] == close then -1 else 0)
    ensures NeverNegative(t, open, close) && Depth(t + d, open, close) >= 0 ==> NeverNegative(t + d, open, close)
  {
    if d == [] {
      assert t + d == t;
    } else {
      assert (t + d)[..|t|] == t;
    }
    forall k | 0 <= k <= |t|
      ensures (t + d)[..k] == t[..k]
    {
    }
    assert (t + d)[..|t + d|] == t + d;
  }

  /** Reading `a` then `b` is reading `a + b`. */
  lemma {:induction false} LexConcat(l: Lexer, a: string, b: string)
    ensures LexFrom(l, a + b) == LexFrom(LexFrom(l, a), b)
    ensures CountedFrom(l, a + b) == CountedFrom(l, a) + CountedFrom(LexFrom(l, a), b)
    decreases |b|
  {
    if b == [] {
      assert a + b == a;
    } else {
      var b' := b[..|b| - 1];
      assert (a + b)[..|a + b| - 1] == a + b';
      LexConcat(l, a, b');
    }
  }

  /** A quoted run without quotes or backslashes is skipped whole and leaves the lexer as it found it. */
  lemma {:induction false} StringBodySkipped(x: string)
    requires '"' !in x && '\\' !in x
    ensures LexFrom(Lexer(true, false), x) == Lexer(true, false)
    ensures CountedFrom(Lexer(true, false), x) == []
  {
    if x != [] {
      StringBodySkipped(x[..|x| - 1]);
    }
  }

  /** Text read from the start state that counts nothing and ends where it began. */
  predicate Neutral(m: string)
  {
    LexFrom(Start, m) == Start && CountedFrom(Start, m) == []
  }

  /** Inserting neutral text at a point where the lexer is in its start state changes nothing. */
  lemma NeutralInsert(a: string, m: string, b: string)
    requires LexFrom(Start, a) == Start && Neutral(m)
    ensures LexFrom(Start, a + m + b) == LexFrom(Start, a + b)
    ensures CountedFrom(Start, a + m + b) == CountedFrom(Start, a + b)
  {
    LexConcat(Start, a, m);
    LexConcat(Start, a + m, b);
    LexConcat(Start, a, b);
    assert CountedFrom(Start, a + m) == CountedFrom(Start, a);
  }

  lemma QuotedNeutral(x: string)
    requires '"' !in x && '\\' !in x
    ensures Neutral(['"'] + x + ['"'])
  {
    LexSnoc(Start, [], '"');
    assert [] + ['"'] == ['"'];
    LexConcat(Start, ['"'], x);
    StringBodySkipped(x);
    LexSnoc(Start, ['"'] + x, '"');
  }

  lemma EscapeNeutral(c: char)
    ensures Neutral(['\\', c])
  {
    LexSnoc(Start, [], '\\');
    assert [] + ['\\'] == ['\\'];
    LexSnoc(Start, ['\\'], c);
    assert ['\\'] + [c] == ['\\', c];
  }

  /** Characters inside a string never reach the counters: `a "x" b` is judged as `a b`. */
  lemma QuotedIgnored(a: string, x: string, b: string)
    requires LexFrom(Start, a) == Start
    requires '"' !in x && '\\' !in x
    ensures BalancedJson(a + ['"'] + x + ['"'] + b) == BalancedJson(a + b)
  {
    QuotedNeutral(x);
    NeutralInsert(a, ['"'] + x + ['"'], b);
    assert a + ['"'] + x + ['"'] + b == a + (['"'] + x + ['"']) + b;
  }

  /** A backslash outside a string hides the character after it, whatever it is. */
  lemma EscapeIgnored(a: string, c: char, b: string)
    requires LexFrom(Start, a) == Start
    ensures BalancedJson(a + ['\\', c] + b) == BalancedJson(a + b)
  {
    EscapeNeutral(c);
    NeutralInsert(a, ['\\', c], b);
  }

  /** Text that leaves a string open fails, whatever counts it has. */
  lemma UnterminatedStringFails(s: string)
    requires LexFrom(Start, s).inString
    ensures !BalancedJson(s)
  {
  }

  /** Once a prefix closes more than it opened, no continuation is valid JSON. */
  lemma OverClosedStaysInvalid(p: string, q: string, open: char, close: char)
    requires (open, close) == ('{', '}') || (open, close) == ('[', ']')
    requires Depth(CountedFrom(Start, p), open, close) < 0
    ensures !BalancedJson(p + q)
  {
    LexConcat(Start, p, q);
    var t := CountedFrom(Start, p + q);
    var tp := CountedFrom(Start, p);
    assert t[..|tp|] == tp;
    assert !NeverNegative(t, open, close);
  }

  lemma OverClosedPrefix(s: string, i: nat, open: char, close: char)
    requires i <= |s|
    requires (open, close) == ('{', '}') || (open, close) == ('[', ']')
    requires Depth(CountedFrom(Start, s[..i]), open, close) < 0
    ensures !BalancedJson(s)
  {
    OverClosedStaysInvalid(s[..i], s[i..], open, close);
    assert s[..i] + s[i..] == s;
  }

  // ---------------------------------------------------------------------------
  // Query strings
  // ---------------------------------------------------------------------------

  /** One `key=value` pair of `[^&=]+=[^&=]*`. */
  predicate IsQueryPair(pair: string)
  {
    var kv := Split(pair, '=');
    |kv| == 2 && kv[0] != ""
  }

  /**
   * `validate_query_parameters`: empty, or `&`-separated `key=value` pairs with
   * a non-empty key and a single `=` each.
   */
  predicate ValidQuery(q: string)
  {
    q == "" || forall k :: 0 <= k < |Split(q, '&')| ==> IsQueryPair(Split(q, '&')[k])
  }

  /** A single pair with a non-empty key and no second `=` passes. */
  lemma SinglePairAccepted(key: string, value: string)
    requires key != "" && '=' !in key && '&' !in key && '=' !in value && '&' !in value
    ensures ValidQuery(key + "=" + value)
  {
    SplitNoSep(key + "=" + value, '&');
    SplitOnce(key, value, '=');
  }

  lemma {:induction false} SplitNoSep(s: string, sep: char)
    requires sep !in s
    ensures Split(s, sep) == [s]
  {
    if s != [] {
      SplitNoSep(s[1..], sep);
      assert [s[0]] + s[1..] == s;
    }
  }

  lemma {:induction false} SplitOnce(a: string, b: string, sep: char)
    requires sep !in a && sep !in b
    ensures Split(a + [sep] + b, sep) == [a, b]
  {
    if a == [] {
      assert a + [sep] + b == [sep] + b;
      assert ([sep] + b)[1..] == b;
      SplitNoSep(b, sep);
    } else {
      assert (a + [sep] + b)[1..] == a[1..] + [sep] + b;
      SplitOnce(a[1..], b, sep);
      assert [a[0]] + a[1..] == a;
    }
  }

  /** A query whose first pair has an empty key fails. */
  lemma EmptyKeyRejected(v: string, rest: string)
    requires '=' !in v && '&' !in v
    ensures !ValidQuery("=" + v + rest)
  {
    var q := "=" + v + rest;
    assert Split(q, '=')[0] == "";
    var first := Split(q, '&')[0];
    assert first[0] == '=' by {
      assert q[0] == '=';
    }
    assert Split(first, '=')[0] == "";
  }

  // ---------------------------------------------------------------------------
  // The validator
  // ---------------------------------------------------------------------------

  datatype ValidationLevel = NoValidation | Basic | Strict

  function MissingParameterError(name: string): string
  {
    "Missing required parameter: " + name
  }

  const ContentTypeError := "Content-Type must be application/json for JSON requests"

  /** The first route parameter name absent from `params`, if any. */
  function FirstMissing(params: map<string, string>, names: seq<string>): (r: int)
    ensures -1 <= r < |names|
    ensures r == -1 <==> forall k :: 0 <= k < |names| ==> names[k] in params
    ensures r >= 0 ==> names[r] !in params && forall k :: 0 <= k < r ==> names[k] in params
  {
    if names == [] then -1
    else if names[0] !in params then 0
    else
      var r := FirstMissing(params, names[1..]);
      assert forall k :: 1 <= k < |names| ==> names[k] == names[1..][k - 1];
      if r == -1 then -1 else r + 1
  }

  class RestValidator {
    var validationLevel: ValidationLevel
    var lastError: string

    constructor()
      ensures validationLevel == Basic && lastError == ""
    {
      validationLevel, lastError := Basic, "";
    }

    /** `is_valid_json`. */
    method IsValidJson(s: string) returns (ok: bool)
      ensures ok == BalancedJson(s)
    {
      var braces, brackets := 0, 0;
      var lex := Start;
      var i := 0;
      while i < |s|
        invariant 0 <= i <= |s|
        invariant lex == LexFrom(Start, s[..i])
        invariant braces == Depth(CountedFrom(Start, s[..i]), '{', '}')
        invariant brackets == Depth(CountedFrom(Start, s[..i]), '[', ']')
        invariant NeverNegative(CountedFrom(Start, s[..i]), '{', '}')
        invariant NeverNegative(CountedFrom(Start, s[..i]), '[', ']')
      {
        var c := s[i];
        ghost var before := CountedFrom(Start, s[..i]);
        ghost var d := if Counts(lex, c) then [c] else [];
        assert s[..i + 1] == s[..i] + [c];
        LexSnoc(Start, s[..i], c);
        DepthSnoc(before, d, '{', '}');
        DepthSnoc(before, d, '[', ']');
        if Counts(lex, c) {
          if c == '{' {
            braces := braces + 1;
          } else if c == '}' {
            braces := braces - 1;
          } else if c == '[' {
            brackets := brackets + 1;
          } else {
            brackets := brackets - 1;
          }
        }
        lex := LexStep(lex, c);
        if braces < 0 || brackets < 0 {
          if braces < 0 {
            OverClosedPrefix(s, i + 1, '{', '}');
          } else {
            OverClosedPrefix(s, i + 1, '[', ']');
          }
          return false;
        }
        i := i + 1;
      }
      assert s[..i] == s;
      return braces == 0 && brackets == 0 && !lex.inString;
    }

    /** `validate_route_parameters`: fails, recording the name, on the first missing parameter. */
    method ValidateRouteParameters(params: map<string, string>, names: seq<string>) returns (ok: bool)
      modifies this
      ensures ok <==> forall k :: 0 <= k < |names| ==> names[k] in params
      ensures ok ==> lastError == old(lastError)
      ensures !ok ==> lastError == MissingParameterError(names[FirstMissing(params, names)])
      ensures validationLevel == old(validationLevel)
    {
      var i := 0;
      while i < |names|
        invariant 0 <= i <= |names|
        invariant forall k :: 0 <= k < i ==> names[k] in params
        invariant lastError == old(lastError) && validationLevel == old(validationLevel)
      {
        if names[i] !in params {
          lastError := MissingParameterError(names[i]);
          return false;
        }
        i := i + 1;
      }
      return true;
    }

    /**
     * `validate_json_request`: a `content-type` header, when present, must
     * mention application/json; a non-empty body must be balanced JSON.
     */
    method ValidateJsonRequest(headers: map<string, string>, body: string) returns (ok: bool)
      modifies this
      ensures ok <==> ("content-type" in headers ==> Contains(headers["content-type"], "application/json"))
                      && (body != "" ==> BalancedJson(body))
      ensures "content-type" in headers && !Contains(headers["content-type"], "application/json")
              ==> lastError == ContentTypeError
      ensures validationLevel == old(validationLevel)
    {
      if "content-type" in headers {
        ContainsIffIndexOf(headers["content-type"], "application/json");
        if IndexOf(headers["content-type"], "application/json", 0) == -1 {
          lastError := ContentTypeError;
          return false;
        }
      }
      if body != "" {
        ok := IsValidJson(body);
        return;
      }
      return true;
    }

    method SetValidationLevel(level: ValidationLevel)
      modifies this
      ensures validationLevel == level && lastError == old(lastError)
    {
      validationLevel := level;
    }

    method ClearError()
      modifies this
      ensures lastError == "" && validationLevel == old(validationLevel)
    {
      lastError := "";
    }
  }
}
