/**
 * Route patterns and query strings of the REST package: the translation of a
 * pattern such as "/users/{id}" into an anchored regular expression with the
 * names of its parameters, and the parsing of "a=1&b=2" into a mapping.
 */
module Rest {
  import opened Text
  import opened Wrappers
  import Seqs

  // ---------------------------------------------------------------------------
  // Pattern to regular expression
  // ---------------------------------------------------------------------------

  /** The characters `rest_pattern_to_regex` escapes with a backslash. */
  predicate IsRegexMeta(c: char)
  {
    c in ".*+?^$()[]|\\"
  }

  /** What every parameter becomes: one or more characters other than '/'. */
  const ParamRegex: string := "([^/]+)"

  /** The translation loop's variables: the regex so far, the names, the flag and the name being read. */
  datatype Scan = Scan(regex: string, names: seq<string>, inParam: bool, current: string)

  /** One character of the pattern. */
  function Step(st: Scan, c: char): (r: Scan)
    ensures st.regex <= r.regex && st.names <= r.names
  {
    if c == '{' then st.(inParam := true, current := "", regex := st.regex + ParamRegex)
    else if c == '}' then st.(inParam := false, names := st.names + [st.current])
    else if st.inParam then st.(current := st.current + [c])
    else st.(regex := st.regex + (if IsRegexMeta(c) then ['\\', c] else [c]))
  }

  /** The loop over the characters of `s`. */
  function Run(st: Scan, s: string): (r: Scan)
    ensures st.regex <= r.regex && st.names <= r.names
    decreases |s|
  {
    if s == [] then st else Run(Step(st, s[0]), s[1..])
  }

  /**
   * `rest_pattern_to_regex`: the anchored regex, and `param_names` (passed in
   * as `names0`) with the names found appended.
   */
  function PatternToRegex(pattern: string, names0: seq<string>): (r: (string, seq<string>))
    ensures |r.0| >= 2 && r.0[0] == '^' && r.0[|r.0| - 1] == '$'
    ensures names0 <= r.1
  {
    var st := Run(Scan("^", names0, false, ""), pattern);
    (st.regex + "$", st.names)
  }

  method RestPatternToRegex(pattern: string, paramNames: seq<string>) returns (regex: string, names: seq<string>)
    ensures (regex, names) == PatternToRegex(pattern, paramNames)
  {
    regex, names := "^", paramNames;
    var current := "";
    var inParam := false;
    for i := 0 to |pattern|
      invariant Run(Scan(regex, names, inParam, current), pattern[i..]) == Run(Scan("^", paramNames, false, ""), pattern)
    {
      assert pattern[i..][1..] == pattern[i + 1..];
      var c := pattern[i];
      ghost var after := Step(Scan(regex, names, inParam, current), c);
      assert Run(Scan(regex, names, inParam, current), pattern[i..]) == Run(after, pattern[i + 1..]);
      if c == '{' {
        inParam := true;
        current := "";
        regex := regex + ParamRegex;
      } else if c == '}' {
        inParam := false;
        names := names + [current];
      } else if inParam {
        current := current + [c];
      } else {
        if IsRegexMeta(c) {
          regex := regex + ['\\'];
        }
        regex := regex + [c];
      }
      assert Scan(regex, names, inParam, current) == after;
    }
    assert pattern[|pattern|..] == [];
    regex := regex + "$";
  }

  /** A pattern as literal text and `{name}` parameters. */
  datatype Piece = Literal(text: string) | Param(name: string)

  predicate BraceFree(s: string)
  {
    '{' !in s && '}' !in s
  }

  predicate WellFormed(ps: seq<Piece>)
  {
    forall k :: 0 <= k < |ps| ==> BraceFree(if ps[k].Literal? then ps[k].text else ps[k].name)
  }

  function PieceText(p: Piece): string
  {
    match p case Literal(t) => t case Param(n) => "{" + n + "}"
  }

  function Render(ps: seq<Piece>): string
  {
    if ps == [] then [] else PieceText(ps[0]) + Render(ps[1..])
  }

  /** The literal text with every regex metacharacter preceded by a backslash. */
  function Escape(s: string): string
  {
    if s == [] then [] else (if IsRegexMeta(s[0]) then ['\\', s[0]] else [s[0]]) + Escape(s[1..])
  }

  /** The reference translation of one piece: a literal escaped, a parameter replaced by `ParamRegex`. */
  function PieceRegex(p: Piece): string
  {
    match p case Literal(t) => Escape(t) case Param(_) => ParamRegex
  }

  function PieceNames(p: Piece): seq<string>
  {
    match p case Literal(_) => [] case Param(n) => [n]
  }

  function RegexOf(ps: seq<Piece>): string
  {
    if ps == [] then [] else PieceRegex(ps[0]) + RegexOf(ps[1..])
  }

  /** The parameter names in order of appearance. */
  function NamesOf(ps: seq<Piece>): seq<string>
  {
    if ps == [] then [] else PieceNames(ps[0]) + NamesOf(ps[1..])
  }

  lemma {:induction false} RunAppend(st: Scan, a: string, b: string)
    ensures Run(st, a + b) == Run(Run(st, a), b)
    decreases |a|
  {
    if a == [] {
      assert a + b == b;
    } else {
      assert (a + b)[1..] == a[1..] + b;
      RunAppend(Step(st, a[0]), a[1..], b);
    }
  }

  /** Outside a parameter, brace-free text is appended escaped. */
  lemma {:induction false} RunLiteral(st: Scan, s: string)
    requires !st.inParam && BraceFree(s)
    ensures Run(st, s) == st.(regex := st.regex + Escape(s))
    decreases |s|
  {
    if s != [] {
      assert BraceFree(s[1..]) by { assert forall c :: c in s[1..] ==> c in s; }
      RunLiteral(Step(st, s[0]), s[1..]);
    }
  }

  /** Inside a parameter, brace-free text is appended to the name being read. */
  lemma {:induction false} RunName(st: Scan, s: string)
    requires st.inParam && BraceFree(s)
    ensures Run(st, s) == st.(current := st.current + s)
    decreases |s|
  {
    if s != [] {
      assert BraceFree(s[1..]) by { assert forall c :: c in s[1..] ==> c in s; }
      RunName(Step(st, s[0]), s[1..]);
      assert st.current + [s[0]] + s[1..] == st.current + s;
    }
  }

  lemma RunParam(st: Scan, n: string)
    requires !st.inParam && BraceFree(n)
    ensures var r := Run(st, "{" + n + "}");
      r.regex == st.regex + ParamRegex && r.names == st.names + [n] && !r.inParam
  {
    var s1 := Step(st, '{');
    assert Run(st, "{") == Run(s1, "{"[1..]) && "{"[1..] == [];
    RunName(s1, n);
    var s2 := Run(s1, n);
    assert s2 == s1.(current := n);
    assert Run(s2, "}") == Run(Step(s2, '}'), "}"[1..]) && "}"[1..] == [];
    RunAppend(st, "{", n);
    RunAppend(st, "{" + n, "}");
  }

  lemma RunPiece(st: Scan, p: Piece)
    requires !st.inParam && BraceFree(if p.Literal? then p.text else p.name)
    ensures var r := Run(st, PieceText(p));
      r.regex == st.regex + PieceRegex(p) && r.names == st.names + PieceNames(p) && !r.inParam
  {
    match p {
      case Literal(t) => RunLiteral(st, t);
      case Param(n) => RunParam(st, n);
    }
  }

  lemma WellFormedTail(ps: seq<Piece>)
    requires ps != [] && WellFormed(ps)
    ensures WellFormed(ps[1..]) && BraceFree(if ps[0].Literal? then ps[0].text else ps[0].name)
  {
    forall k | 0 <= k < |ps[1..]|
      ensures BraceFree(if ps[1..][k].Literal? then ps[1..][k].text else ps[1..][k].name)
    {
      assert ps[1..][k] == ps[k + 1];
    }
  }

  lemma {:induction false} RunPieces(st: Scan, ps: seq<Piece>)
    requires !st.inParam && WellFormed(ps)
    ensures var r := Run(st, Render(ps));
      r.regex == st.regex + RegexOf(ps) && r.names == st.names + NamesOf(ps) && !r.inParam
    decreases |ps|
  {
    if ps != [] {
      WellFormedTail(ps);
      RunAppend(st, PieceText(ps[0]), Render(ps[1..]));
      RunPiece(st, ps[0]);
      var mid := Run(st, PieceText(ps[0]));
      RunPieces(mid, ps[1..]);
      Seqs.AppendAssoc(st.regex, PieceRegex(ps[0]), RegexOf(ps[1..]));
      Seqs.AppendAssoc(st.names, PieceNames(ps[0]), NamesOf(ps[1..]));
    }
  }

  /**
   * A well-formed pattern becomes "^", its literals escaped and its
   * parameters replaced by "([^/]+)", then "$"; the names are appended in order.
   */
  lemma PatternTranslation(ps: seq<Piece>, names0: seq<string>)
    requires WellFormed(ps)
    ensures PatternToRegex(Render(ps), names0) == ("^" + RegexOf(ps) + "$", names0 + NamesOf(ps))
  {
    RunPieces(Scan("^", names0, false, ""), ps);
  }

  /** The reference inverse of `Escape`: a backslash stands for the character after it. */
  function Unescape(e: string): string
  {
    if e == [] then []
    else if e[0] == '\\' && |e| >= 2 then [e[1]] + Unescape(e[2..])
    else [e[0]] + Unescape(e[1..])
  }

  /** Escaping loses nothing: every literal character is recovered. */
  lemma {:induction false} EscapeRoundTrip(s: string)
    ensures Unescape(Escape(s)) == s
  {
    if s != [] {
      EscapeRoundTrip(s[1..]);
      var h := if IsRegexMeta(s[0]) then ['\\', s[0]] else [s[0]];
      var e := h + Escape(s[1..]);
      assert e[|h|..] == Escape(s[1..]);
      assert s == [s[0]] + s[1..];
    }
  }

  /** A '}' with no '{' before it records the name read last (here none: ""). */
  lemma StrayCloseBrace()
    ensures PatternToRegex("/a}", []) == ("^/a$", [""])
  {
    var s0 := Scan("^", [], false, "");
    var s1 := Step(s0, '/');
    var s2 := Step(s1, 'a');
    var s3 := Step(s2, '}');
    assert !IsRegexMeta('/') && !IsRegexMeta('a');
    assert s3 == Scan("^/a", [""], false, "");
    assert Run(s3, []) == s3;
    assert s3.regex + "$" == "^/a$";
    assert Run(s0, "/a}") == Run(s1, "/a}"[1..]) && "/a}"[1..] == "a}";
    assert Run(s1, "a}") == Run(s2, "a}"[1..]) && "a}"[1..] == "}";
    assert Run(s2, "}") == Run(s3, "}"[1..]) && "}"[1..] == [];
  }

  /** A second '}' after a parameter records that parameter's name again. */
  lemma StrayCloseBraceRepeatsName()
    ensures PatternToRegex("/{a}}", []) == ("^/([^/]+)$", ["a", "a"])
  {
    var s0 := Scan("^", [], false, "");
    var s1 := Step(s0, '/');
    var s2 := Step(s1, '{');
    var s3 := Step(s2, 'a');
    var s4 := Step(s3, '}');
    var s5 := Step(s4, '}');
    assert !IsRegexMeta('/');
    assert s2 == Scan("^/([^/]+)", [], true, "");
    assert "" + ['a'] == "a";
    assert s3 == Scan("^/([^/]+)", [], true, "a");
    assert s4 == Scan("^/([^/]+)", ["a"], false, "a");
    assert s5 == Scan("^/([^/]+)", ["a", "a"], false, "a");
    assert Run(s5, []) == s5;
    assert Run(s0, "/{a}}") == Run(s1, "{a}}") && "/{a}}"[1..] == "{a}}";
    assert Run(s1, "{a}}") == Run(s2, "a}}") && "{a}}"[1..] == "a}}";
    assert Run(s2, "a}}") == Run(s3, "}}") && "a}}"[1..] == "}}";
    assert Run(s3, "}}") == Run(s4, "}") && "}}"[1..] == "}";
    assert Run(s4, "}") == Run(s5, []) && "}"[1..] == [];
    assert s5.regex + "$" == "^/([^/]+)$";
  }

  // ---------------------------------------------------------------------------
  // Query strings
  // ---------------------------------------------------------------------------

  /** The value with each "%20" found scanning left to right replaced by a space. */
  function Decode20(s: string): (r: string)
    ensures |r| <= |s|
  {
    if s == [] then []
    else if "%20" <= s then " " + Decode20(s[3..])
    else [s[0]] + Decode20(s[1..])
  }

  lemma {:induction false} SkipToEscape(s: string, p: nat, k: nat)
    requires p <= k && OccursAt(s, "%20", k)
    requires forall i :: p <= i < k ==> !OccursAt(s, "%20", i)
    ensures Decode20(s[p..]) == s[p..k] + " " + Decode20(s[k + 3..])
    decreases k - p
  {
    var t := s[p..];
    if p == k {
      assert t[..3] == s[k..k + 3];
      assert t[3..] == s[k + 3..];
    } else {
      assert !OccursAt(s, "%20", p);
      assert t[1..] == s[p + 1..];
      SkipToEscape(s, p + 1, k);
      assert s[p..k] == [s[p]] + s[p + 1..k];
    }
  }

  lemma {:induction false} NoEscapeLeft(s: string, p: nat)
    requires p <= |s|
    requires forall i :: p <= i ==> !OccursAt(s, "%20", i)
    ensures Decode20(s[p..]) == s[p..]
    decreases |s| - p
  {
    var t := s[p..];
    if p < |s| {
      assert !OccursAt(s, "%20", p);
      assert t[1..] == s[p + 1..];
      NoEscapeLeft(s, p + 1);
    }
  }

  /** Replacing the "%20" found at `k` keeps what the decoded text will be. */
  lemma ReplaceStep(value: string, pos: nat, k: nat)
    requires pos <= k && OccursAt(value, "%20", k)
    requires forall i :: pos <= i < k ==> !OccursAt(value, "%20", i)
    ensures var next := value[..k] + " " + value[k + 3..];
      next[..k + 1] + Decode20(next[k + 1..]) == value[..pos] + Decode20(value[pos..])
  {
    SkipToEscape(value, pos, k);
    var next := value[..k] + " " + value[k + 3..];
    assert next[..k + 1] == value[..k] + " ";
    assert next[k + 1..] == value[k + 3..];
    assert value[..k] == value[..pos] + value[pos..k];
  }

  /** The `value.find("%20", pos)` / `replace` loop. */
  method DecodeSpaces(value0: string) returns (value: string)
    ensures value == Decode20(value0)
  {
    value := value0;
    var pos := 0;
    while true
      invariant pos <= |value|
      invariant value[..pos] + Decode20(value[pos..]) == Decode20(value0)
      decreases |value| - pos
    {
      var k := IndexOf(value, "%20", pos);
      if k < 0 {
        NoEscapeLeft(value, pos);
        assert value[..pos] + value[pos..] == value;
        return;
      }
      ReplaceStep(value, pos, k);
      value, pos := value[..k] + " " + value[k + 3..], k + 1;
    }
  }

  /** Spaces written back as "%20". */
  function SpaceTo20(s: string): string
  {
    if s == [] then [] else (if s[0] == ' ' then "%20" else [s[0]]) + SpaceTo20(s[1..])
  }

  /** Text without '%' survives "%20"-encoding its spaces and decoding them again. */
  lemma {:induction false} Decode20RoundTrip(s: string)
    requires '%' !in s
    ensures Decode20(SpaceTo20(s)) == s
  {
    if s != [] {
      assert '%' !in s[1..] by { assert forall c :: c in s[1..] ==> c in s; }
      Decode20RoundTrip(s[1..]);
      var e := SpaceTo20(s);
      var h := if s[0] == ' ' then "%20" else [s[0]];
      assert e[|h|..] == SpaceTo20(s[1..]);
      if s[0] != ' ' {
        assert e[0] == s[0] && s[0] != '%';
      }
      assert s == [s[0]] + s[1..];
    }
  }

  /** The key of a pair with '=', or None for a pair that is skipped. */
  function KeyOf(pair: string): (r: Option<string>)
    ensures r.Some? <==> Contains(pair, "=")
  {
    ContainsIffIndexOf(pair, "=");
    var k := IndexOf(pair, "=", 0);
    if k < 0 then None else Some(pair[..k])
  }

  function ValueOf(pair: string): string
  {
    var k := IndexOf(pair, "=", 0);
    if k < 0 then "" else Decode20(pair[k + 1..])
  }

  function AddPair(m: map<string, string>, pair: string): map<string, string>
  {
    match KeyOf(pair)
    case None => m
    case Some(key) => m[key := ValueOf(pair)]
  }

  function AddPairs(m: map<string, string>, pairs: seq<string>): map<string, string>
    decreases |pairs|
  {
    if pairs == [] then m else AddPairs(AddPair(m, pairs[0]), pairs[1..])
  }

  /** `rest_parse_query_string` as a mapping. */
  function QueryParams(query: string): map<string, string>
  {
    AddPairs(map[], Getline(query, '&'))
  }

  method RestParseQueryString(query: string) returns (params: map<string, string>)
    ensures params == QueryParams(query)
  {
    params := map[];
    if query == [] {
      return;
    }
    var pairs := Getline(query, '&');
    for i := 0 to |pairs|
      invariant AddPairs(params, pairs[i..]) == QueryParams(query)
    {
      assert pairs[i..][1..] == pairs[i + 1..];
      var pair := pairs[i];
      var eq := IndexOf(pair, "=", 0);
      if eq >= 0 {
        var key := pair[..eq];
        var value := DecodeSpaces(pair[eq + 1..]);
        params := params[key := value];
      }
    }
    assert pairs[|pairs|..] == [];
  }

  /** The keys are exactly those of the pairs with '=' (and of `m`). */
  lemma {:induction false} AddPairsKeys(m: map<string, string>, pairs: seq<string>, key: string)
    ensures key in AddPairs(m, pairs) <==>
      key in m || exists j :: 0 <= j < |pairs| && KeyOf(pairs[j]) == Some(key)
    decreases |pairs|
  {
    if pairs != [] {
      AddPairsKeys(AddPair(m, pairs[0]), pairs[1..], key);
      if exists j :: 0 <= j < |pairs| && KeyOf(pairs[j]) == Some(key) {
        var j :| 0 <= j < |pairs| && KeyOf(pairs[j]) == Some(key);
        if j > 0 {
          assert pairs[1..][j - 1] == pairs[j];
        }
      }
    }
  }

  /** A key's value comes from the last pair naming it: later duplicates overwrite. */
  lemma {:induction false} AddPairsLastWins(m: map<string, string>, pairs: seq<string>, j: nat, key: string)
    requires j < |pairs| && KeyOf(pairs[j]) == Some(key)
    requires forall i :: j < i < |pairs| ==> KeyOf(pairs[i]) != Some(key)
    ensures key in AddPairs(m, pairs) && AddPairs(m, pairs)[key] == ValueOf(pairs[j])
    decreases |pairs|
  {
    if j == 0 {
      AddPairsUntouched(AddPair(m, pairs[0]), pairs[1..], key);
    } else {
      forall i | j - 1 < i < |pairs[1..]|
        ensures KeyOf(pairs[1..][i]) != Some(key)
      {
        assert pairs[1..][i] == pairs[i + 1];
      }
      AddPairsLastWins(AddPair(m, pairs[0]), pairs[1..], j - 1, key);
    }
  }

  /** Pairs that do not name `key` leave its entry alone. */
  lemma {:induction false} AddPairsUntouched(m: map<string, string>, pairs: seq<string>, key: string)
    requires forall i :: 0 <= i < |pairs| ==> KeyOf(pairs[i]) != Some(key)
    ensures key in AddPairs(m, pairs) <==> key in m
    ensures key in m ==> AddPairs(m, pairs)[key] == m[key]
    decreases |pairs|
  {
    if pairs != [] {
      AddPairsUntouched(AddPair(m, pairs[0]), pairs[1..], key);
    }
  }

  /** A query with no '=' at all yields no parameters. */
  lemma NoEqualsNoParams(query: string)
    requires '=' !in query
    ensures QueryParams(query) == map[]
  {
    var pairs := Getline(query, '&');
    forall key | key in QueryParams(query)
      ensures false
    {
      AddPairsKeys(map[], pairs, key);
      var j :| 0 <= j < |pairs| && KeyOf(pairs[j]) == Some(key);
      var e :| 0 <= e <= |pairs[j]| - 1 && OccursAt(pairs[j], "=", e);
      GetlineFrom(query, '&', j, pairs[j][e]);
    }
  }
}
