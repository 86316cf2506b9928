/**
 * The HTTP/1.1 request assembler of `HTTPHandler` and its text codecs.
 *
 * A connection buffers incoming bytes; while `parsingHeaders` holds it waits
 * for the blank line "\r\n\r\n", parses the request line and the header lines
 * before it, removes them from the buffer and then waits for `Content-Length`
 * body bytes.  The codecs are percent-encoding (section 2.1 of RFC 3986, as the
 * handler writes and reads it), HTML escaping and the header validators.
 *
 * Strings hold the bytes of a `std::string`: every character is below 256.
 */
module HttpServer {
  import opened Text
  import opened Wrappers
  import Seqs

  const MaxHeaderSize: nat := 8192
  const MaxBodySize: nat := 1048576
  const Terminator: string := "\r\n\r\n"

  /** The characters of a `std::string`. */
  predicate IsBytes(s: string)
  {
    forall i :: 0 <= i < |s| ==> s[i] as int < 256
  }

  // ---------------------------------------------------------------------------
  // Requests
  // ---------------------------------------------------------------------------

  datatype Method = Get | Post | Put | Delete | Head | Options | Patch | Trace | Connect | UnknownMethod

  /** `http_version`, whose enumerators carry the numbers 10, 11, 20 and 0. */
  datatype Version = Http10 | Http11 | Http20 | UnknownVersion
  {
    function Number(): nat
    {
      match this
      case Http10 => 10
      case Http11 => 11
      case Http20 => 20
      case UnknownVersion => 0
    }
  }

  datatype Request = Request(
    verb: Method,
    uri: string,
    path: string,
    query: string,
    version: Version,
    headers: map<string, string>,
    body: string,
    contentLength: nat,
    keepAlive: bool,
    complete: bool)

  /** `HTTPRequest()`. */
  const NewRequest := Request(UnknownMethod, "", "", "", UnknownVersion, map[], "", 0, false, false)

  function StringToMethod(s: string): Method
  {
    if s == "GET" then Get
    else if s == "POST" then Post
    else if s == "PUT" then Put
    else if s == "DELETE" then Delete
    else if s == "HEAD" then Head
    else if s == "OPTIONS" then Options
    else if s == "PATCH" then Patch
    else if s == "TRACE" then Trace
    else if s == "CONNECT" then Connect
    else UnknownMethod
  }

  function StringToVersion(s: string): Version
  {
    if s == "HTTP/1.0" then Http10
    else if s == "HTTP/1.1" then Http11
    else if s == "HTTP/2.0" then Http20
    else UnknownVersion
  }

  // ---------------------------------------------------------------------------
  // Percent-decoding
  // ---------------------------------------------------------------------------

  function HexValue(c: char): (v: nat)
    requires IsHexDigit(c)
    ensures v < 16
  {
    if IsDigit(c) then c as int - '0' as int
    else if 'a' <= c <= 'f' then c as int - 'a' as int + 10
    else c as int - 'A' as int + 10
  }

  /**
   * `strtol` in base 16 on the two characters after a '%', accepted only when
   * it consumes both: two hex digits, or a leading space or sign before one
   * hex digit.  `static_cast<char>` keeps the value modulo 256.
   */
  function PairValue(a: char, b: char): (r: Option<char>)
    ensures r.Some? ==> r.value as int < 256
  {
    if !IsHexDigit(b) then None
    else if IsHexDigit(a) then Some((16 * HexValue(a) + HexValue(b)) as char)
    else if IsSpace(a) || a == '+' then Some(HexValue(b) as char)
    else if a == '-' then Some(((256 - HexValue(b)) % 256) as char)
    else None
  }

  /** `url_decode` (and `decode_uri_component`, which is the same loop). */
  function UrlDecoded(s: string): string
    decreases |s|
  {
    if s == [] then []
    else if s[0] == '%' && 2 < |s| && PairValue(s[1], s[2]).Some? then
      [PairValue(s[1], s[2]).value] + UrlDecoded(s[3..])
    else if s[0] == '+' then [' '] + UrlDecoded(s[1..])
    else [s[0]] + UrlDecoded(s[1..])
  }

  /** A "%XX" escape that `strtol` accepts starts at index `i`. */
  predicate EscapeAt(s: string, i: nat)
  {
    i + 2 < |s| && s[i] == '%' && PairValue(s[i + 1], s[i + 2]).Some?
  }

  /** One step of the decoding loop from index `i`: the text it appends and the next index. */
  lemma DecodeStep(s: string, i: nat)
    requires i < |s|
    ensures EscapeAt(s, i) ==> UrlDecoded(s[i..]) == [PairValue(s[i + 1], s[i + 2]).value] + UrlDecoded(s[i + 3..])
    ensures !EscapeAt(s, i) ==> UrlDecoded(s[i..]) == (if s[i] == '+' then " " else [s[i]]) + UrlDecoded(s[i + 1..])
  {
    var t := s[i..];
    if EscapeAt(s, i) {
      assert t[3..] == s[i + 3..];
    } else {
      assert t[1..] == s[i + 1..];
    }
  }

  method UrlDecode(input: string) returns (decoded: string)
    ensures decoded == UrlDecoded(input)
  {
    decoded := [];
    var i := 0;
    while i < |input|
      invariant 0 <= i <= |input|
      invariant decoded + UrlDecoded(input[i..]) == UrlDecoded(input)
      decreases |input| - i
    {
      DecodeStep(input, i);
      ghost var before := decoded;
      ghost var next := if EscapeAt(input, i) then i + 3 else i + 1;
      if input[i] == '%' && i + 2 < |input| && PairValue(input[i + 1], input[i + 2]).Some? {
        decoded := decoded + [PairValue(input[i + 1], input[i + 2]).value];
        i := i + 2;
      } else if input[i] == '+' {
        decoded := decoded + [' '];
      } else {
        decoded := decoded + [input[i]];
      }
      i := i + 1;
      assert i == next;
      Seqs.AppendAssoc(before, decoded[|before|..], UrlDecoded(input[i..]));
    }
  }

  // ---------------------------------------------------------------------------
  // Percent-encoding
  // ---------------------------------------------------------------------------

  /** The characters `url_encode` copies: alphanumerics and "-_.~". */
  predicate Unreserved(c: char)
  {
    IsAlnum(c) || c == '-' || c == '_' || c == '.' || c == '~'
  }

  /** A lower-case hex digit, as `std::hex` writes it. */
  function HexDigit(d: nat): (c: char)
    requires d < 16
    ensures IsHexDigit(c) && HexValue(c) == d
  {
    if d < 10 then ('0' as int + d) as char else ('a' as int + d - 10) as char
  }

  /** `%` and two hex digits, or the character itself when it is unreserved. */
  function Escaped(c: char): (r: string)
    requires c as int < 256
    ensures Unreserved(c) ==> r == [c]
    ensures !Unreserved(c) ==> |r| == 3 && r[0] == '%' && IsHexDigit(r[1]) && IsHexDigit(r[2])
  {
    if Unreserved(c) then [c] else ['%', HexDigit(c as int / 16), HexDigit(c as int % 16)]
  }

  function UrlEncoded(s: string): string
    requires IsBytes(s)
  {
    if s == [] then [] else Escaped(s[0]) + UrlEncoded(s[1..])
  }

  method UrlEncode(input: string) returns (encoded: string)
    requires IsBytes(input)
    ensures encoded == UrlEncoded(input)
  {
    encoded := [];
    var i := 0;
    while i < |input|
      invariant 0 <= i <= |input|
      invariant encoded + UrlEncoded(input[i..]) == UrlEncoded(input)
    {
      assert input[i..][1..] == input[i + 1..];
      encoded := encoded + Escaped(input[i]);
      i := i + 1;
    }
  }

  /** Every character of an encoding is unreserved, a '%', or a hex digit right after a '%'. */
  lemma {:induction false} EncodedAlphabet(s: string)
    requires IsBytes(s)
    ensures forall j :: 0 <= j < |UrlEncoded(s)| ==>
      Unreserved(UrlEncoded(s)[j]) || UrlEncoded(s)[j] == '%' || IsHexDigit(UrlEncoded(s)[j])
  {
    if s != [] {
      EncodedAlphabet(s[1..]);
      var e, r := Escaped(s[0]), UrlEncoded(s[1..]);
      assert forall j :: |e| <= j < |e + r| ==> (e + r)[j] == r[j - |e|];
    }
  }

  /** A character that is not unreserved never appears as itself in an encoding: no '+', '/', ' ', ... */
  lemma ReservedNeverCopied(s: string, c: char)
    requires IsBytes(s) && !Unreserved(c) && c != '%' && !IsHexDigit(c)
    ensures c !in UrlEncoded(s)
  {
    EncodedAlphabet(s);
  }

  /** Decoding the encoding of any byte string gives it back. */
  lemma {:induction false} UrlRoundTrip(s: string)
    requires IsBytes(s)
    ensures UrlDecoded(UrlEncoded(s)) == s
  {
    if s != [] {
      var c := s[0];
      var e, r := Escaped(c), UrlEncoded(s[1..]);
      UrlRoundTrip(s[1..]);
      if Unreserved(c) {
        assert (e + r)[1..] == r;
      } else {
        assert (e + r)[3..] == r;
        assert PairValue(e[1], e[2]) == Some(c);
      }
      assert s == [c] + s[1..];
    }
  }

  /** `strtol` also accepts a sign or a space before one hex digit: "%+5" decodes to the byte 5. */
  lemma SignedEscapeAccepted()
    ensures UrlDecoded("%+5") == [5 as char]
    ensures UrlDecoded("%-1") == [255 as char]
  {
  }

  // ---------------------------------------------------------------------------
  // HTML escaping
  // ---------------------------------------------------------------------------

  function Entity(c: char): (r: string)
    ensures r != [] && (r == [c] <==> c !in "<>&\"'")
  {
    if c == '<' then "&lt;"
    else if c == '>' then "&gt;"
    else if c == '&' then "&amp;"
    else if c == '"' then "&quot;"
    else if c == '\'' then "&#39;"
    else [c]
  }

  function HtmlEscaped(s: string): string
  {
    if s == [] then [] else Entity(s[0]) + HtmlEscaped(s[1..])
  }

  method HtmlEscape(input: string) returns (escaped: string)
    ensures escaped == HtmlEscaped(input)
  {
    escaped := [];
    var i := 0;
    while i < |input|
      invariant 0 <= i <= |input|
      invariant escaped + HtmlEscaped(input[i..]) == HtmlEscaped(input)
    {
      assert input[i..][1..] == input[i + 1..];
      escaped := escaped + Entity(input[i]);
      i := i + 1;
    }
  }

  /** The reference inverse: each entity back to its character. */
  function HtmlUnescaped(s: string): string
  {
    if s == [] then []
    else if "&lt;" <= s then "<" + HtmlUnescaped(s[4..])
    else if "&gt;" <= s then ">" + HtmlUnescaped(s[4..])
    else if "&amp;" <= s then "&" + HtmlUnescaped(s[5..])
    else if "&quot;" <= s then "\"" + HtmlUnescaped(s[6..])
    else if "&#39;" <= s then "'" + HtmlUnescaped(s[5..])
    else [s[0]] + HtmlUnescaped(s[1..])
  }

  /** Escaped text holds no '<', '>', '"' or '\''. */
  lemma {:induction false} HtmlEscapeSafe(s: string)
    ensures forall j :: 0 <= j < |HtmlEscaped(s)| ==> HtmlEscaped(s)[j] !in "<>\"'"
  {
    if s != [] {
      var e, r := Entity(s[0]), HtmlEscaped(s[1..]);
      HtmlEscapeSafe(s[1..]);
      assert forall j :: |e| <= j < |e + r| ==> (e + r)[j] == r[j - |e|];
    }
  }

  /** One entity followed by any text unescapes to its character. */
  lemma UnescapeEntity(c: char, r: string)
    ensures HtmlUnescaped(Entity(c) + r) == [c] + HtmlUnescaped(r)
  {
    var e := Entity(c);
    var t := e + r;
    assert t[|e|..] == r;
    assert t[..|e|] == e;
    if c == '<' {
      assert "&lt;" <= t;
    } else if c == '>' {
      assert t[1] == 'g';
      assert "&gt;" <= t;
    } else if c == '&' {
      assert t[1] == 'a';
      assert "&amp;" <= t;
    } else if c == '"' {
      assert t[1] == 'q';
      assert "&quot;" <= t;
    } else if c == '\'' {
      assert t[1] == '#';
      assert "&#39;" <= t;
    } else {
      assert t[0] == c && c != '&';
    }
  }

  /** Unescaping inverts escaping. */
  lemma {:induction false} HtmlRoundTrip(s: string)
    ensures HtmlUnescaped(HtmlEscaped(s)) == s
  {
    if s != [] {
      HtmlRoundTrip(s[1..]);
      UnescapeEntity(s[0], HtmlEscaped(s[1..]));
      assert s == [s[0]] + s[1..];
    }
  }

  // ---------------------------------------------------------------------------
  // Header lines
  // ---------------------------------------------------------------------------

  predicate IsValidHeaderName(name: string)
  {
    name != [] && forall i :: 0 <= i < |name| ==> IsAlnum(name[i]) || name[i] == '-' || name[i] == '_'
  }

  /**
   * No control character but tab.  `char` is signed, so a byte from 0x80 up
   * compares below 0x20 and is refused too.
   */
  predicate IsValidHeaderValue(value: string)
  {
    forall i :: 0 <= i < |value| ==> value[i] == '\t' || (' ' <= value[i] && value[i] as int < 0x80)
  }

  predicate IsBlank(c: char) { c == ' ' || c == '\t' }

  /** `s.erase(s.find_last_not_of(" \t") + 1)`. */
  function TrimBlankEnd(s: string): (r: string)
    ensures r <= s && (r != [] ==> !IsBlank(r[|r| - 1]))
  {
    if s != [] && IsBlank(s[|s| - 1]) then TrimBlankEnd(s[..|s| - 1]) else s
  }

  /** `s.erase(0, s.find_first_not_of(" \t"))`. */
  function TrimBlankStart(s: string): (r: string)
    ensures |r| <= |s| && r == s[|s| - |r|..] && (r != [] ==> !IsBlank(r[0]))
  {
    if s != [] && IsBlank(s[0]) then TrimBlankStart(s[1..]) else s
  }

  /**
   * `std::stoul` on a trimmed header value: an optional sign, then digits.
   * No digit, or a magnitude of 2^64 or more, throws; the model reports
   * `None`.  A minus sign negates modulo 2^64.
   */
  function Stoul(s: string): (r: Option<nat>)
    ensures r.Some? ==> r.value < 0x1_0000_0000_0000_0000
  {
    var sign := s != [] && (s[0] == '+' || s[0] == '-');
    var t := if sign then s[1..] else s;
    var n := DigitRunEnd(t, 0);
    if n == 0 then None
    else
      var v := DigitsValue(t[..n]);
      if v >= 0x1_0000_0000_0000_0000 then None
      else if sign && s[0] == '-' then Some((0x1_0000_0000_0000_0000 - v) % 0x1_0000_0000_0000_0000)
      else Some(v)
  }

  function DigitRunEnd(s: string, i: nat): (n: nat)
    requires i <= |s|
    ensures i <= n <= |s| && forall j :: 0 <= j < n ==> j < i || IsDigit(s[j])
    decreases |s| - i
  {
    if i < |s| && IsDigit(s[i]) then DigitRunEnd(s, i + 1) else i
  }

  /** A run of digits reaches to the end of a text made only of digits. */
  lemma {:induction false} DigitRunToEnd(s: string, i: nat)
    requires i <= |s| && forall j :: 0 <= j < |s| ==> IsDigit(s[j])
    ensures DigitRunEnd(s, i) == |s|
    decreases |s| - i
  {
    if i < |s| {
      DigitRunToEnd(s, i + 1);
    }
  }

  /** A plain digit string is read as its value when that fits in 64 bits, and refused otherwise. */
  lemma StoulOfDigits(s: string)
    requires s != [] && forall i :: 0 <= i < |s| ==> IsDigit(s[i])
    ensures DigitsValue(s) < 0x1_0000_0000_0000_0000 ==> Stoul(s) == Some(DigitsValue(s))
    ensures DigitsValue(s) >= 0x1_0000_0000_0000_0000 ==> Stoul(s) == None
  {
    assert !(s[0] == '+' || s[0] == '-');
    DigitRunToEnd(s, 0);
    assert s[..|s|] == s;
  }

  /** A '-' before a digit string that fits in 64 bits negates its value modulo 2^64. */
  lemma StoulOfNegated(s: string)
    requires s != [] && forall i :: 0 <= i < |s| ==> IsDigit(s[i])
    requires DigitsValue(s) < 0x1_0000_0000_0000_0000
    ensures Stoul("-" + s) == Some((0x1_0000_0000_0000_0000 - DigitsValue(s)) % 0x1_0000_0000_0000_0000)
  {
    var m := "-" + s;
    assert m[0] == '-' && m[1..] == s;
    DigitRunToEnd(s, 0);
    assert s[..|s|] == s;
  }

  /** Nothing, or a sign with no digit after it, is refused. */
  lemma StoulWithoutDigits()
    ensures Stoul("") == None && Stoul("-") == None && Stoul("+") == None
  {
    assert "-"[1..] == [];
    assert "+"[1..] == [];
  }

  /** The name before the first ':' and the value after it, both trimmed, when both are valid. */
  function SplitHeader(line: string): (r: Option<(string, string)>)
    ensures r.Some? ==> IsValidHeaderName(r.value.0) && IsValidHeaderValue(r.value.1)
  {
    var colon := IndexOf(line, ":", 0);
    if colon < 0 then None
    else
      var name := TrimBlankEnd(line[..colon]);
      var value := TrimBlankStart(TrimBlankEnd(line[colon + 1..]));
      if !IsValidHeaderName(name) || !IsValidHeaderValue(value) then None
      else Some((name, value))
  }

  /** Stores a header under `key`; "content-length" and "connection" also set their fields. */
  function StoreHeader(req: Request, key: string, value: string): (r: (bool, Request))
    ensures r.1.headers == req.headers[key := value]
    ensures key != "content-length" ==> r.0
    ensures r.1 == req.(headers := r.1.headers, contentLength := r.1.contentLength, keepAlive := r.1.keepAlive)
  {
    var stored := req.(headers := req.headers[key := value]);
    if key == "content-length" then
      match Stoul(value)
      case None => (false, stored)
      case Some(n) => (true, stored.(contentLength := n))
    else if key == "connection" then
      (true, stored.(keepAlive := Contains(Lower(value), "keep-alive")))
    else (true, stored)
  }

  /**
   * `parse_header_line`: the outcome and the request as the call leaves it.
   * The name is stored lower-cased with the trimmed value.
   */
  function ParseHeaderLine(line: string, req: Request): (r: (bool, Request))
    ensures r.1 == req.(headers := r.1.headers, contentLength := r.1.contentLength, keepAlive := r.1.keepAlive)
  {
    match SplitHeader(line)
    case None => (false, req)
    case Some((name, value)) => StoreHeader(req, Lower(name), value)
  }

  predicate LowerKeys(headers: map<string, string>)
  {
    forall k :: k in headers ==> forall i :: 0 <= i < |k| ==> !IsUpper(k[i])
  }

  /** Header names are stored lower-cased. */
  lemma HeaderNamesLowerCased(line: string, req: Request)
    requires LowerKeys(req.headers)
    ensures LowerKeys(ParseHeaderLine(line, req).1.headers)
  {
    match SplitHeader(line)
    case None =>
    case Some((name, value)) =>
      var key := Lower(name);
      LowerHasNoUpper(name);
      var hs := req.headers[key := value];
      assert ParseHeaderLine(line, req).1.headers == hs;
      forall k | k in hs
        ensures forall i :: 0 <= i < |k| ==> !IsUpper(k[i])
      {
        if k != key {
          assert k in req.headers;
        }
      }
  }

  lemma LowerHasNoUpper(s: string)
    ensures forall i :: 0 <= i < |Lower(s)| ==> !IsUpper(Lower(s)[i])
  {
    forall i | 0 <= i < |Lower(s)|
      ensures !IsUpper(Lower(s)[i])
    {
      assert Lower(s)[i] == ToLower(s[i]);
    }
  }

  /** A line without ':' or with a name outside [A-Za-z0-9_-] is refused and changes nothing. */
  lemma BadHeaderLineRejected(line: string, req: Request)
    requires ':' !in line ||
      (IndexOf(line, ":", 0) >= 0 && !IsValidHeaderName(TrimBlankEnd(line[..IndexOf(line, ":", 0)])))
    ensures ParseHeaderLine(line, req) == (false, req)
  {
    if ':' !in line {
      ColonAbsent(line);
    }
  }

  lemma ColonAbsent(line: string)
    requires ':' !in line
    ensures IndexOf(line, ":", 0) == -1
  {
    forall i | 0 <= i <= |line| - 1
      ensures !OccursAt(line, ":", i)
    {
      assert line[i] != ':';
    }
  }

  /** The first ':' of `name + rest` is right after `name` when `name` holds none. */
  lemma ColonAfter(name: string, rest: string)
    requires ':' !in name && rest != [] && rest[0] == ':'
    ensures IndexOf(name + rest, ":", 0) == |name|
  {
    var line := name + rest;
    assert OccursAt(line, ":", |name|);
    forall i | 0 <= i < |name|
      ensures !OccursAt(line, ":", i)
    {
      assert line[i] == name[i];
    }
  }

  /** A valid name and value written as "name: value" are split back into themselves. */
  lemma SplitHeaderOf(name: string, value: string)
    requires IsValidHeaderName(name) && IsValidHeaderValue(value)
    requires value == [] || (!IsBlank(value[0]) && !IsBlank(value[|value| - 1]))
    ensures SplitHeader(name + ": " + value) == Some((name, value))
  {
    var line := name + ": " + value;
    assert line == name + (": " + value);
    ColonAfter(name, ": " + value);
    assert line[..|name|] == name;
    assert line[|name| + 1..] == " " + value;
    assert !IsBlank(name[|name| - 1]);
    TrimSpacedValue(value);
  }

  /** Trimming the text after the colon of "name: value" gives the value back. */
  lemma TrimSpacedValue(value: string)
    requires value == [] || (!IsBlank(value[0]) && !IsBlank(value[|value| - 1]))
    ensures TrimBlankStart(TrimBlankEnd(" " + value)) == value
  {
    var t := " " + value;
    if value == [] {
      assert t[..0] == "";
      assert TrimBlankEnd(t) == "";
    } else {
      assert t[|t| - 1] == value[|value| - 1];
      assert TrimBlankEnd(t) == t;
      assert IsBlank(t[0]) && t[1..] == value;
      assert TrimBlankStart(t) == TrimBlankStart(t[1..]);
      assert !IsBlank(value[0]);
      assert TrimBlankStart(value) == value;
    }
  }

  /** A valid line stores its trimmed value under the lower-cased name. */
  lemma HeaderStored(name: string, value: string, req: Request)
    requires IsValidHeaderName(name) && IsValidHeaderValue(value)
    requires value == [] || (!IsBlank(value[0]) && !IsBlank(value[|value| - 1]))
    requires Lower(name) != "content-length"
    ensures var r := ParseHeaderLine(name + ": " + value, req);
      r.0 && r.1.headers == req.headers[Lower(name) := value]
  {
    SplitHeaderOf(name, value);
  }

  // ---------------------------------------------------------------------------
  // Request line and URI
  // ---------------------------------------------------------------------------

  /** Where the run of non-space characters that starts at `i` ends. */
  function WordEnd(s: string, i: nat): (n: nat)
    requires i <= |s|
    ensures i <= n <= |s|
    decreases |s| - i
  {
    if i < |s| && !IsSpace(s[i]) then WordEnd(s, i + 1) else i
  }

  /** The whitespace-separated words `operator>>` reads from an `istringstream`. */
  function Words(s: string): (ws: seq<string>)
    ensures forall k :: 0 <= k < |ws| ==> ws[k] != []
    decreases |s|
  {
    if s == [] then []
    else if IsSpace(s[0]) then Words(s[1..])
    else
      var n := WordEnd(s, 1);
      [s[..n]] + Words(s[n..])
  }

  /** `parse_uri`: a path that must start with '/', the query after the first '?'. */
  function ParseUri(uri: string): (r: Option<(string, string)>)
    ensures r.None? <==> uri == [] || uri[0] != '/'
  {
    if uri == [] || uri[0] != '/' then None
    else
      var q := IndexOf(uri, "?", 0);
      if q < 0 then Some((UrlDecoded(uri), ""))
      else Some((UrlDecoded(uri[..q]), uri[q + 1..]))
  }

  /** The query is everything after the first '?'; the path is the decoded text before it. */
  lemma UriSplit(path: string, query: string)
    requires path != [] && path[0] == '/' && '?' !in path
    ensures ParseUri(path + "?" + query) == Some((UrlDecoded(path), query))
  {
    var uri := path + "?" + query;
    assert OccursAt(uri, "?", |path|);
    forall i | 0 <= i < |path|
      ensures !OccursAt(uri, "?", i)
    {
      assert uri[i] == path[i];
    }
    assert uri[..|path|] == path;
    assert uri[|path| + 1..] == query;
  }

  /** `parse_request_line`: method, URI and version, each stored before it is checked. */
  function ParseRequestLine(line: string, req: Request): (r: (bool, Request))
    ensures r.0 ==> (r.1.verb != UnknownMethod && r.1.version != UnknownVersion &&
      r.1.path != [] && r.1.uri != [] && r.1.uri[0] == '/')
    ensures r.1 == req.(verb := r.1.verb, uri := r.1.uri, path := r.1.path, query := r.1.query, version := r.1.version)
  {
    var w := Words(line);
    if |w| < 3 then (false, req)
    else
      var withMethod := req.(verb := StringToMethod(w[0]));
      if withMethod.verb == UnknownMethod then (false, withMethod)
      else
        var withUri := withMethod.(uri := w[1]);
        match ParseUri(w[1])
        case None => (false, withUri)
        case Some(pq) =>
          var withVersion := withUri.(path := pq.0, query := pq.1, version := StringToVersion(w[2]));
          assert pq.0 != [] by { DecodedNonEmpty(w[1], pq); }
          (withVersion.version != UnknownVersion, withVersion)
  }

  lemma DecodedNonEmpty(uri: string, pq: (string, string))
    requires ParseUri(uri) == Some(pq)
    ensures pq.0 != []
  {
  }

  // ---------------------------------------------------------------------------
  // The header section
  // ---------------------------------------------------------------------------

  function DropCR(line: string): string
  {
    if line != [] && line[|line| - 1] == '\r' then line[..|line| - 1] else line
  }

  /**
   * The header loop from line `i`: the first line is the request line, empty
   * lines after it are skipped.  The error message, if any, and the request.
   */
  function ParseLinesFrom(lines: seq<string>, i: nat, req: Request): (r: (Option<string>, Request))
    requires i <= |lines|
    ensures r.1.body == req.body && r.1.complete == req.complete
    decreases |lines| - i
  {
    if i == |lines| then (None, req)
    else
      var line := DropCR(lines[i]);
      if i == 0 then
        var (ok, next) := ParseRequestLine(line, req);
        if !ok then (Some("Invalid HTTP request line"), next) else ParseLinesFrom(lines, i + 1, next)
      else if line == [] then ParseLinesFrom(lines, i + 1, req)
      else
        var (ok, next) := ParseHeaderLine(line, req);
        if !ok then (Some("Invalid HTTP header line: " + line), next) else ParseLinesFrom(lines, i + 1, next)
  }

  /** The request line decides the first turn of the header loop. */
  lemma FirstLineStep(lines: seq<string>, req: Request)
    requires 0 < |lines|
    ensures var r := ParseRequestLine(DropCR(lines[0]), req);
      ParseLinesFrom(lines, 0, req) ==
        if r.0 then ParseLinesFrom(lines, 1, r.1) else (Some("Invalid HTTP request line"), r.1)
  {
  }

  /** A later header line decides its turn; an empty one is skipped. */
  lemma HeaderLineStep(lines: seq<string>, i: nat, req: Request)
    requires 0 < i < |lines|
    ensures var line := DropCR(lines[i]);
      var r := ParseHeaderLine(line, req);
      ParseLinesFrom(lines, i, req) ==
        if line == [] then ParseLinesFrom(lines, i + 1, req)
        else if r.0 then ParseLinesFrom(lines, i + 1, r.1)
        else (Some("Invalid HTTP header line: " + line), r.1)
  {
  }

  /** The header loop: the request line first, then every non-empty header line. */
  method ParseHeaderLines(lines: seq<string>, req: Request) returns (err: Option<string>, out: Request)
    ensures (err, out) == ParseLinesFrom(lines, 0, req)
  {
    out := req;
    if |lines| == 0 {
      return None, out;
    }
    FirstLineStep(lines, req);
    var first := ParseRequestLine(DropCR(lines[0]), req);
    out := first.1;
    if !first.0 {
      return Some("Invalid HTTP request line"), out;
    }
    err, out := ParseRemainingLines(lines, out);
  }

  method ParseRemainingLines(lines: seq<string>, req: Request) returns (err: Option<string>, out: Request)
    requires 0 < |lines|
    ensures (err, out) == ParseLinesFrom(lines, 1, req)
  {
    out := req;
    var i := 1;
    while i < |lines|
      invariant 1 <= i <= |lines|
      invariant ParseLinesFrom(lines, i, out) == ParseLinesFrom(lines, 1, req)
    {
      var line := DropCR(lines[i]);
      HeaderLineStep(lines, i, out);
      if line != [] {
        var r := ParseHeaderLine(line, out);
        out := r.1;
        if !r.0 {
          return Some("Invalid HTTP header line: " + line), out;
        }
      }
      i := i + 1;
    }
    return None, out;
  }

  /** `process_connection_headers`: the Connection header decides, else the version. */
  function KeepAlive(req: Request): bool
  {
    if "connection" in req.headers then Contains(Lower(req.headers["connection"]), "keep-alive")
    else req.version.Number() >= 11
  }

  /** Without a Connection header, keep-alive holds exactly from HTTP/1.1 on. */
  lemma KeepAliveDefault(req: Request)
    requires "connection" !in req.headers
    ensures KeepAlive(req) <==> req.version == Http11 || req.version == Http20
  {
  }

  // ---------------------------------------------------------------------------
  // The connection
  // ---------------------------------------------------------------------------

  datatype Conn = Conn(
    buffer: string,
    parsingHeaders: bool,
    bytesNeeded: nat,
    request: Request,
    keepAlive: bool,
    lastError: string)

  /** `HTTPConnection(socket_id)` with a fresh request. */
  const NewConn := Conn("", true, 0, NewRequest, false, "")

  /**
   * `parse_body`: with `bytesNeeded` bytes buffered the body is exactly those
   * bytes and they leave the buffer; with fewer nothing changes.
   */
  function ParseBody(c: Conn): (r: Conn)
    ensures c.bytesNeeded == 0 ==> r == c.(request := c.request.(complete := true))
    ensures 0 < c.bytesNeeded <= |c.buffer| ==>
      c.buffer == r.request.body + r.buffer && |r.request.body| == c.bytesNeeded &&
      r.request.complete && r.bytesNeeded == 0 && r.parsingHeaders == c.parsingHeaders
    ensures |c.buffer| < c.bytesNeeded ==> r == c
    ensures r.request.contentLength == c.request.contentLength && r.keepAlive == c.keepAlive
  {
    if c.bytesNeeded == 0 then c.(request := c.request.(complete := true))
    else if |c.buffer| >= c.bytesNeeded then
      var n := c.bytesNeeded;
      assert c.buffer == c.buffer[..n] + c.buffer[n..];
      c.(request := c.request.(body := c.buffer[..n], complete := true), buffer := c.buffer[n..], bytesNeeded := 0)
    else c
  }

  /** `parse_headers`. */
  function ParseHeaders(c: Conn): (r: (bool, Conn))
  {
    var k := IndexOf(c.buffer, Terminator, 0);
    if k < 0 then (true, c)
    else
      var (err, req) := ParseLinesFrom(Getline(c.buffer[..k], '\n'), 0, c.request);
      if err.Some? then (false, c.(request := req, lastError := err.value))
      else
        var keep := KeepAlive(req);
        var after := c.(buffer := c.buffer[k + 4..], parsingHeaders := false,
                        request := req.(keepAlive := keep), keepAlive := keep);
        if req.contentLength > 0 then
          if req.contentLength > MaxBodySize then (false, after.(lastError := "HTTP body too large"))
          else (true, ParseBody(after.(bytesNeeded := req.contentLength)))
        else (true, after.(request := after.request.(complete := true)))
  }

  /** `process_incoming_data`. */
  function Process(c: Conn, data: string): (r: (bool, Conn))
  {
    if data == [] then (false, c.(lastError := "Invalid input data"))
    else
      var c1 := c.(buffer := c.buffer + data);
      if |c1.buffer| > MaxHeaderSize && c1.parsingHeaders then (false, c1.(lastError := "HTTP headers too large"))
      else if c1.parsingHeaders then ParseHeaders(c1)
      else (true, ParseBody(c1))
  }

  /** Empty input is refused and leaves the buffer alone. */
  lemma EmptyInputRejected(c: Conn)
    ensures !Process(c, "").0 && Process(c, "").1.buffer == c.buffer
  {
  }

  /** Until "\r\n\r\n" is buffered, header parsing only buffers. */
  lemma WaitsForBlankLine(c: Conn, data: string)
    requires c.parsingHeaders && data != [] && |c.buffer + data| <= MaxHeaderSize
    requires !Contains(c.buffer + data, Terminator)
    ensures Process(c, data) == (true, c.(buffer := c.buffer + data))
  {
    ContainsIffIndexOf(c.buffer + data, Terminator);
  }

  /**
   * Once the blank line is found and the lines parse, the header text and the
   * blank line leave the buffer; the body, when it is complete, is exactly
   * `contentLength` bytes taken from what followed.
   */
  lemma HeadersConsumed(c: Conn)
    requires Contains(c.buffer, Terminator) && ParseHeaders(c).0 && !c.request.complete
    ensures var k, r := IndexOf(c.buffer, Terminator, 0), ParseHeaders(c).1;
      k >= 0 && !r.parsingHeaders &&
      (r.request.contentLength == 0 ==> r.buffer == c.buffer[k + 4..] && r.request.complete) &&
      (r.request.contentLength > 0 && r.request.complete ==>
        c.buffer[k + 4..] == r.request.body + r.buffer && |r.request.body| == r.request.contentLength) &&
      (r.request.contentLength > 0 && !r.request.complete ==>
        r.buffer == c.buffer[k + 4..] && r.bytesNeeded == r.request.contentLength > |r.buffer|)
  {
    ContainsIffIndexOf(c.buffer, Terminator);
  }

  /** Body bytes arriving later complete the request with exactly the bytes it waited for. */
  lemma BodyCompletes(c: Conn, data: string)
    requires !c.parsingHeaders && data != [] && 0 < c.bytesNeeded <= |c.buffer + data|
    ensures var r := Process(c, data);
      r.0 && r.1.request.complete && r.1.request.body == (c.buffer + data)[..c.bytesNeeded] &&
      r.1.buffer == (c.buffer + data)[c.bytesNeeded..]
  {
  }

  class HttpHandler {
    var buffer: string
    var parsingHeaders: bool
    var bytesNeeded: nat
    var request: Request
    var keepAlive: bool
    var lastError: string

    function State(): Conn
      reads this
    {
      Conn(buffer, parsingHeaders, bytesNeeded, request, keepAlive, lastError)
    }

    constructor()
      ensures State() == NewConn
    {
      buffer, parsingHeaders, bytesNeeded := "", true, 0;
      request, keepAlive, lastError := NewRequest, false, "";
    }

    method SetState(c: Conn)
      modifies this
      ensures State() == c
    {
      buffer, parsingHeaders, bytesNeeded := c.buffer, c.parsingHeaders, c.bytesNeeded;
      request, keepAlive, lastError := c.request, c.keepAlive, c.lastError;
    }

    method ParseBodyStep()
      modifies this
      ensures State() == ParseBody(old(State()))
    {
      if bytesNeeded == 0 {
        request := request.(complete := true);
        return;
      }
      if |buffer| >= bytesNeeded {
        request := request.(body := buffer[..bytesNeeded], complete := true);
        buffer := buffer[bytesNeeded..];
        bytesNeeded := 0;
      }
    }

    method ParseHeadersStep() returns (ok: bool)
      modifies this
      ensures (ok, State()) == ParseHeaders(old(State()))
    {
      ghost var c := State();
      var k := IndexOf(buffer, Terminator, 0);
      if k < 0 {
        assert ParseHeaders(c) == (true, c);
        return true;
      }
      var err, req := ParseHeaderLines(Getline(buffer[..k], '\n'), request);
      if err.Some? {
        assert ParseHeaders(c) == (false, c.(request := req, lastError := err.value));
        request, lastError := req, err.value;
        return false;
      }
      var keep := KeepAlive(req);
      buffer, parsingHeaders, request, keepAlive := buffer[k + 4..], false, req.(keepAlive := keep), keep;
      ghost var after := c.(buffer := c.buffer[k + 4..], parsingHeaders := false,
                            request := req.(keepAlive := keep), keepAlive := keep);
      assert State() == after;
      if req.contentLength > 0 {
        if req.contentLength > MaxBodySize {
          assert ParseHeaders(c) == (false, after.(lastError := "HTTP body too large"));
          lastError := "HTTP body too large";
          return false;
        }
        assert ParseHeaders(c) == (true, ParseBody(after.(bytesNeeded := req.contentLength)));
        bytesNeeded := req.contentLength;
        ParseBodyStep();
        return true;
      }
      assert ParseHeaders(c) == (true, after.(request := after.request.(complete := true)));
      request := request.(complete := true);
      return true;
    }

    method ProcessIncomingData(data: string) returns (ok: bool)
      modifies this
      ensures (ok, State()) == Process(old(State()), data)
    {
      if data == [] {
        lastError := "Invalid input data";
        return false;
      }
      buffer := buffer + data;
      if |buffer| > MaxHeaderSize && parsingHeaders {
        lastError := "HTTP headers too large";
        return false;
      }
      if parsingHeaders {
        ok := ParseHeadersStep();
      } else {
        ParseBodyStep();
        ok := true;
      }
    }

    /** `reset_request_state`: a fresh request, header parsing again, an empty buffer. */
    method ResetRequestState()
      modifies this
      ensures State() == old(State()).(request := NewRequest, parsingHeaders := true, bytesNeeded := 0, buffer := "")
    {
      request := NewRequest;
      parsingHeaders := true;
      bytesNeeded := 0;
      buffer := "";
    }
  }
}
