/**
 * ASCII text helpers shared by the modules: character classes, case mapping,
 * substring search (the `find`/`in` of the source languages), splitting and
 * trimming.  Characters beyond ASCII are treated as ordinary letters that no
 * class below contains and case mapping leaves unchanged.
 */
module Text {

  predicate IsDigit(c: char) { '0' <= c <= '9' }
  predicate IsUpper(c: char) { 'A' <= c <= 'Z' }
  predicate IsLower(c: char) { 'a' <= c <= 'z' }
  predicate IsAlpha(c: char) { IsUpper(c) || IsLower(c) }
  predicate IsAlnum(c: char) { IsAlpha(c) || IsDigit(c) }
  predicate IsHexDigit(c: char) { IsDigit(c) || 'a' <= c <= 'f' || 'A' <= c <= 'F' }

  /** The C `isspace` class in the "C" locale. */
  predicate IsSpace(c: char)
  {
    c == ' ' || c == '\t' || c == '\n' || c == '\r' || c == '\U{0B}' || c == '\U{0C}'
  }

  function ToLower(c: char): (r: char)
    ensures IsUpper(c) ==> IsLower(r)
    ensures !IsUpper(c) ==> r == c
  {
    if IsUpper(c) then (c as int + 32) as char else c
  }

  function ToUpper(c: char): (r: char)
    ensures IsLower(c) ==> IsUpper(r)
    ensures !IsLower(c) ==> r == c
  {
    if IsLower(c) then (c as int - 32) as char else c
  }

  function Lower(s: string): (r: string)
    ensures |r| == |s| && forall i :: 0 <= i < |s| ==> r[i] == ToLower(s[i])
  {
    seq(|s|, i requires 0 <= i < |s| => ToLower(s[i]))
  }

  function Upper(s: string): (r: string)
    ensures |r| == |s| && forall i :: 0 <= i < |s| ==> r[i] == ToUpper(s[i])
  {
    seq(|s|, i requires 0 <= i < |s| => ToUpper(s[i]))
  }

  /** `p` occurs in `s` starting at index `i`. */
  predicate OccursAt(s: string, p: string, i: int)
  {
    0 <= i && i + |p| <= |s| && s[i..i + |p|] == p
  }

  /** Substring containment: Python's `p in s`, C++'s `s.find(p) != npos`. */
  predicate Contains(s: string, p: string)
  {
    exists i :: 0 <= i <= |s| - |p| && OccursAt(s, p, i)
  }

  /** The first occurrence of `p` in `s` at or after `from`, or -1 (C++ `npos`). */
  function IndexOf(s: string, p: string, from: nat): (r: int)
    ensures r == -1 || (from <= r && OccursAt(s, p, r))
    ensures forall i :: from <= i && (r == -1 || i < r) ==> !OccursAt(s, p, i)
    decreases |s| - from
  {
    if from + |p| > |s| then -1
    else if s[from..from + |p|] == p then from
    else IndexOf(s, p, from + 1)
  }

  lemma ContainsIffIndexOf(s: string, p: string)
    ensures Contains(s, p) <==> IndexOf(s, p, 0) >= 0
  {
    var r := IndexOf(s, p, 0);
    if r >= 0 {
      assert OccursAt(s, p, r);
    }
  }

  /** The first index at or after `from` holding `c`, or -1 (C++ `find(char, pos)`). */
  function FindChar(s: string, c: char, from: nat): (r: int)
    ensures r == -1 || (from <= r < |s| && s[r] == c)
    decreases |s| - from
  {
    if from >= |s| then -1
    else if s[from] == c then from
    else FindChar(s, c, from + 1)
  }

  /** `FindChar` returns the first `c` at or after `from`, and -1 only when there is none. */
  lemma {:induction false} FindCharMeaning(s: string, c: char, from: nat)
    ensures var r := FindChar(s, c, from);
      (r == -1 ==> forall i :: from <= i < |s| ==> s[i] != c)
      && (r != -1 ==> forall i :: from <= i < r ==> s[i] != c)
    decreases |s| - from
  {
    if from < |s| && s[from] != c {
      FindCharMeaning(s, c, from + 1);
    }
  }

  /** Positions without `c` are passed over. */
  lemma {:induction false} FindCharSkip(s: string, c: char, from: nat, stop: nat)
    requires from <= stop <= |s|
    requires forall i :: from <= i < stop ==> s[i] != c
    ensures FindChar(s, c, from) == FindChar(s, c, stop)
    decreases stop - from
  {
    if from < stop {
      FindCharSkip(s, c, from + 1, stop);
    }
  }

  /** The search stops at the first `c`. */
  lemma {:induction false} FindCharFirst(s: string, c: char, from: nat, k: nat)
    requires from <= k < |s| && s[k] == c
    requires forall i :: from <= i < k ==> s[i] != c
    ensures FindChar(s, c, from) == k
  {
    FindCharSkip(s, c, from, k);
  }

  /** Searching from `from` is searching the suffix that starts there. */
  lemma {:induction false} IndexOfSuffix(s: string, p: string, from: nat, j: nat)
    requires from <= |s|
    ensures var r := IndexOf(s[from..], p, j);
      IndexOf(s, p, from + j) == if r < 0 then -1 else from + r
    decreases |s| - from - j
  {
    var t := s[from..];
    if from + j + |p| <= |s| {
      assert t[j..j + |p|] == s[from + j..from + j + |p|];
      IndexOfSuffix(s, p, from, j + 1);
    }
  }

  /** An occurrence with none before it is the one `IndexOf` finds. */
  lemma FirstOccurrence(s: string, p: string, from: nat, k: nat)
    requires from <= k && OccursAt(s, p, k)
    requires forall i :: from <= i < k ==> !OccursAt(s, p, i)
    ensures IndexOf(s, p, from) == k
  {
  }

  predicate StartsWith(s: string, p: string) { p <= s }

  predicate EndsWith(s: string, p: string)
  {
    |p| <= |s| && s[|s| - |p|..] == p
  }

  /** Some character of `s` is in `cs`. */
  predicate HasCharIn(s: string, cs: set<char>)
  {
    exists i :: 0 <= i < |s| && s[i] in cs
  }

  /**
   * Regular-expression search for `p0.*p1.*...` on a single line: each pattern
   * occurs after the end of the previous one.  The leftmost occurrence of each
   * literal is the best choice, so a greedy scan decides the existence of a match.
   */
  function InOrder(s: string, pats: seq<string>): bool
    decreases |pats|
  {
    if pats == [] then true
    else
      var k := IndexOf(s, pats[0], 0);
      k >= 0 && InOrder(s[k + |pats[0]|..], pats[1..])
  }

  /** Python's `s.split(sep)` for a one-character separator. */
  function Split(s: string, sep: char): (parts: seq<string>)
    ensures |parts| >= 1
    ensures forall k :: 0 <= k < |parts| ==> sep !in parts[k]
  {
    if s == [] then [""]
    else
      var rest := Split(s[1..], sep);
      if s[0] == sep then [""] + rest
      else [[s[0]] + rest[0]] + rest[1..]
  }

  /**
   * The pieces repeated `std::getline(stream, piece, delim)` yields: none for
   * "", and no empty piece after a final delimiter.
   */
  function Getline(s: string, delim: char): (parts: seq<string>)
    ensures forall k :: 0 <= k < |parts| ==> delim !in parts[k]
  {
    if s == [] then []
    else
      var parts := Split(s, delim);
      if parts[|parts| - 1] == [] then parts[..|parts| - 1] else parts
  }

  /** Every character of a piece comes from the split text. */
  lemma {:induction false} SplitFrom(s: string, sep: char, k: nat, c: char)
    requires k < |Split(s, sep)| && c in Split(s, sep)[k]
    ensures c in s
    decreases |s|
  {
    if s != [] {
      var rest := Split(s[1..], sep);
      if s[0] == sep {
        assert Split(s, sep)[k] == rest[k - 1];
        SplitFrom(s[1..], sep, k - 1, c);
      } else if k == 0 {
        if c != s[0] {
          assert c in rest[0];
          SplitFrom(s[1..], sep, 0, c);
        }
      } else {
        assert Split(s, sep)[k] == rest[k];
        SplitFrom(s[1..], sep, k, c);
      }
    }
  }

  /** Text without the separator is one piece. */
  lemma {:induction false} SplitWhole(s: string, sep: char)
    requires sep !in s
    ensures Split(s, sep) == [s]
  {
    if s != [] {
      SplitWhole(s[1..], sep);
      assert [s[0]] + s[1..] == s;
    }
  }

  lemma GetlineFrom(s: string, delim: char, k: nat, c: char)
    requires k < |Getline(s, delim)| && c in Getline(s, delim)[k]
    ensures c in s
  {
    SplitFrom(s, delim, k, c);
  }

  /**
   * Python's `str.strip()`, for the white space `IsSpace` knows: space, tab,
   * LF, CR, VT and FF.  Python also strips 0x1C-0x1F, 0x85 and the Unicode
   * spaces; those are kept here.
   */
  function Strip(s: string): (r: string)
    ensures |r| <= |s|
    ensures r != [] ==> !IsSpace(r[0]) && !IsSpace(r[|r| - 1])
  {
    TrimEnd(TrimStart(s))
  }

  function TrimStart(s: string): (r: string)
    ensures |r| <= |s| && r == s[|s| - |r|..]
    ensures r != [] ==> !IsSpace(r[0])
  {
    if s != [] && IsSpace(s[0]) then TrimStart(s[1..]) else s
  }

  function TrimEnd(s: string): (r: string)
    ensures |r| <= |s| && r == s[..|r|]
    ensures r != [] ==> !IsSpace(r[|r| - 1])
  {
    if s != [] && IsSpace(s[|s| - 1]) then TrimEnd(s[..|s| - 1]) else s
  }

  /** Decimal rendering of a natural number (`std::to_string`). */
  function NatToString(n: nat): (r: string)
    ensures |r| >= 1 && forall i :: 0 <= i < |r| ==> IsDigit(r[i])
  {
    if n < 10 then [('0' as int + n) as char]
    else NatToString(n / 10) + [('0' as int + n % 10) as char]
  }

  /** `std::to_string` of an `int`: a '-' sign before the digits of a negative number. */
  function IntToString(n: int): (r: string)
    ensures |r| >= 1 && (r[0] == '-' <==> n < 0)
  {
    if n < 0 then "-" + NatToString(-n) else NatToString(n)
  }

  /** The longest run of digits at the start of `s`. */
  function LeadingDigits(s: string): (r: string)
    ensures r <= s && forall k :: 0 <= k < |r| ==> IsDigit(r[k])
    ensures |r| < |s| ==> !IsDigit(s[|r|])
  {
    if s != [] && IsDigit(s[0]) then [s[0]] + LeadingDigits(s[1..]) else []
  }

  /** Value of a run of decimal digits (`int(...)`, `std::stoi` on digits). */
  function DigitsValue(s: string): nat
    requires forall i :: 0 <= i < |s| ==> IsDigit(s[i])
  {
    if s == [] then 0
    else
      assert IsDigit(s[|s| - 1]);
      DigitsValue(s[..|s| - 1]) * 10 + (s[|s| - 1] as int - '0' as int)
  }
}
