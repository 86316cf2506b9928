/**
 * The checks `CommandExecutor` applies before running a command, and the
 * `CommandUtils` string helpers: command and path screening, argument
 * escaping, command-line splitting and relative-path resolution.
 */
module CommandExecutor {
  import opened Text
  import ProcessSecurity

  // ---------------------------------------------------------------------------
  // Command screening
  // ---------------------------------------------------------------------------

  /** The characters `is_valid_command` refuses, in the order it looks for them. */
  const DangerousChars: string := ";|&`$(){}[]<>\"'\\"

  /** `is_valid_command`: non-empty and free of every dangerous character. */
  function IsValidCommand(command: string): (ok: bool)
    ensures ok <==> command != [] && forall k :: 0 <= k < |command| ==> command[k] !in DangerousChars
  {
    command != [] && NoneFound(command, DangerousChars)
  }

  /** Each of `cs` is searched for with `find`; none may be found. */
  predicate NoneFound(s: string, cs: string)
    ensures NoneFound(s, cs) <==> forall k :: 0 <= k < |s| ==> s[k] !in cs
  {
    if cs == [] then true
    else
      FindCharMeaning(s, cs[0], 0);
      FindChar(s, cs[0], 0) == -1 && NoneFound(s, cs[1..])
  }

  /** The `SecurityContext` of the external package, shared with the process checks. */
  type SecurityContext = ProcessSecurity.SecurityContext

  /**
   * `validate_command_security`: a non-empty allow list must contain the
   * command, the block list must not, and the command must be valid.
   */
  function ValidateCommandSecurity(command: string, security: SecurityContext): (ok: bool)
    ensures ok ==> IsValidCommand(command)
    ensures ok ==> command !in security.blockedCommands
    ensures ok ==> security.allowedCommands == [] || command in security.allowedCommands
    ensures (IsValidCommand(command) && command !in security.blockedCommands
             && (security.allowedCommands == [] || command in security.allowedCommands)) ==> ok
  {
    if security.allowedCommands != [] && command !in security.allowedCommands then false
    else if command in security.blockedCommands then false
    else IsValidCommand(command)
  }

  /** `create_restricted_security_context`. */
  const RestrictedContext: SecurityContext := ProcessSecurity.DefaultSecurityContext().(
    allowedCommands := ["/bin/echo", "/bin/cat", "/bin/ls", "/bin/pwd", "/usr/bin/wc", "/usr/bin/head", "/usr/bin/tail"],
    maxMemory := 50 * 1024 * 1024, maxCpuTime := 10, maxProcesses := 5, maxOpenFiles := 32)

  /** Under the restricted context only the seven listed programs pass, with no arguments. */
  lemma RestrictedContextAllowsListed(command: string)
    ensures ValidateCommandSecurity(command, RestrictedContext) ==> command in RestrictedContext.allowedCommands
  {
  }

  /** The request fields `validate_command_request` reads. */
  datatype CommandRequest = CommandRequest(
    command: string,
    socketFd: int,
    timeoutSeconds: int,
    security: SecurityContext)

  const MaxTimeoutSeconds: int := 3600

  /** `validate_command_request`. */
  function ValidateCommandRequest(request: CommandRequest): (ok: bool)
    ensures ok <==> request.command != [] && request.socketFd >= 0
                    && 0 < request.timeoutSeconds <= MaxTimeoutSeconds
                    && ValidateCommandSecurity(request.command, request.security)
  {
    if request.command == [] then false
    else if request.socketFd < 0 then false
    else if request.timeoutSeconds <= 0 || request.timeoutSeconds > MaxTimeoutSeconds then false
    else ValidateCommandSecurity(request.command, request.security)
  }

  // ---------------------------------------------------------------------------
  // Paths
  // ---------------------------------------------------------------------------

  const SafePrefixes: seq<string> := ["/tmp/", "/var/tmp/", "/home/", "/usr/local/"]

  /**
   * `is_safe_path`: no `../` or `..\`; an absolute (or empty) path must start
   * with one of the safe prefixes; other relative paths pass.
   */
  function IsSafePath(path: string): (ok: bool)
    ensures ok ==> !Contains(path, "../") && !Contains(path, "..\\")
    ensures ok && (path == [] || path[0] == '/') ==> exists k :: 0 <= k < |SafePrefixes| && StartsWith(path, SafePrefixes[k])
    ensures path != [] && path[0] != '/' && !Contains(path, "../") && !Contains(path, "..\\") ==> ok
    ensures path == [] ==> !ok
  {
    ContainsIffIndexOf(path, "../");
    ContainsIffIndexOf(path, "..\\");
    if IndexOf(path, "../", 0) != -1 || IndexOf(path, "..\\", 0) != -1 then false
    else if path == [] || path[0] == '/' then HasSafePrefix(path, SafePrefixes)
    else true
  }

  /** `path.substr(0, n) == prefix` for some prefix, tried in order. */
  function HasSafePrefix(path: string, prefixes: seq<string>): (ok: bool)
    ensures ok <==> exists k :: 0 <= k < |prefixes| && StartsWith(path, prefixes[k])
  {
    if prefixes == [] then false
    else
      assert forall k :: 1 <= k < |prefixes| ==> prefixes[k] == prefixes[1..][k - 1];
      var n := prefixes[0];
      (if |n| <= |path| then path[..|n|] == n else path == n) || HasSafePrefix(path, prefixes[1..])
  }

  /** `resolve_relative_path`: absolute (or empty) paths unchanged; otherwise `base/path`. */
  function ResolveRelativePath(path: string, baseDir: string): (r: string)
    ensures path == [] || path[0] == '/' ==> r == path
    ensures path != [] && path[0] != '/' ==> EndsWith(r, path) && StartsWith(r, baseDir)
    ensures path != [] && path[0] != '/' && baseDir != [] ==>
              |r| > |path| && r[|r| - |path| - 1] == '/' && r[..|baseDir|] == baseDir
              && |r| <= |baseDir| + 1 + |path|
    ensures path != [] && path[0] != '/' && baseDir == [] ==> r == path
  {
    if path == [] || path[0] == '/' then path
    else
      var base := if baseDir != [] && baseDir[|baseDir| - 1] != '/' then baseDir + "/" else baseDir;
      assert (base + path)[..|baseDir|] == baseDir;
      assert (base + path)[|base + path| - |path|..] == path;
      base + path
  }

  // ---------------------------------------------------------------------------
  // Argument escaping
  // ---------------------------------------------------------------------------

  /** The characters `escape_argument` escapes, in the order of its passes. */
  const EscapeOrder: seq<char> := ['\\', '"', '\'', '`', '$']

  /** Reference definition: every character of `cs` gets a backslash in front. */
  function Escaped(s: string, cs: set<char>): (r: string)
    ensures |r| >= |s|
  {
    if s == [] then []
    else (if s[0] in cs then ['\\', s[0]] else [s[0]]) + Escaped(s[1..], cs)
  }

  lemma {:induction false} EscapedAppend(a: string, b: string, cs: set<char>)
    ensures Escaped(a + b, cs) == Escaped(a, cs) + Escaped(b, cs)
  {
    if a != [] {
      assert (a + b)[1..] == a[1..] + b;
      EscapedAppend(a[1..], b, cs);
    } else {
      assert a + b == b;
    }
  }

  lemma {:induction false} EscapedUntouched(a: string, cs: set<char>)
    requires forall k :: 0 <= k < |a| ==> a[k] !in cs
    ensures Escaped(a, cs) == a
  {
    if a != [] {
      EscapedUntouched(a[1..], cs);
    }
  }

  /**
   * A later pass for a character other than the backslash leaves the earlier
   * escapes alone: the passes compose into one escape of all their characters.
   */
  lemma {:induction false} EscapedTwice(s: string, cs: set<char>, c: char)
    requires c != '\\' && c !in cs
    ensures Escaped(Escaped(s, cs), {c}) == Escaped(s, cs + {c})
  {
    if s != [] {
      var head := if s[0] in cs then ['\\', s[0]] else [s[0]];
      EscapedAppend(head, Escaped(s[1..], cs), {c});
      EscapedTwice(s[1..], cs, c);
      if s[0] in cs {
        assert Escaped(head, {c}) == head by {
          assert head[1..] == [s[0]];
          assert head[1..][1..] == [];
        }
      } else {
        assert head[1..] == [];
      }
    }
  }

  /** The passes of `escape_argument`, applied in order. */
  function EscapePasses(s: string, order: seq<char>): string
    decreases |order|
  {
    if order == [] then s else EscapePasses(Escaped(s, {order[0]}), order[1..])
  }

  /** Drops the backslash of each `\x` pair. */
  function Unescaped(t: string): (r: string)
    decreases |t|
  {
    if t == [] then []
    else if t[0] == '\\' && |t| >= 2 then [t[1]] + Unescaped(t[2..])
    else [t[0]] + Unescaped(t[1..])
  }

  /** Escaping that includes the backslash can always be undone. */
  lemma {:induction false} UnescapeEscaped(s: string, cs: set<char>)
    requires '\\' in cs
    ensures Unescaped(Escaped(s, cs)) == s
  {
    if s != [] {
      UnescapeEscaped(s[1..], cs);
      var t := Escaped(s, cs);
      if s[0] in cs {
        assert t[2..] == Escaped(s[1..], cs);
      } else {
        assert t[1..] == Escaped(s[1..], cs);
      }
      assert [s[0]] + s[1..] == s;
    }
  }

  /** Backslashes go first: escaping them last doubles the earlier escapes and loses the argument. */
  lemma BackslashLastDoubles()
    ensures EscapePasses("$", ['$', '\\']) == "\\\\$"
    ensures Unescaped(EscapePasses("$", ['$', '\\'])) != "$"
  {
    assert Escaped("$", {'$'}) == "\\$" by {
      assert "$"[1..] == [];
    }
    assert Escaped("\\$", {'\\'}) == "\\\\$" by {
      assert "\\$"[1..] == "$";
      assert "$"[1..] == [];
    }
    assert ['$', '\\'][1..] == ['\\'] && ['\\'][1..] == [];
    assert Unescaped("\\\\$") == "\\$" by {
      assert "\\\\$"[2..] == "$";
      assert "$"[1..] == [];
    }
  }

  /** The match at `j + d` after a gap without `c`: the escaped prefix grows by the gap and one escape. */
  lemma ReplaceStep(s: string, c: char, j: nat, d: nat)
    requires j + d < |s| && s[j + d] == c
    requires forall k :: j <= k < j + d ==> s[k] != c
    ensures Escaped(s[..j + d + 1], {c}) == Escaped(s[..j], {c}) + s[j..j + d] + ['\\', c]
  {
    var gap := s[j..j + d];
    EscapedUntouched(gap, {c});
    assert s[..j + d + 1] == s[..j] + gap + [c];
    EscapedAppend(s[..j] + gap, [c], {c});
    EscapedAppend(s[..j], gap, {c});
    assert Escaped([c], {c}) == ['\\', c] by {
      assert [c][1..] == [];
    }
  }

  /** Replacing the match found `d` characters past the escaped prefix extends the prefix past it. */
  lemma ReplaceAt(s: string, c: char, j: nat, d: nat, r: string)
    requires j <= |s| && r == Escaped(s[..j], {c}) + s[j..]
    requires var pos := |Escaped(s[..j], {c})|;
      pos + d < |r| && r[pos + d] == c && forall i :: pos <= i < pos + d ==> r[i] != c
    ensures var pos := |Escaped(s[..j], {c})|;
      j + d < |s|
      && r[..pos + d] + ['\\', c] + r[pos + d + 1..] == Escaped(s[..j + d + 1], {c}) + s[j + d + 1..]
      && pos + d + 2 == |Escaped(s[..j + d + 1], {c})|
  {
    var e := Escaped(s[..j], {c});
    var pos := |e|;
    assert r[pos..] == s[j..];
    assert forall i :: j <= i < j + d ==> s[i] == r[pos + i - j];
    ReplaceStep(s, c, j, d);
    assert r[..pos + d] == e + s[j..j + d];
    assert r[pos + d + 1..] == s[j + d + 1..];
  }

  /** No match after `j`: the rest is copied. */
  lemma ReplaceEnd(s: string, c: char, j: nat)
    requires j <= |s|
    requires forall k :: j <= k < |s| ==> s[k] != c
    ensures Escaped(s[..j], {c}) + s[j..] == Escaped(s, {c})
  {
    var head, tail := s[..j], s[j..];
    assert head + tail == s;
    assert forall k :: 0 <= k < |tail| ==> tail[k] == s[j + k];
    EscapedUntouched(tail, {c});
    EscapedAppend(head, tail, {c});
  }

  /** One pass of `escape_argument`: `find` from `pos`, `replace`, step past the replacement. */
  method ReplaceAll(s: string, c: char) returns (r: string)
    ensures r == Escaped(s, {c})
  {
    r := s;
    var pos := 0;
    ghost var j := 0;
    assert s[..0] == [];
    var found := FindChar(r, c, pos);
    while found != -1
      invariant 0 <= j <= |s|
      invariant r == Escaped(s[..j], {c}) + s[j..] && pos == |Escaped(s[..j], {c})|
      invariant found == FindChar(r, c, pos)
      decreases |s| - j
    {
      FindCharMeaning(r, c, pos);
      var d := found - pos;
      ReplaceAt(s, c, j, d, r);
      r := r[..found] + ['\\', c] + r[found + 1..];
      pos := found + 2;
      j := j + d + 1;
      found := FindChar(r, c, pos);
    }
    FindCharMeaning(r, c, pos);
    assert r[pos..] == s[j..];
    ReplaceEnd(s, c, j);
  }

  /** `escape_argument`: the five passes, backslash first. */
  method EscapeArgument(arg: string) returns (escaped: string)
    ensures escaped == EscapePasses(arg, EscapeOrder)
  {
    escaped := arg;
    var m := 0;
    while m < |EscapeOrder|
      invariant 0 <= m <= |EscapeOrder|
      invariant EscapePasses(escaped, EscapeOrder[m..]) == EscapePasses(arg, EscapeOrder)
    {
      assert EscapeOrder[m..][1..] == EscapeOrder[m + 1..];
      escaped := ReplaceAll(escaped, EscapeOrder[m]);
      m := m + 1;
    }
  }

  function CharsOf(order: seq<char>): set<char>
  {
    if order == [] then {} else {order[0]} + CharsOf(order[1..])
  }

  /** Passes for distinct non-backslash characters add their characters to an escape set that has the backslash. */
  lemma {:induction false} PassesFold(s: string, cs: set<char>, order: seq<char>)
    requires forall k :: 0 <= k < |order| ==> order[k] != '\\' && order[k] !in cs
    requires forall k, m :: 0 <= k < m < |order| ==> order[k] != order[m]
    ensures EscapePasses(Escaped(s, cs), order) == Escaped(s, cs + CharsOf(order))
    decreases |order|
  {
    if order == [] {
      assert cs + CharsOf(order) == cs;
    } else {
      EscapedTwice(s, cs, order[0]);
      PassesFold(s, cs + {order[0]}, order[1..]);
      assert cs + {order[0]} + CharsOf(order[1..]) == cs + CharsOf(order);
    }
  }

  /** The passes amount to one backslash before each escaped character, so the argument is recoverable. */
  lemma EscapeArgumentMeaning(arg: string)
    ensures EscapePasses(arg, EscapeOrder) == Escaped(arg, {'\\', '"', '\'', '`', '$'})
    ensures Unescaped(EscapePasses(arg, EscapeOrder)) == arg
  {
    var rest := EscapeOrder[1..];
    PassesFold(arg, {'\\'}, rest);
    assert rest == ['"', '\'', '`', '$'];
    assert CharsOf(rest) == {'"', '\'', '`', '$'} by {
      assert ['$'][1..] == [];
      assert CharsOf(['$']) == {'$'};
      assert ['`', '$'][1..] == ['$'];
      assert CharsOf(['`', '$']) == {'`', '$'};
      assert ['\'', '`', '$'][1..] == ['`', '$'];
      assert CharsOf(['\'', '`', '$']) == {'\'', '`', '$'};
      assert rest[1..] == ['\'', '`', '$'];
    }
    assert EscapePasses(arg, EscapeOrder) == EscapePasses(Escaped(arg, {'\\'}), rest);
    assert {'\\'} + {'"', '\'', '`', '$'} == {'\\', '"', '\'', '`', '$'};
    UnescapeEscaped(arg, {'\\', '"', '\'', '`', '$'});
  }

  // ---------------------------------------------------------------------------
  // Command lines
  // ---------------------------------------------------------------------------

  /** The length of the run of non-space characters at the front of `s`. */
  function WordLength(s: string): (n: nat)
    ensures n <= |s| && forall k :: 0 <= k < n ==> !IsSpace(s[k])
    ensures n < |s| ==> IsSpace(s[n])
  {
    if s == [] || IsSpace(s[0]) then 0 else 1 + WordLength(s[1..])
  }

  /** What repeated `iss >> arg` yields: the maximal runs of non-space characters. */
  function Words(s: string): (ws: seq<string>)
    ensures forall k :: 0 <= k < |ws| ==> ws[k] != [] && forall i :: 0 <= i < |ws[k]| ==> !IsSpace(ws[k][i])
  {
    if s == [] then []
    else if IsSpace(s[0]) then Words(s[1..])
    else
      var n := WordLength(s);
      [s[..n]] + Words(s[n..])
  }

  /** `parse_command_line`. */
  method ParseCommandLine(cmdline: string) returns (args: seq<string>)
    ensures args == Words(cmdline)
  {
    args := [];
    var i := 0;
    while i < |cmdline|
      invariant 0 <= i <= |cmdline|
      invariant args + Words(cmdline[i..]) == Words(cmdline)
    {
      var rest := cmdline[i..];
      if IsSpace(cmdline[i]) {
        assert rest[1..] == cmdline[i + 1..];
        i := i + 1;
      } else {
        var n := WordLength(rest);
        assert rest[n..] == cmdline[i + n..];
        args := args + [rest[..n]];
        i := i + n;
      }
    }
  }

  /** Words joined by single spaces. */
  function Joined(ws: seq<string>): string
  {
    if ws == [] then [] else if |ws| == 1 then ws[0] else ws[0] + " " + Joined(ws[1..])
  }

  lemma {:induction false} WordLengthOf(w: string, rest: string)
    requires forall i :: 0 <= i < |w| ==> !IsSpace(w[i])
    requires rest == [] || IsSpace(rest[0])
    ensures WordLength(w + rest) == |w|
  {
    if w != [] {
      assert (w + rest)[1..] == w[1..] + rest;
      WordLengthOf(w[1..], rest);
    } else {
      assert w + rest == rest;
    }
  }

  /** Splitting words joined by single spaces gives the words back. */
  lemma {:induction false} WordsOfJoined(ws: seq<string>)
    requires forall k :: 0 <= k < |ws| ==> ws[k] != [] && forall i :: 0 <= i < |ws[k]| ==> !IsSpace(ws[k][i])
    ensures Words(Joined(ws)) == ws
  {
    if ws == [] {
    } else if |ws| == 1 {
      WordLengthOf(ws[0], []);
      assert ws[0] + [] == ws[0];
      assert ws[0][..|ws[0]|] == ws[0] && ws[0][|ws[0]|..] == [];
    } else {
      var w := ws[0];
      var tail := " " + Joined(ws[1..]);
      WordLengthOf(w, tail);
      var s := w + tail;
      assert s == Joined(ws);
      assert s[0] == w[0];
      assert s[..|w|] == w && s[|w|..] == tail;
      assert tail[0] == ' ';
      assert tail[1..] == Joined(ws[1..]);
      WordsOfJoined(ws[1..]);
      assert ws == [w] + ws[1..];
    }
  }
}
