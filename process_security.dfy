/**
 * The command checks of the external process package: `ProcessSecurityManager`
 * searches commands, arguments, environment variables and working
 * directories for fixed lists of shell metacharacters, and `ProcessManager`
 * refuses to spawn past its process limit or under a security context without
 * memory or CPU limits.  Pipes, fork/exec, rlimits and privilege dropping are
 * operating-system steps whose outcomes are parameters.
 */
module ProcessSecurity {
  import opened Text
  import opened Wrappers

  // ---------------------------------------------------------------------------
  // Pattern searches
  // ---------------------------------------------------------------------------

  /** The patterns `contains_shell_injection` searches for. */
  const InjectionPatterns: seq<string> :=
    [";", "&", "|", "`", "$", "$(", "${", "&&", "||", ">>", "<<", "../"]

  /** The patterns `is_safe_command` refuses. */
  const CommandPatterns: seq<string> :=
    [";", "&", "|", "`", "$", "(", ")", "{", "}", "[", "]", "<", ">", "'"]

  /** The search loop over a pattern list: does any pattern occur in `s`? */
  function FindsAny(s: string, patterns: seq<string>): (found: bool)
    ensures found <==> exists k :: 0 <= k < |patterns| && Contains(s, patterns[k])
    decreases |patterns|
  {
    if patterns == [] then false
    else
      ContainsIffIndexOf(s, patterns[0]);
      var rest := FindsAny(s, patterns[1..]);
      assert forall k :: 1 <= k < |patterns| ==> patterns[k] == patterns[1..][k - 1];
      IndexOf(s, patterns[0], 0) >= 0 || rest
  }

  /** A one-character pattern occurs exactly when the character does. */
  lemma ContainsChar(s: string, c: char)
    ensures Contains(s, [c]) <==> c in s
  {
    if c in s {
      var i :| 0 <= i < |s| && s[i] == c;
      assert OccursAt(s, [c], i);
    }
    if Contains(s, [c]) {
      var i :| 0 <= i <= |s| - 1 && OccursAt(s, [c], i);
      assert s[i] == s[i..i + 1][0];
    }
  }

  /** A pattern that begins with `c` occurs only where `c` does. */
  lemma ContainsHead(s: string, p: string)
    requires p != [] && Contains(s, p)
    ensures p[0] in s
  {
    var i :| 0 <= i <= |s| - |p| && OccursAt(s, p, i);
    assert s[i] == s[i..i + |p|][0];
  }

  /** `contains_shell_injection`. */
  function ContainsShellInjection(input: string): bool
  {
    FindsAny(input, InjectionPatterns)
  }

  /** The one-character patterns, and the longer ones that do not start with one of them. */
  predicate InjectionWitness(input: string)
  {
    ';' in input || '&' in input || '|' in input || '`' in input || '$' in input
    || Contains(input, ">>") || Contains(input, "<<") || Contains(input, "../")
  }

  /**
   * "$(", "${", "&&" and "||" add nothing to the one-character patterns: the
   * input is flagged iff it holds one of ; & | ` $ or the text ">>", "<<" or "../".
   */
  lemma ShellInjectionMeaning(input: string)
    ensures ContainsShellInjection(input) <==> InjectionWitness(input)
  {
    if InjectionWitness(input) {
      ShellInjectionFlagged(input);
    }
    if ContainsShellInjection(input) {
      ShellInjectionWitnessed(input);
    }
  }

  lemma ShellInjectionWitnessed(input: string)
    requires ContainsShellInjection(input)
    ensures InjectionWitness(input)
  {
    var p := InjectionPatterns;
    var k :| 0 <= k < |p| && Contains(input, p[k]);
    if k < 5 || (5 <= k <= 8) {
      ContainsHead(input, p[k]);
    }
  }

  lemma ShellInjectionFlagged(input: string)
    requires InjectionWitness(input)
    ensures ContainsShellInjection(input)
  {
    var p := InjectionPatterns;
    if ';' in input {
      ContainsChar(input, ';');
      assert Contains(input, p[0]);
    } else if '&' in input {
      ContainsChar(input, '&');
      assert Contains(input, p[1]);
    } else if '|' in input {
      ContainsChar(input, '|');
      assert Contains(input, p[2]);
    } else if '`' in input {
      ContainsChar(input, '`');
      assert Contains(input, p[3]);
    } else if '$' in input {
      ContainsChar(input, '$');
      assert Contains(input, p[4]);
    } else if Contains(input, ">>") {
      assert Contains(input, p[9]);
    } else if Contains(input, "<<") {
      assert Contains(input, p[10]);
    } else {
      assert Contains(input, p[11]);
    }
  }

  /** The characters `is_safe_command` refuses, one per pattern. */
  const CommandChars: string := ";&|`$(){}[]<>'"

  /** `is_safe_command`: the empty command passes. */
  function IsSafeCommand(command: string): (ok: bool)
    ensures ok <==> forall k :: 0 <= k < |CommandPatterns| ==> !Contains(command, CommandPatterns[k])
  {
    !FindsAny(command, CommandPatterns)
  }

  /** A command is safe iff none of its characters is a listed metacharacter. */
  lemma SafeCommandMeaning(command: string)
    ensures IsSafeCommand(command) <==> forall k :: 0 <= k < |command| ==> command[k] !in CommandChars
  {
    assert forall k :: 0 <= k < |CommandPatterns| ==> CommandPatterns[k] == [CommandChars[k]];
    forall k | 0 <= k < |CommandPatterns|
      ensures Contains(command, CommandPatterns[k]) <==> CommandChars[k] in command
    {
      ContainsChar(command, CommandChars[k]);
    }
    if !IsSafeCommand(command) {
      var k :| 0 <= k < |CommandPatterns| && Contains(command, CommandPatterns[k]);
      var i :| 0 <= i < |command| && command[i] == CommandChars[k];
    }
    if exists i :: 0 <= i < |command| && command[i] in CommandChars {
      var i :| 0 <= i < |command| && command[i] in CommandChars;
      var k :| 0 <= k < |CommandChars| && CommandChars[k] == command[i];
      assert Contains(command, CommandPatterns[k]);
    }
  }

  /** `contains_path_traversal`: "../" or "..\" anywhere in the path. */
  function ContainsPathTraversal(path: string): (found: bool)
    ensures found <==> Contains(path, "../") || Contains(path, "..\\")
  {
    ContainsIffIndexOf(path, "../");
    ContainsIffIndexOf(path, "..\\");
    IndexOf(path, "../", 0) >= 0 || IndexOf(path, "..\\", 0) >= 0
  }

  /** Every path that climbs with '/' is also an injection in an argument. */
  lemma TraversalIsInjection(s: string)
    requires Contains(s, "../")
    ensures ContainsPathTraversal(s) && ContainsShellInjection(s)
  {
    ShellInjectionMeaning(s);
  }

  // ---------------------------------------------------------------------------
  // Security contexts
  // ---------------------------------------------------------------------------

  datatype SecurityContext = SecurityContext(
    enableSandbox: bool,
    allowedCommands: seq<string>,
    allowedPaths: seq<string>,
    blockedCommands: seq<string>,
    blockedPaths: seq<string>,
    runAsUid: nat,
    runAsGid: nat,
    dropPrivileges: bool,
    maxMemory: nat,
    maxCpuTime: int,
    maxProcesses: int,
    maxOpenFiles: int)

  /** The default constructor: sandboxed, 100 MiB, 30 s of CPU, 10 processes, 64 files. */
  function DefaultSecurityContext(): (c: SecurityContext)
    ensures ValidSecurityContext(c)
    ensures c.allowedCommands == [] && c.blockedCommands == []
  {
    SecurityContext(true, [], [], [], [], 0, 0, true, 100 * 1024 * 1024, 30, 10, 64)
  }

  /** `validate_security_context`: memory and CPU limits must be set. */
  predicate ValidSecurityContext(c: SecurityContext)
  {
    c.maxMemory != 0 && c.maxCpuTime != 0
  }

  /** `validate_command_execution`. */
  function ValidateCommandExecution(command: string, security: SecurityContext): (ok: bool)
    ensures ok <==>
      (security.allowedCommands == [] || command in security.allowedCommands)
      && command !in security.blockedCommands
      && IsSafeCommand(command)
  {
    if security.allowedCommands != [] && command !in security.allowedCommands then false
    else if command in security.blockedCommands then false
    else IsSafeCommand(command)
  }

  /** A listed, unblocked command is still refused when it holds a metacharacter. */
  lemma AllowListDoesNotOverrideSafety(command: string, security: SecurityContext)
    requires command in security.allowedCommands && ';' in command
    ensures !ValidateCommandExecution(command, security)
  {
    SafeCommandMeaning(command);
    var i :| 0 <= i < |command| && command[i] == ';';
    assert CommandChars[0] == ';';
  }

  /** `validate_command_arguments`. */
  function ArgumentsSafe(args: seq<string>): (ok: bool)
    ensures ok <==> forall k :: 0 <= k < |args| ==> !ContainsShellInjection(args[k])
    decreases |args|
  {
    if args == [] then true
    else
      assert forall k :: 1 <= k < |args| ==> args[k] == args[1..][k - 1];
      !ContainsShellInjection(args[0]) && ArgumentsSafe(args[1..])
  }

  /** `validate_environment_variables`: names and values alike. */
  predicate EnvironmentSafe(env: map<string, string>)
  {
    forall name :: name in env ==> !ContainsShellInjection(name) && !ContainsShellInjection(env[name])
  }

  datatype ProcessRequest = ProcessRequest(
    command: string,
    args: seq<string>,
    environment: map<string, string>,
    workingDir: string)

  /**
   * `validate_and_apply_security`: the error it records, or None.
   * `limitsApplied` and `privilegesDropped` are the outcomes of the rlimit and
   * setuid/setgid calls.
   */
  function SecurityError(info: ProcessRequest, security: SecurityContext, limitsApplied: bool,
                         privilegesDropped: bool): (r: Option<string>)
    ensures r.None? <==>
      ValidateCommandExecution(info.command, security)
      && ArgumentsSafe(info.args)
      && EnvironmentSafe(info.environment)
      && (info.workingDir == [] || !ContainsPathTraversal(info.workingDir))
      && limitsApplied
      && (!security.dropPrivileges || privilegesDropped)
    ensures !ValidateCommandExecution(info.command, security) ==>
      r == Some("Command not allowed by security policy")
  {
    if !ValidateCommandExecution(info.command, security) then Some("Command not allowed by security policy")
    else if !ArgumentsSafe(info.args) then Some("Arguments not allowed by security policy")
    else if !EnvironmentSafe(info.environment) then Some("Environment variables not allowed by security policy")
    else if info.workingDir != [] && ContainsPathTraversal(info.workingDir) then
      Some("Working directory not allowed by security policy")
    else if !limitsApplied then Some("Failed to apply resource limits")
    else if security.dropPrivileges && !privilegesDropped then Some("Failed to drop privileges")
    else None
  }

  /** An argument that climbs out of a directory is refused. */
  lemma TraversingArgumentRefused(info: ProcessRequest, security: SecurityContext, k: nat)
    requires ValidateCommandExecution(info.command, security)
    requires k < |info.args| && Contains(info.args[k], "../")
    ensures SecurityError(info, security, true, true) == Some("Arguments not allowed by security policy")
  {
    TraversalIsInjection(info.args[k]);
  }

  // ---------------------------------------------------------------------------
  // Spawning
  // ---------------------------------------------------------------------------

  const DefaultMaxProcesses: nat := 100

  /**
   * The checks of `spawn_process` before the pipes are made: the error, or
   * None when it goes on.  `running` is the number of processes held.
   */
  function SpawnRefusal(running: nat, maxProcesses: nat, security: SecurityContext): (r: Option<string>)
    ensures r.None? <==> running < maxProcesses && security.maxMemory != 0 && security.maxCpuTime != 0
    ensures running >= maxProcesses ==> r == Some("Process limit exceeded")
  {
    if running >= maxProcesses then Some("Process limit exceeded")
    else if !ValidSecurityContext(security) then Some("Security validation failed")
    else None
  }

  /** The default context passes the check while there is room. */
  lemma DefaultContextSpawns(running: nat)
    requires running < DefaultMaxProcesses
    ensures SpawnRefusal(running, DefaultMaxProcesses, DefaultSecurityContext()).None?
  {
  }
}
