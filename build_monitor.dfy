/**
 * The build-status monitor: a line classifier with noise filtering, a progress
 * state that only ratchets forward, de-duplicated error reporting and a
 * progressive back-off schedule.  The elapsed time and the output fetched from
 * the background build are parameters of `CheckBuildStatus`.
 *
 * Regular expressions of the form `a.*b` with IGNORECASE are modelled by
 * `Text.InOrder` on the ASCII-lowercased line.
 */
module BuildMonitor {
  import opened Text
  import opened Seqs
  import opened Wrappers

  datatype BuildState =
    | Starting | Configuring | CompilingCore | CompilingPackages | Linking
    | Completed | Failed | Timeout

  /** An entry of `errors` or `warnings`. */
  datatype Signal = Signal(message: string, packageRelated: bool, critical: bool)

  /** The snapshot returned by one check. */
  datatype BuildStatus = BuildStatus(
    state: BuildState,
    progress: nat,
    packagesBuilt: seq<string>,
    packagesTotal: seq<string>,
    errors: seq<Signal>,
    warnings: seq<Signal>,
    duration: real)

  const DefaultPackages: seq<string> := ["http", "rest", "openapi"]
  const WaitIntervals: seq<nat> := [30, 60, 120, 240, 480, 900]
  /** More inactive checks than this start the back-off. */
  const InactivityThreshold: nat := 2

  const CmakeStart: nat := 10
  const CmakeDone: nat := 20
  const CoreStart: nat := 30
  const PackagesStart: nat := 50
  const LinkingStart: nat := 80
  const BuildComplete: nat := 100

  // ---------------------------------------------------------------------------
  // Progress markers `[ NN%]`
  // ---------------------------------------------------------------------------

  /** Python's `\s` on ASCII. */
  predicate IsReSpace(c: char) { IsSpace(c) || '\U{1C}' <= c <= '\U{1F}' }

  function SkipReSpaces(s: string, i: nat): (j: nat)
    requires i <= |s|
    ensures i <= j <= |s|
    ensures forall m :: i <= m < j ==> IsReSpace(s[m])
    ensures j < |s| ==> !IsReSpace(s[j])
    decreases |s| - i
  {
    if i < |s| && IsReSpace(s[i]) then SkipReSpaces(s, i + 1) else i
  }

  function SkipDigits(s: string, i: nat): (j: nat)
    requires i <= |s|
    ensures i <= j <= |s|
    ensures forall m :: i <= m < j ==> IsDigit(s[m])
    ensures j < |s| ==> !IsDigit(s[j])
    decreases |s| - i
  {
    if i < |s| && IsDigit(s[i]) then SkipDigits(s, i + 1) else i
  }

  /** The values of all matches of `\[\s*(\d+)%\]` in `s` from index `i`, in order. */
  function Markers(s: string, i: nat): seq<nat>
    decreases |s| - i
  {
    if i >= |s| then []
    else if s[i] == '[' then
      var j := SkipReSpaces(s, i + 1);
      var k := SkipDigits(s, j);
      if j < k && k + 1 < |s| && s[k] == '%' && s[k + 1] == ']' then
        [DigitsValue(s[j..k])] + Markers(s, k + 2)
      else Markers(s, i + 1)
    else Markers(s, i + 1)
  }

  function ProgressMarkers(output: string): seq<nat> { Markers(output, 0) }

  /** A text without '[' holds no progress marker. */
  lemma {:induction false} NoBracketNoMarkers(s: string, i: nat)
    requires forall m :: i <= m < |s| ==> s[m] != '['
    ensures Markers(s, i) == []
    decreases |s| - i
  {
    if i < |s| {
      NoBracketNoMarkers(s, i + 1);
    }
  }

  // ---------------------------------------------------------------------------
  // Classifier (pure)
  // ---------------------------------------------------------------------------

  /** `re.search(pattern, text, re.IGNORECASE)` for `a.*b` patterns: within one line. */
  predicate SearchLines(text: string, pats: seq<string>)
  {
    var lines := Split(text, '\n');
    exists k :: 0 <= k < |lines| && InOrder(Lower(lines[k]), pats)
  }

  const ActivityPatterns: seq<seq<string>> :=
    [["building", ".o"], ["linking", "executable"], ["built target"], ["make", ":"], ["cmake"]]

  /** `_detect_build_activity`: a progress marker or one of the activity patterns. */
  predicate DetectActivity(output: string)
  {
    ProgressMarkers(output) != [] ||
    exists p :: 0 <= p < |ActivityPatterns| && SearchLines(output, ActivityPatterns[p])
  }

  /** An empty chunk of output is not activity: no marker, and every pattern's first word is missing. */
  lemma SilentOutputIdle()
    ensures !DetectActivity("")
  {
    NoBracketNoMarkers("", 0);
    assert Split("", '\n') == [""];
    assert Lower("") == "";
    forall p | 0 <= p < |ActivityPatterns|
      ensures !SearchLines("", ActivityPatterns[p])
    {
      assert |ActivityPatterns[p][0]| > 0;
      assert IndexOf("", ActivityPatterns[p][0], 0) == -1;
    }
  }

  /** A percentage marker is read as its number and counts as activity. */
  lemma MarkerIsActivity()
    ensures ProgressMarkers("[42%]") == [42]
    ensures DetectActivity("[42%]")
  {
    var s := "[42%]";
    assert SkipReSpaces(s, 1) == 1;
    assert SkipDigits(s, 1) == 3;
    assert s[1..3] == "42";
    assert DigitsValue("42") == 42 by {
      assert "42"[..1] == "4";
      assert DigitsValue("4") == 4 by { assert "4"[..0] == []; }
    }
    assert Markers(s, 5) == [];
  }

  /** Some focus package `p` occurs as `package_p` in the lower-cased output. */
  predicate MentionsFocusPackage(lo: string, focus: seq<string>)
  {
    exists k :: 0 <= k < |focus| && Contains(lo, "package_" + focus[k])
  }

  /**
   * `_extract_progress`: the largest `[NN%]` marker when there is one, else the
   * milestone ladder combined by max with the current progress, except for the
   * "built target" milestone, which is 100 whatever the current progress.
   */
  function ExtractProgress(output: string, focus: seq<string>, current: nat): (p: nat)
    ensures ProgressMarkers(output) != [] ==>
              p in ProgressMarkers(output) &&
              forall k :: 0 <= k < |ProgressMarkers(output)| ==> ProgressMarkers(output)[k] <= p
    ensures ProgressMarkers(output) == [] ==>
              p <= Max(current, BuildComplete) && (p < current ==> p == BuildComplete)
  {
    var ms := ProgressMarkers(output);
    if ms != [] then MaxOf(ms)
    else
      var lo := Lower(output);
      if Contains(lo, "cmake") && Contains(lo, "configuring") then Max(current, CmakeStart)
      else if Contains(lo, "generating done") then Max(current, CmakeDone)
      else if Contains(lo, "building cxx object") then Max(current, CoreStart)
      else if MentionsFocusPackage(lo, focus) then Max(current, PackagesStart)
      else if Contains(lo, "linking") && Contains(lo, "executable") then Max(current, LinkingStart)
      else if Contains(lo, "built target") && (Contains(lo, "driver") || Contains(output, "100%"))
      then BuildComplete
      else current
  }

  /** `re.search(rf"Built target package_{p}", output, re.IGNORECASE)`. */
  predicate BuiltTargetSeen(output: string, pkg: string)
  {
    Contains(Lower(output), Lower("built target package_" + pkg))
  }

  /**
   * The packages `_extract_package_completions` reports, scanning `pkgs` in
   * order against the packages already built.
   */
  function Completions(pkgs: seq<string>, built: seq<string>, output: string): seq<string>
  {
    if pkgs == [] then []
    else
      var prev := Completions(pkgs[..|pkgs| - 1], built, output);
      var p := pkgs[|pkgs| - 1];
      if BuiltTargetSeen(output, p) && p !in built + prev then prev + [p] else prev
  }

  /** Each reported package was tracked, seen built, not built before, and reported once. */
  lemma {:induction false} CompletionsAreNew(pkgs: seq<string>, built: seq<string>, output: string)
    ensures var c := Completions(pkgs, built, output);
      NoDup(c) &&
      forall k :: 0 <= k < |c| ==> c[k] in pkgs && c[k] !in built && BuiltTargetSeen(output, c[k])
  {
    if pkgs != [] {
      var init := pkgs[..|pkgs| - 1];
      CompletionsAreNew(init, built, output);
      var prev := Completions(init, built, output);
      assert forall k :: 0 <= k < |prev| ==> prev[k] in pkgs by {
        forall k | 0 <= k < |prev| ensures prev[k] in pkgs {
          var j :| 0 <= j < |init| && init[j] == prev[k];
          assert pkgs[j] == init[j];
        }
      }
    }
  }

  /** A tracked package whose completion line is present ends up reported or already built. */
  lemma {:induction false} CompletionsComplete(pkgs: seq<string>, built: seq<string>, output: string, k: nat)
    requires k < |pkgs| && BuiltTargetSeen(output, pkgs[k])
    ensures pkgs[k] in built + Completions(pkgs, built, output)
  {
    var init := pkgs[..|pkgs| - 1];
    if k < |pkgs| - 1 {
      assert init[k] == pkgs[k];
      CompletionsComplete(init, built, output, k);
    }
  }

  const NoisePatterns: seq<seq<string>> := [
    ["warning", "third", "party"],
    ["warning", "libwebsockets"],
    ["warning", "libevent"],
    ["warning", "crypt"],
    ["note: unrecognized command-line option"],
    ["warning", "stringop-overflow"],
    ["warning", "deprecated"]]

  const CriticalPatterns: seq<seq<string>> := [
    ["error:"], ["fatal error:"], ["compilation failed"], ["build failed"],
    ["make", "error"], ["cmake", "error"]]

  /** Some pattern list of `pats` matches `s` in order. */
  function AnyInOrder(s: string, pats: seq<seq<string>>): bool
  {
    pats != [] && (InOrder(s, pats[0]) || AnyInOrder(s, pats[1..]))
  }

  predicate IsNoise(line: string) { AnyInOrder(Lower(line), NoisePatterns) }

  predicate IsCritical(line: string) { AnyInOrder(Lower(line), CriticalPatterns) }

  /** The line names `packages/<p>` for a focus package (case-sensitive). */
  function IsPackageRelated(line: string, focus: seq<string>): bool
  {
    focus != [] && (Contains(line, "packages/" + focus[0]) || IsPackageRelated(line, focus[1..]))
  }

  predicate IsWarning(line: string) { Contains(Lower(line), "warning:") }

  /** What the classifier finds in one stripped line. */
  datatype LineKind = LineKind(noise: bool, critical: bool, package: bool, warning: bool)

  function Kind(line: string, focus: seq<string>): LineKind
  {
    LineKind(IsNoise(line), IsCritical(line), IsPackageRelated(line, focus), IsWarning(line))
  }

  /** The classifier's verdict on one line. */
  datatype Verdict = Drop | NewError(signal: Signal) | NewWarning(signal: Signal)

  /**
   * The decision for a stripped line of kind `k`, compared against the
   * messages `errMsgs` and `warnMsgs`.
   */
  function Decide(line: string, k: LineKind, errMsgs: seq<string>, warnMsgs: seq<string>): (v: Verdict)
    ensures !v.Drop? ==> v.signal.message == line && line != [] && !k.noise
    ensures v.NewError? ==> line !in errMsgs && v.signal.critical == k.critical
    ensures v.NewWarning? ==> line !in warnMsgs
  {
    if line == [] || k.noise then Drop
    else if k.critical || (k.package && k.warning) then
      if line !in errMsgs then NewError(Signal(line, k.package, k.critical)) else Drop
    else if k.warning && k.package then
      if line !in warnMsgs then NewWarning(Signal(line, k.package, false)) else Drop
    else Drop
  }

  /** A stripped line and what the classifier finds in it. */
  datatype Line = Line(text: string, kind: LineKind)

  /** The lines of a chunk as the classifier sees them: stripped, then classified. */
  function Analyse(lines: seq<string>, focus: seq<string>): (ls: seq<Line>)
    ensures |ls| == |lines|
    ensures forall k :: 0 <= k < |lines| ==> ls[k] == Line(Strip(lines[k]), Kind(Strip(lines[k]), focus))
  {
    seq(|lines|, k requires 0 <= k < |lines| => Line(Strip(lines[k]), Kind(Strip(lines[k]), focus)))
  }

  /**
   * A non-noise line not yet recorded becomes an error iff it is critical, or
   * package-related and a warning; a noise line is always dropped.
   */
  lemma ErrorRule(line: string, k: LineKind, errMsgs: seq<string>, warnMsgs: seq<string>)
    ensures k.noise ==> Decide(line, k, errMsgs, warnMsgs) == Drop
    ensures line != [] && !k.noise && line !in errMsgs ==>
      (Decide(line, k, errMsgs, warnMsgs).NewError? <==> k.critical || (k.package && k.warning))
  {
  }

  /**
   * The warning branch is unreachable: a package-related warning line already
   * satisfies the error condition, so no line is ever classified as a warning.
   */
  lemma NeverAWarning(line: string, k: LineKind, errMsgs: seq<string>, warnMsgs: seq<string>)
    ensures !Decide(line, k, errMsgs, warnMsgs).NewWarning?
  {
  }

  function Messages(s: seq<Signal>): (ms: seq<string>)
    ensures |ms| == |s| && forall k :: 0 <= k < |s| ==> ms[k] == s[k].message
  {
    if s == [] then [] else Messages(s[..|s| - 1]) + [s[|s| - 1].message]
  }

  lemma MessagesAppend(a: seq<Signal>, b: seq<Signal>)
    ensures Messages(a + b) == Messages(a) + Messages(b)
  {
    assert Messages(a + b) == Messages(a) + Messages(b);
  }

  /** Adds a verdict to the lists found so far. */
  function Record(found: (seq<Signal>, seq<Signal>), v: Verdict): (seq<Signal>, seq<Signal>)
  {
    match v
    case Drop => found
    case NewError(s) => (found.0 + [s], found.1)
    case NewWarning(s) => (found.0, found.1 + [s])
  }

  /**
   * `_filter_errors_and_warnings` as written: each line is compared only with
   * the errors and warnings recorded before this chunk.
   */
  function FilterChunk(ls: seq<Line>, errMsgs: seq<string>, warnMsgs: seq<string>): (seq<Signal>, seq<Signal>)
  {
    if ls == [] then ([], [])
    else
      var l := ls[|ls| - 1];
      Record(FilterChunk(ls[..|ls| - 1], errMsgs, warnMsgs), Decide(l.text, l.kind, errMsgs, warnMsgs))
  }

  /**
   * The corrected filter: a line is also compared with the signals found
   * earlier in the same chunk.
   */
  function FilterChunkUnique(ls: seq<Line>, errMsgs: seq<string>, warnMsgs: seq<string>): (seq<Signal>, seq<Signal>)
  {
    if ls == [] then ([], [])
    else
      var l := ls[|ls| - 1];
      var prev := FilterChunkUnique(ls[..|ls| - 1], errMsgs, warnMsgs);
      Record(prev, Decide(l.text, l.kind, errMsgs + Messages(prev.0), warnMsgs + Messages(prev.1)))
  }

  /** One more line extends the as-written filter by that line's verdict. */
  lemma ChunkStep(ls: seq<Line>, i: nat, errMsgs: seq<string>, warnMsgs: seq<string>)
    requires i < |ls|
    ensures FilterChunk(ls[..i + 1], errMsgs, warnMsgs) ==
      Record(FilterChunk(ls[..i], errMsgs, warnMsgs), Decide(ls[i].text, ls[i].kind, errMsgs, warnMsgs))
  {
    assert ls[..i + 1][..i] == ls[..i];
  }

  /** One more line extends the corrected filter by that line's verdict against everything found so far. */
  lemma ChunkUniqueStep(ls: seq<Line>, i: nat, errMsgs: seq<string>, warnMsgs: seq<string>)
    requires i < |ls|
    ensures var prev := FilterChunkUnique(ls[..i], errMsgs, warnMsgs);
      FilterChunkUnique(ls[..i + 1], errMsgs, warnMsgs) ==
      Record(prev, Decide(ls[i].text, ls[i].kind, errMsgs + Messages(prev.0), warnMsgs + Messages(prev.1)))
  {
    assert ls[..i + 1][..i] == ls[..i];
  }

  /** No noise line and no empty line is ever reported, and no warning at all. */
  lemma {:induction false} FilterDropsNoise(ls: seq<Line>, errMsgs: seq<string>, warnMsgs: seq<string>)
    ensures var r := FilterChunkUnique(ls, errMsgs, warnMsgs);
      (forall k :: 0 <= k < |r.0| ==>
         exists j :: 0 <= j < |ls| && r.0[k].message == ls[j].text && ls[j].text != [] && !ls[j].kind.noise) &&
      r.1 == []
  {
    if ls != [] {
      var init := ls[..|ls| - 1];
      FilterDropsNoise(init, errMsgs, warnMsgs);
      var prev := FilterChunkUnique(init, errMsgs, warnMsgs);
      var l := ls[|ls| - 1];
      NeverAWarning(l.text, l.kind, errMsgs + Messages(prev.0), warnMsgs + Messages(prev.1));
      forall k | 0 <= k < |prev.0|
        ensures exists j :: 0 <= j < |ls| && prev.0[k].message == ls[j].text && ls[j].text != [] && !ls[j].kind.noise
      {
        var j :| 0 <= j < |init| && prev.0[k].message == init[j].text && init[j].text != [] && !init[j].kind.noise;
        assert ls[j] == init[j];
      }
    }
  }

  /**
   * The corrected filter never reports a message twice, nor one recorded
   * before the chunk.
   */
  lemma {:induction false} FilterUniqueNoDup(ls: seq<Line>, errMsgs: seq<string>, warnMsgs: seq<string>)
    ensures var r := FilterChunkUnique(ls, errMsgs, warnMsgs);
      NoDup(Messages(r.0)) && NoDup(Messages(r.1)) &&
      (forall k :: 0 <= k < |r.0| ==> r.0[k].message !in errMsgs) &&
      (forall k :: 0 <= k < |r.1| ==> r.1[k].message !in warnMsgs)
  {
    if ls != [] {
      var init := ls[..|ls| - 1];
      FilterUniqueNoDup(init, errMsgs, warnMsgs);
      var prev := FilterChunkUnique(init, errMsgs, warnMsgs);
      var l := ls[|ls| - 1];
      var v := Decide(l.text, l.kind, errMsgs + Messages(prev.0), warnMsgs + Messages(prev.1));
      assert FilterChunkUnique(ls, errMsgs, warnMsgs) == Record(prev, v);
      if v.NewError? {
        AppendFresh(prev.0, v.signal, errMsgs);
      } else if v.NewWarning? {
        AppendFresh(prev.1, v.signal, warnMsgs);
      }
    }
  }

  /** Appending a signal whose message is new keeps the messages distinct and new. */
  lemma AppendFresh(prev: seq<Signal>, s: Signal, before: seq<string>)
    requires NoDup(Messages(prev)) && forall k :: 0 <= k < |prev| ==> prev[k].message !in before
    requires s.message !in before + Messages(prev)
    ensures NoDup(Messages(prev + [s]))
    ensures forall k :: 0 <= k < |prev + [s]| ==> (prev + [s])[k].message !in before
  {
    var ms := Messages(prev + [s]);
    MessagesAppend(prev, [s]);
    assert ms == Messages(prev) + [s.message];
    forall i, j | 0 <= i < j < |ms|
      ensures ms[i] != ms[j]
    {
      if j == |prev| {
        assert ms[i] == Messages(prev)[i];
        assert s.message !in Messages(prev);
      } else {
        assert ms[i] == Messages(prev)[i] && ms[j] == Messages(prev)[j];
      }
    }
    forall k | 0 <= k < |prev + [s]|
      ensures (prev + [s])[k].message !in before
    {
      if k < |prev| {
        assert (prev + [s])[k] == prev[k];
      }
    }
  }

  /** A critical line repeated in one chunk is reported twice by the filter as written. */
  lemma RepeatedLineReportedTwice(l: Line, errMsgs: seq<string>, warnMsgs: seq<string>)
    requires l.text != [] && !l.kind.noise && l.kind.critical && l.text !in errMsgs
    ensures var r := FilterChunk([l, l], errMsgs, warnMsgs);
      |r.0| == 2 && r.0[0].message == r.0[1].message == l.text
  {
    var v := Decide(l.text, l.kind, errMsgs, warnMsgs);
    assert v == NewError(Signal(l.text, l.kind.package, true));
    var none: seq<Signal> := [];
    assert [l][..0] == [];
    assert FilterChunk([], errMsgs, warnMsgs) == (none, none);
    assert none + [v.signal] == [v.signal];
    assert Record((none, none), v) == ([v.signal], none);
    assert FilterChunk([l], errMsgs, warnMsgs) == ([v.signal], none);
    assert [v.signal] + [v.signal] == [v.signal, v.signal];
    assert Record(([v.signal], none), v) == ([v.signal, v.signal], none);
    assert [l, l][..1] == [l];
  }

  /** "error: x" is such a line: critical and not noise. */
  lemma ErrorLineWitness()
    ensures Strip("error: x") == "error: x"
    ensures IsCritical("error: x") && !IsNoise("error: x")
    ensures Kind("error: x", []).critical && !Kind("error: x", []).noise
  {
    ErrorLineStripped();
    ErrorLineCritical();
    ErrorLineNotNoise();
  }

  lemma ErrorLineStripped()
    ensures Strip("error: x") == "error: x"
  {
    var s := "error: x";
    assert !IsSpace(s[0]) && !IsSpace(s[|s| - 1]);
    assert TrimStart(s) == s;
    assert TrimEnd(s) == s;
  }

  lemma ErrorLineLower()
    ensures Lower("error: x") == "error: x"
  {
    var s := "error: x";
    forall i | 0 <= i < |s|
      ensures Lower(s)[i] == s[i]
    {
      assert ToLower(s[i]) == s[i];
    }
  }

  lemma ErrorLineCritical()
    ensures IsCritical("error: x")
  {
    var lo := Lower("error: x");
    ErrorLineLower();
    assert OccursAt(lo, "error:", 0);
    assert IndexOf(lo, "error:", 0) == 0;
    assert InOrder(lo[6..], []);
    assert InOrder(lo, CriticalPatterns[0]);
  }

  lemma ErrorLineNotNoise()
    ensures !IsNoise("error: x")
  {
    ErrorLineLower();
    NoPatternMatches("error: x", NoisePatterns);
  }

  /** No pattern list matches when none of their first literals' first characters occur. */
  lemma {:induction false} NoPatternMatches(s: string, pats: seq<seq<string>>)
    requires forall p :: 0 <= p < |pats| ==> pats[p] != [] && pats[p][0] != [] && pats[p][0][0] !in s
    ensures !AnyInOrder(s, pats)
  {
    if pats != [] {
      AbsentFirstChar(s, pats[0][0]);
      NoPatternMatches(s, pats[1..]);
    }
  }

  /** A pattern whose first character does not occur is not found. */
  lemma AbsentFirstChar(s: string, p: string)
    requires p != [] && p[0] !in s
    ensures IndexOf(s, p, 0) == -1
  {
  }

  // ---------------------------------------------------------------------------
  // State derivation and back-off (pure)
  // ---------------------------------------------------------------------------

  predicate AnyCritical(errors: seq<Signal>)
  {
    exists k :: 0 <= k < |errors| && errors[k].critical
  }

  /** `_update_build_state`. */
  function DeriveState(output: string, completed: bool, progress: nat, errors: seq<Signal>): BuildState
  {
    var lo := Lower(output);
    if completed then
      if Contains(lo, "built target driver") || progress >= 100 then Completed
      else if errors != [] then Failed
      else Completed
    else if AnyCritical(errors) then Failed
    else if Contains(lo, "cmake") && progress < 30 then Configuring
    else if progress < 50 then CompilingCore
    else if progress < 80 then CompilingPackages
    else if progress < 100 then Linking
    else Completed
  }

  /** While the build runs, a recorded critical error means FAILED; otherwise the progress band decides. */
  lemma DeriveStateWhileRunning(output: string, progress: nat, errors: seq<Signal>)
    ensures AnyCritical(errors) ==> DeriveState(output, false, progress, errors) == Failed
    ensures !AnyCritical(errors) ==>
      var s := DeriveState(output, false, progress, errors);
      (s == Configuring ==> progress < 30) &&
      (s == CompilingCore ==> progress < 50) &&
      (s == CompilingPackages ==> 50 <= progress < 80) &&
      (s == Linking ==> 80 <= progress < 100) &&
      (s == Completed <==> progress >= 100) &&
      s != Failed && s != Timeout && s != Starting
  {
  }

  /** When the process has ended, the verdict is FAILED only with errors and progress below 100. */
  lemma DeriveStateWhenDone(output: string, progress: nat, errors: seq<Signal>)
    ensures DeriveState(output, true, progress, errors) in {Completed, Failed}
    ensures DeriveState(output, true, progress, errors) == Failed ==> errors != [] && progress < 100
  {
  }

  /** The scheduler's two counters. */
  datatype Backoff = Backoff(intervalIndex: nat, inactive: nat)

  /** The update made by `check_build_status` after activity detection. */
  function AfterCheck(b: Backoff, activity: bool): Backoff
  {
    if activity then Backoff(0, 0) else Backoff(b.intervalIndex, b.inactive + 1)
  }

  /** The update made by `get_next_wait_interval`. */
  function AfterWait(b: Backoff): (r: Backoff)
    requires b.intervalIndex < |WaitIntervals|
    ensures r.intervalIndex < |WaitIntervals|
  {
    if b.inactive > InactivityThreshold
    then Backoff(Min(b.intervalIndex + 1, |WaitIntervals| - 1), b.inactive)
    else b
  }

  /** `n` polling cycles (check, then wait) without activity. */
  function IdleCycles(b: Backoff, n: nat): (r: Backoff)
    requires b.intervalIndex < |WaitIntervals|
    ensures r.intervalIndex < |WaitIntervals|
    decreases n
  {
    if n == 0 then b else IdleCycles(AfterWait(AfterCheck(b, false)), n - 1)
  }

  /**
   * From a fresh or just-active schedule, `n` idle cycles leave the interval
   * index at `n - 2` (capped at the slowest interval): the third idle check
   * advances by exactly one step and every later one by one more.
   */
  lemma {:induction false} IdleCyclesIndex(n: nat)
    ensures IdleCycles(Backoff(0, 0), n) == Backoff(Min(Max(n - 2, 0), |WaitIntervals| - 1), n)
  {
    if n > 0 {
      IdleCyclesIndex(n - 1);
      IdleCyclesStep(Backoff(0, 0), n);
    }
  }

  lemma {:induction false} IdleCyclesStep(b: Backoff, n: nat)
    requires b.intervalIndex < |WaitIntervals| && n > 0
    ensures IdleCycles(b, n) == AfterWait(AfterCheck(IdleCycles(b, n - 1), false))
    decreases n
  {
    if n > 1 {
      IdleCyclesStep(AfterWait(AfterCheck(b, false)), n - 1);
    }
  }

  /** One active check resets the schedule whatever the idle streak. */
  lemma ActivityResets(b: Backoff)
    requires b.intervalIndex < |WaitIntervals|
    ensures AfterWait(AfterCheck(b, true)) == Backoff(0, 0)
  {
  }

  /** What `check_build_status` records from stderr. */
  function StderrErrors(stderr: string): (r: seq<Signal>)
    ensures r != [] <==> stderr != [] && Contains(Lower(stderr), "error")
    ensures r != [] ==> r == [Signal(stderr, false, true)]
  {
    if stderr != [] && Contains(Lower(stderr), "error") then [Signal(stderr, false, true)] else []
  }

  /**
   * The errors and warnings the corrected filter finds in `stdout`, given the
   * signals recorded before.
   */
  function StdoutSignals(stdout: string, focus: seq<string>, errors: seq<Signal>, warnings: seq<Signal>)
    : (seq<Signal>, seq<Signal>)
  {
    FilterChunkUnique(Analyse(Split(stdout, '\n'), focus), Messages(errors), Messages(warnings))
  }

  lemma PrefixOfAppend<T>(a: seq<T>, b: seq<T>)
    ensures a <= a + b
  {
    assert (a + b)[..|a|] == a;
  }

  lemma PrefixTrans<T>(a: seq<T>, b: seq<T>, c: seq<T>)
    requires a <= b && b <= c
    ensures a <= c
  {
    assert c[..|a|] == b[..|a|];
  }

  // ---------------------------------------------------------------------------
  // The monitor object
  // ---------------------------------------------------------------------------

  class Monitor {
    const focusPackages: seq<string>
    const maxDuration: int
    var state: BuildState
    var packagesBuilt: seq<string>
    var errors: seq<Signal>
    var warnings: seq<Signal>
    var currentIntervalIndex: nat
    var consecutiveNoActivity: nat
    var currentProgress: nat

    ghost predicate Valid()
      reads this`currentIntervalIndex, this`packagesBuilt
    {
      currentIntervalIndex < |WaitIntervals| &&
      NoDup(packagesBuilt) &&
      forall k :: 0 <= k < |packagesBuilt| ==> packagesBuilt[k] in focusPackages
    }

    function Schedule(): Backoff
      reads this`currentIntervalIndex, this`consecutiveNoActivity
    {
      Backoff(currentIntervalIndex, consecutiveNoActivity)
    }

    /** A missing or empty package list falls back to http, rest and openapi. */
    constructor (focus: seq<string>, maxDuration: int)
      ensures Valid()
      ensures focusPackages == (if focus == [] then DefaultPackages else focus)
      ensures this.maxDuration == maxDuration
      ensures state == Starting && currentProgress == 0
      ensures packagesBuilt == [] && errors == [] && warnings == []
      ensures Schedule() == Backoff(0, 0)
    {
      focusPackages := if focus == [] then DefaultPackages else focus;
      this.maxDuration := maxDuration;
      state := Starting;
      packagesBuilt := [];
      errors := [];
      warnings := [];
      currentIntervalIndex := 0;
      consecutiveNoActivity := 0;
      currentProgress := 0;
    }

    /** `_extract_package_completions`: appends and returns the newly completed packages. */
    method ExtractPackageCompletions(output: string) returns (newlyBuilt: seq<string>)
      requires Valid()
      modifies this`packagesBuilt
      ensures Valid()
      ensures newlyBuilt == Completions(focusPackages, old(packagesBuilt), output)
      ensures packagesBuilt == old(packagesBuilt) + newlyBuilt && old(packagesBuilt) <= packagesBuilt
    {
      newlyBuilt := [];
      var i := 0;
      while i < |focusPackages|
        invariant 0 <= i <= |focusPackages|
        invariant newlyBuilt == Completions(focusPackages[..i], old(packagesBuilt), output)
        invariant packagesBuilt == old(packagesBuilt) + newlyBuilt
        invariant Valid()
      {
        var package := focusPackages[i];
        assert focusPackages[..i + 1][..i] == focusPackages[..i];
        if BuiltTargetSeen(output, package) {
          if package !in packagesBuilt {
            newlyBuilt := newlyBuilt + [package];
            packagesBuilt := packagesBuilt + [package];
          }
        }
        i := i + 1;
      }
      assert focusPackages[..i] == focusPackages;
      PrefixOfAppend(old(packagesBuilt), newlyBuilt);
    }

    /**
     * `_filter_errors_and_warnings` as written: a line is compared only with the
     * messages already in `errors` and `warnings`.
     */
    method FilterErrorsAndWarnings(output: string) returns (newErrors: seq<Signal>, newWarnings: seq<Signal>)
      ensures (newErrors, newWarnings) ==
        FilterChunk(Analyse(Split(output, '\n'), focusPackages), Messages(errors), Messages(warnings))
    {
      var lines := Split(output, '\n');
      ghost var ls := Analyse(lines, focusPackages);
      var errMsgs, warnMsgs := Messages(errors), Messages(warnings);
      newErrors, newWarnings := [], [];
      var i := 0;
      while i < |lines|
        invariant 0 <= i <= |lines|
        invariant (newErrors, newWarnings) == FilterChunk(ls[..i], errMsgs, warnMsgs)
      {
        var line := Strip(lines[i]);
        var verdict := Decide(line, Kind(line, focusPackages), errMsgs, warnMsgs);
        ChunkStep(ls, i, errMsgs, warnMsgs);
        match verdict {
          case Drop =>
          case NewError(s) => newErrors := newErrors + [s];
          case NewWarning(s) => newWarnings := newWarnings + [s];
        }
        i := i + 1;
      }
      assert ls[..i] == ls;
    }

    /** The corrected filter, used by `CheckBuildStatus`: no message is reported twice. */
    method FilterErrorsAndWarningsUnique(output: string) returns (newErrors: seq<Signal>, newWarnings: seq<Signal>)
      ensures (newErrors, newWarnings) ==
        FilterChunkUnique(Analyse(Split(output, '\n'), focusPackages), Messages(errors), Messages(warnings))
      ensures NoDup(Messages(newErrors)) && NoDup(Messages(newWarnings))
      ensures forall k :: 0 <= k < |newErrors| ==> newErrors[k].message !in Messages(errors)
    {
      var lines := Split(output, '\n');
      ghost var ls := Analyse(lines, focusPackages);
      var errMsgs, warnMsgs := Messages(errors), Messages(warnings);
      newErrors, newWarnings := [], [];
      var i := 0;
      while i < |lines|
        invariant 0 <= i <= |lines|
        invariant (newErrors, newWarnings) == FilterChunkUnique(ls[..i], errMsgs, warnMsgs)
      {
        var line := Strip(lines[i]);
        var verdict := Decide(line, Kind(line, focusPackages), errMsgs + Messages(newErrors),
                              warnMsgs + Messages(newWarnings));
        ChunkUniqueStep(ls, i, errMsgs, warnMsgs);
        match verdict {
          case Drop =>
          case NewError(s) => newErrors := newErrors + [s];
          case NewWarning(s) => newWarnings := newWarnings + [s];
        }
        i := i + 1;
      }
      assert ls[..i] == ls;
      FilterUniqueNoDup(ls, errMsgs, warnMsgs);
    }

    /** Appends the signals the corrected filter finds in `stdout` to `errors` and `warnings`. */
    method RecordSignals(stdout: string)
      modifies this`errors, this`warnings
      ensures errors == old(errors) + StdoutSignals(stdout, focusPackages, old(errors), old(warnings)).0
      ensures warnings == old(warnings) + StdoutSignals(stdout, focusPackages, old(errors), old(warnings)).1
      ensures old(errors) <= errors && old(warnings) <= warnings
    {
      var newErrors, newWarnings := FilterErrorsAndWarningsUnique(stdout);
      PrefixOfAppend(errors, newErrors);
      PrefixOfAppend(warnings, newWarnings);
      errors := errors + newErrors;
      warnings := warnings + newWarnings;
    }

    /** The stderr rule of `check_build_status`: any mention of "error" is a critical error. */
    method NoteStderr(stderr: string)
      modifies this`errors, this`state
      ensures errors == old(errors) + StderrErrors(stderr) && old(errors) <= errors
      ensures state == if StderrErrors(stderr) != [] then Failed else old(state)
    {
      if stderr != [] && Contains(Lower(stderr), "error") {
        PrefixOfAppend(errors, [Signal(stderr, false, true)]);
        errors := errors + [Signal(stderr, false, true)];
        state := Failed;
      }
    }

    /** The activity rule of `check_build_status`: activity resets the back-off. */
    method NoteActivity(hasActivity: bool)
      modifies this`consecutiveNoActivity, this`currentIntervalIndex
      ensures Schedule() == AfterCheck(old(Schedule()), hasActivity)
    {
      if hasActivity {
        consecutiveNoActivity := 0;
        currentIntervalIndex := 0;
      } else {
        consecutiveNoActivity := consecutiveNoActivity + 1;
      }
    }

    /** The progress rule of `check_build_status`: progress never goes back. */
    method RaiseProgress(stdout: string)
      modifies this`currentProgress
      ensures currentProgress == Max(old(currentProgress), ExtractProgress(stdout, focusPackages, old(currentProgress)))
    {
      var newProgress := ExtractProgress(stdout, focusPackages, currentProgress);
      if newProgress > currentProgress {
        currentProgress := newProgress;
      }
    }

    /** The activity, progress and package rules of `check_build_status`. */
    method ObserveProgress(stdout: string)
      requires Valid()
      modifies this`packagesBuilt, this`currentProgress, this`currentIntervalIndex, this`consecutiveNoActivity
      ensures Valid()
      ensures currentProgress == Max(old(currentProgress), ExtractProgress(stdout, focusPackages, old(currentProgress)))
      ensures Schedule() == AfterCheck(old(Schedule()), DetectActivity(stdout))
      ensures packagesBuilt == old(packagesBuilt) + Completions(focusPackages, old(packagesBuilt), stdout)
    {
      NoteActivity(DetectActivity(stdout));
      RaiseProgress(stdout);
      var _ := ExtractPackageCompletions(stdout);
    }

    /** The stderr rule, then the stdout signals found by the corrected filter. */
    method RecordErrors(stdout: string, stderr: string)
      modifies this`state, this`errors, this`warnings
      ensures var found := StdoutSignals(stdout, focusPackages, old(errors) + StderrErrors(stderr), old(warnings));
        && errors == old(errors) + StderrErrors(stderr) + found.0
        && warnings == old(warnings) + found.1
      ensures old(errors) <= errors && old(warnings) <= warnings
    {
      NoteStderr(stderr);
      ghost var errors1 := errors;
      ghost var found := StdoutSignals(stdout, focusPackages, errors1, warnings);
      RecordSignals(stdout);
      assert errors == errors1 + found.0 && warnings == old(warnings) + found.1;
      PrefixTrans(old(errors), errors1, errors);
    }

    /**
     * `check_build_status` within the time limit: activity, progress and completed
     * packages, the stderr rule and the stdout signals, then the new state.  The
     * rules touch disjoint fields, so their order does not matter.
     */
    method ObserveOutput(stdout: string, stderr: string, completed: bool)
      requires Valid()
      modifies this`state, this`errors, this`warnings, this`packagesBuilt, this`currentProgress,
        this`currentIntervalIndex, this`consecutiveNoActivity
      ensures Valid()
      ensures var found := StdoutSignals(stdout, focusPackages, old(errors) + StderrErrors(stderr), old(warnings));
        && currentProgress == Max(old(currentProgress), ExtractProgress(stdout, focusPackages, old(currentProgress)))
        && Schedule() == AfterCheck(old(Schedule()), DetectActivity(stdout))
        && packagesBuilt == old(packagesBuilt) + Completions(focusPackages, old(packagesBuilt), stdout)
        && errors == old(errors) + StderrErrors(stderr) + found.0
        && warnings == old(warnings) + found.1
        && state == DeriveState(stdout, completed, currentProgress, errors)
      ensures old(errors) <= errors && old(warnings) <= warnings
    {
      ObserveProgress(stdout);
      RecordErrors(stdout, stderr);
      var next := DeriveState(stdout, completed, currentProgress, errors);
      state := next;
    }

    /**
     * `check_build_status`.  `elapsed` is the time since the monitor started;
     * `stdout`, `stderr` and `completed` are what the output source returns.
     */
    method CheckBuildStatus(elapsed: real, stdout: string, stderr: string, completed: bool)
      returns (status: BuildStatus)
      requires Valid()
      modifies this
      ensures Valid()
      ensures elapsed > maxDuration as real ==>
        state == Timeout && currentProgress == old(currentProgress) &&
        packagesBuilt == old(packagesBuilt) && errors == old(errors) && warnings == old(warnings) &&
        Schedule() == old(Schedule())
      ensures elapsed <= maxDuration as real ==>
        var found := StdoutSignals(stdout, focusPackages, old(errors) + StderrErrors(stderr), old(warnings));
        && currentProgress == Max(old(currentProgress), ExtractProgress(stdout, focusPackages, old(currentProgress)))
        && Schedule() == AfterCheck(old(Schedule()), DetectActivity(stdout))
        && packagesBuilt == old(packagesBuilt) + Completions(focusPackages, old(packagesBuilt), stdout)
        && errors == old(errors) + StderrErrors(stderr) + found.0
        && warnings == old(warnings) + found.1
        && state == DeriveState(stdout, completed, currentProgress, errors)
      ensures currentProgress >= old(currentProgress)
      ensures old(packagesBuilt) <= packagesBuilt && old(errors) <= errors && old(warnings) <= warnings
      ensures status == BuildStatus(state, currentProgress, packagesBuilt, focusPackages, errors, warnings, elapsed)
    {
      if elapsed > maxDuration as real {
        state := Timeout;
      } else {
        ObserveOutput(stdout, stderr, completed);
      }
      status := BuildStatus(state, currentProgress, packagesBuilt, focusPackages, errors, warnings, elapsed);
    }

    /** `get_next_wait_interval`: back off after more than two idle checks. */
    method GetNextWaitInterval() returns (wait: nat)
      requires Valid()
      modifies this`currentIntervalIndex
      ensures Valid()
      ensures Schedule() == AfterWait(old(Schedule()))
      ensures wait == WaitIntervals[currentIntervalIndex]
    {
      if consecutiveNoActivity > InactivityThreshold {
        currentIntervalIndex := Min(currentIntervalIndex + 1, |WaitIntervals| - 1);
      }
      wait := WaitIntervals[currentIntervalIndex];
    }
  }
}
