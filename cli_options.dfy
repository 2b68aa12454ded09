/**
 * The option scan at the top of `main` in src/cli/main.c.
 *
 * argv is given whole, program name included: the scan, like the C loop,
 * starts at index 1 and looks at one argument at a time. An argument is
 * "-i", "-h", "-e", some other option ("-" followed by at least one
 * character), the bare "-", or an operand naming a file. Scanning stops at
 * the first argument that is not "-i": every later argument is never seen.
 */
module CliOptions {
  import opened Common

  /** What the scan decided: the four variables of `main` that it sets. */
  datatype Options = Options(
    interactive: bool,
    runStdin: bool,
    runFile: Option<string>,
    evalCode: Option<string>)

  /** Either the options to run with, or a jump to `usage:` with its exit status. */
  datatype Selection = Run(opts: Options) | Usage(retval: int)

  datatype ArgKind =
    | InteractiveFlag
    | HelpFlag
    | EvalFlag
    | UnknownOption
    | StdinOperand
    | FileOperand

  predicate HasPrimary(o: Options) {
    o.runFile.Some? || o.evalCode.Some? || o.runStdin
  }

  /** At most one of run_file, eval_code and run_stdin is set. */
  predicate AtMostOnePrimary(o: Options) {
    && (o.runFile.Some? ==> o.evalCode.None? && !o.runStdin)
    && (o.evalCode.Some? ==> !o.runStdin)
  }

  /** The branch of the if-chain in the scan that an argument takes, tested in the C order. */
  function Classify(arg: string): (k: ArgKind)
    ensures k == FileOperand <==> arg == [] || arg[0] != '-'
    ensures k == StdinOperand <==> arg == "-"
    ensures k == UnknownOption <==>
              |arg| > 1 && arg[0] == '-' && arg != "-i" && arg != "-h" && arg != "-e"
  {
    if arg == "-i" then InteractiveFlag
    else if arg == "-h" then HelpFlag
    else if arg == "-e" then EvalFlag
    else if |arg| > 1 && arg[0] == '-' then UnknownOption
    else if arg == "-" then StdinOperand
    else FileOperand
  }

  /** The scan from index i on, with the value `interactive` has on reaching i. */
  function ScanFrom(argv: seq<string>, i: nat, interactive: bool): Selection
    decreases |argv| - i
  {
    if i >= |argv| then Run(Options(interactive, false, None, None))
    else
      match Classify(argv[i])
      case InteractiveFlag => ScanFrom(argv, i + 1, true)
      case HelpFlag => Usage(0)
      case EvalFlag =>
        if i == |argv| - 1 then Usage(1)
        else Run(Options(interactive, false, None, Some(argv[i + 1])))
      case UnknownOption => Usage(1)
      case StdinOperand => Run(Options(interactive, true, None, None))
      case FileOperand => Run(Options(interactive, false, Some(argv[i]), None))
  }

  /** The whole scan, followed by the default to interactive mode when no source was chosen. */
  function SelectMode(argv: seq<string>): Selection {
    match ScanFrom(argv, 1, false)
    case Usage(rv) => Usage(rv)
    case Run(o) => Run(if HasPrimary(o) then o else o.(interactive := true))
  }

  /** The options loop of `main`, as written: it mutates the four variables and breaks at an operand. */
  method ParseOptions(argv: seq<string>) returns (sel: Selection)
    ensures sel == SelectMode(argv)
  {
    var runFile: Option<string> := None;
    var evalCode: Option<string> := None;
    var interactive := false;
    var runStdin := false;
    var retval := 0;
    var i := 1;
    while i < |argv|
      invariant 1 <= i
      invariant runFile == None && evalCode == None && !runStdin && retval == 0
      invariant ScanFrom(argv, i, interactive) == ScanFrom(argv, 1, false)
    {
      var arg := argv[i];
      if arg == "-i" {
        interactive := true;
      } else if arg == "-h" {
        return Usage(retval);
      } else if arg == "-e" {
        if i == |argv| - 1 {
          retval := 1;
          return Usage(retval);
        }
        evalCode := Some(argv[i + 1]);
        break;
      } else if |arg| > 1 && arg[0] == '-' {
        retval := 1;
        return Usage(retval);
      } else if arg == "-" {
        runStdin := true;
        break;
      } else {
        runFile := Some(arg);
        break;
      }
      i := i + 1;
    }
    if runFile.None? && evalCode.None? && !runStdin {
      interactive := true;
    }
    sel := Run(Options(interactive, runStdin, runFile, evalCode));
  }

  /** The scan reaches index k: every argument before it was "-i". */
  predicate Reached(argv: seq<string>, k: nat) {
    1 <= k < |argv| && forall j :: 1 <= j < k ==> argv[j] == "-i"
  }

  /** The argument at k sends the scan to `usage:` with status rv. */
  predicate UsageTrigger(argv: seq<string>, k: nat, rv: int)
    requires k < |argv|
  {
    || (argv[k] == "-h" && rv == 0)
    || (rv == 1 && (Classify(argv[k]) == UnknownOption || (argv[k] == "-e" && k == |argv| - 1)))
  }

  /** The index at which the scan from i stops: the first argument that is not "-i". */
  function StopIndex(argv: seq<string>, i: nat): (k: nat)
    decreases |argv| - i
    ensures i <= k
    ensures k < |argv| ==> argv[k] != "-i"
    ensures k > i ==> k <= |argv|
    ensures forall j :: i <= j < k ==> argv[j] == "-i"
  {
    if i >= |argv| || argv[i] != "-i" then i else StopIndex(argv, i + 1)
  }

  lemma {:induction false} ScanSkipsInteractiveFlags(argv: seq<string>, i: nat, it: bool)
    ensures ScanFrom(argv, i, it) == ScanFrom(argv, StopIndex(argv, i), it || StopIndex(argv, i) > i)
    decreases |argv| - i
  {
    if i < |argv| && argv[i] == "-i" {
      ScanSkipsInteractiveFlags(argv, i + 1, true);
    }
  }

  lemma {:induction false} StopIndexIsFirst(argv: seq<string>, i: nat, k: nat)
    requires i <= k < |argv| && argv[k] != "-i"
    requires forall j :: i <= j < k ==> argv[j] == "-i"
    ensures StopIndex(argv, i) == k
    decreases k - i
  {
    if i < k {
      StopIndexIsFirst(argv, i + 1, k);
    }
  }

  /**
   * The scan ends in `usage:` with status rv exactly when it reaches an
   * argument that is "-h" (status 0), an unknown option, or an "-e" with
   * nothing after it (status 1).
   */
  lemma UsageExactlyOnTrigger(argv: seq<string>, rv: int)
    ensures SelectMode(argv) == Usage(rv) <==>
              exists k :: Reached(argv, k) && UsageTrigger(argv, k, rv)
  {
    var k := StopIndex(argv, 1);
    ScanSkipsInteractiveFlags(argv, 1, false);
    if SelectMode(argv) == Usage(rv) {
      assert Reached(argv, k) && UsageTrigger(argv, k, rv);
    }
    if exists k' :: Reached(argv, k') && UsageTrigger(argv, k', rv) {
      var k' :| Reached(argv, k') && UsageTrigger(argv, k', rv);
      StopIndexIsFirst(argv, 1, k');
    }
  }

  /** "-e" as the last argument, reached by the scan, is a usage error with status 1. */
  lemma EvalWithoutOperand(argv: seq<string>)
    requires |argv| >= 2 && argv[|argv| - 1] == "-e" && Reached(argv, |argv| - 1)
    ensures SelectMode(argv) == Usage(1)
  {
    UsageExactlyOnTrigger(argv, 1);
    assert UsageTrigger(argv, |argv| - 1, 1);
  }

  /** Each branch that selects a source breaks out of the scan, so at most one is set. */
  lemma SelectModeExclusive(argv: seq<string>)
    ensures SelectMode(argv).Run? ==> AtMostOnePrimary(SelectMode(argv).opts)
  {
    ScanSkipsInteractiveFlags(argv, 1, false);
  }

  /**
   * When a source is selected, it is the one named by the first argument
   * that is not "-i", and interactive mode is kept exactly when a "-i" was
   * scanned before it.
   */
  lemma SelectedSourceIsFirstOperand(argv: seq<string>)
    requires SelectMode(argv).Run? && HasPrimary(SelectMode(argv).opts)
    ensures var o, k := SelectMode(argv).opts, StopIndex(argv, 1);
      && Reached(argv, k)
      && (o.interactive <==> k > 1)
      && (o.runStdin <==> argv[k] == "-")
      && (o.runFile.Some? <==> (argv[k] == [] || argv[k][0] != '-'))
      && (o.runFile.Some? ==> o.runFile.value == argv[k])
      && (o.evalCode.Some? <==> argv[k] == "-e")
      && (o.evalCode.Some? ==> k + 1 < |argv| && o.evalCode.value == argv[k + 1])
  {
    ScanSkipsInteractiveFlags(argv, 1, false);
  }

  /** No source is selected exactly when every argument is "-i"; then interactive mode is on. */
  lemma NoOperandMeansInteractive(argv: seq<string>)
    ensures SelectMode(argv) == Run(Options(true, false, None, None)) <==>
              forall j :: 1 <= j < |argv| ==> argv[j] == "-i"
  {
    var k := StopIndex(argv, 1);
    ScanSkipsInteractiveFlags(argv, 1, false);
    if forall j :: 1 <= j < |argv| ==> argv[j] == "-i" {
      assert k >= |argv|;
    }
  }

  /** Arguments after the selected source (or after the code of "-e") are never looked at. */
  lemma TrailingArgumentsIgnored(argv: seq<string>, rest: seq<string>)
    requires SelectMode(argv).Run? && HasPrimary(SelectMode(argv).opts)
    ensures SelectMode(argv + rest) == SelectMode(argv)
  {
    var k := StopIndex(argv, 1);
    ScanSkipsInteractiveFlags(argv, 1, false);
    assert k < |argv|;
    StopIndexIsFirst(argv + rest, 1, k);
    ScanSkipsInteractiveFlags(argv + rest, 1, false);
  }

  /** `sjs - -i`: stdin is drained, and the "-i" after the operand is not seen. */
  lemma DashThenInteractiveFlag()
    ensures SelectMode(["sjs", "-", "-i"]) == Run(Options(false, true, None, None))
  {
    TrailingArgumentsIgnored(["sjs", "-"], ["-i"]);
    assert ["sjs", "-"] + ["-i"] == ["sjs", "-", "-i"];
  }

  /** `sjs -i - `: "-i" before the operand keeps interactive mode on. */
  lemma InteractiveFlagThenDash()
    ensures SelectMode(["sjs", "-i", "-"]) == Run(Options(true, true, None, None))
  {
  }
}
