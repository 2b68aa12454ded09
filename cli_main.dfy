/**
 * `main` in src/cli/main.c after the option scan: run the selected source,
 * drain piped standard input, enter interactive mode, and settle the exit
 * status. The `goto cleanup` path is a labeled block left with `break`;
 * `goto usage` ends the program with `exit(retval)`.
 *
 * The environment of one run is abstract: whether standard input is a
 * terminal, the bytes it holds, the evaluator's outcome for each call, the
 * interactive events, whether the home directory resolves (history file),
 * and how much memory the allocator grants.
 */
module Cli {
  import opened Common
  import opened Evaluator
  import opened CliOptions
  import opened StdinDrain
  import opened Repl

  datatype Env = Env(
    isTty: bool,
    input: seq<byte>,
    verdict: nat -> bool,
    events: seq<Event>,
    homeOk: bool,
    maxAlloc: nat)

  /** What one run did, as seen from outside the process. */
  datatype Report = Report(
    status: int,               // the process exit status
    calls: seq<Source>,        // every source handed to the evaluator, in order
    repl: bool,                // whether interactive mode was entered
    history: seq<string>,      // the lines handed to the history
    historySaved: bool)

  /** One primary or forced action: whether it succeeded, what it evaluated, the stdin left. */
  datatype Step = Step(ok: bool, calls: seq<Source>, rest: seq<byte>)

  /** handle_stdin as the k-th evaluation of the run. */
  function DrainStep(input: seq<byte>, maxAlloc: nat, verdict: nat -> bool, k: nat): Step {
    if Fits(|input|, maxAlloc) then Step(verdict(k), [StdinCode(input)], [])
    else Step(false, [], input[Consumed(|input|, maxAlloc)..])
  }

  /** The primary action selected by the options; none at all succeeds trivially. */
  function PrimaryStep(o: Options, env: Env): Step {
    if o.runFile.Some? then Step(env.verdict(0), [ScriptFile(o.runFile.value)], env.input)
    else if o.runStdin then DrainStep(env.input, env.maxAlloc, env.verdict, 0)
    else if o.evalCode.Some? then Step(env.verdict(0), [EvalCode(o.evalCode.value)], env.input)
    else Step(true, [], env.input)
  }

  /** The run as a whole. */
  function Behaviour(argv: seq<string>, env: Env): Report {
    match SelectMode(argv)
    case Usage(rv) => Report(rv, [], false, [], false)
    case Run(o) =>
      var p := PrimaryStep(o, env);
      if !p.ok then Report(1, p.calls, false, [], false)
      else
        var d := if env.isTty then Step(true, [], p.rest)
                 else DrainStep(p.rest, env.maxAlloc, env.verdict, |p.calls|);
        var calls := p.calls + d.calls;
        if !d.ok then Report(1, calls, false, [], false)
        else if o.interactive && env.isTty then
          var t := Replay(env.events, false);
          Report(0, calls + [Greeting] + Evaluations(t.lines), true, NonEmpty(t.lines),
                 env.homeOk && !t.exitedBySignal)
        else Report(0, calls, false, [], false)
  }

  /** The `if (run_file) ... else if (run_stdin) ... else if (eval_code)` part of main. */
  method RunPrimary(o: Options, env: Env, vm: Vm, stdin: Stream) returns (ok: bool)
    requires vm.calls == [] && vm.verdict == env.verdict && stdin.pending == env.input
    modifies vm, stdin
    ensures ok == PrimaryStep(o, env).ok && vm.calls == PrimaryStep(o, env).calls
    ensures ok ==> stdin.pending == PrimaryStep(o, env).rest
  {
    ok := true;
    if o.runFile.Some? {
      ok := vm.Eval(ScriptFile(o.runFile.value));
    } else if o.runStdin {
      var r;
      r := HandleStdin(vm, stdin, env.maxAlloc);
      ok := r == 0;
    } else if o.evalCode.Some? {
      ok := vm.Eval(EvalCode(o.evalCode.value));
    }
  }

  /** main, from the option scan to the return or exit. */
  method Execute(argv: seq<string>, env: Env) returns (report: Report)
    ensures report == Behaviour(argv, env)
  {
    var sel := ParseOptions(argv);
    if sel.Usage? {
      // usage: print the usage text, exit(retval)
      return Report(sel.retval, [], false, [], false);
    }
    var o := sel.opts;
    var interactive := o.interactive;
    var retval := 0;
    var vm := new Vm(env.verdict);
    var stdin := new Stream(env.input);
    var session := new Session();
    var entered := false;
    ghost var p := PrimaryStep(o, env);
    label cleanup: {
      var ok := RunPrimary(o, env, vm, stdin);
      if !ok {
        retval := 1;
        break cleanup;
      }

      if !env.isTty {
        interactive := false;
        var r;
        r := HandleStdin(vm, stdin, env.maxAlloc);
        if r != 0 {
          retval := 1;
          break cleanup;
        }
      }

      if interactive {
        entered := true;
        var exited := session.HandleInteractive(vm, env.events, env.homeOk);
        if exited {
          // exit(0) from the SIGINT handler: no cleanup, no history save
          return Report(0, vm.calls, true, session.added, session.historySaved);
        }
      }
    }
    // cleanup: sjs_vm_destroy(vm); return retval
    report := Report(retval, vm.calls, entered, session.added, session.historySaved);
  }

  /** A usage error or a help request reaches no evaluation and exits with the usage status. */
  lemma UsageEvaluatesNothing(argv: seq<string>, env: Env)
    requires SelectMode(argv).Usage?
    ensures var r := Behaviour(argv, env);
      r.calls == [] && !r.repl && r.status == SelectMode(argv).retval
      && (r.status == 0 <==> exists k: nat :: Reached(argv, k) && argv[k] == "-h")
  {
    var rv := SelectMode(argv).retval;
    UsageExactlyOnTrigger(argv, rv);
    var k: nat :| Reached(argv, k) && UsageTrigger(argv, k, rv);
    if exists k': nat :: Reached(argv, k') && argv[k'] == "-h" {
      var k': nat :| Reached(argv, k') && argv[k'] == "-h";
      StopIndexIsFirst(argv, 1, k);
      StopIndexIsFirst(argv, 1, k');
    }
  }

  /** The process exits with 0 or 1 and nothing else. */
  lemma ExitStatusIsZeroOrOne(argv: seq<string>, env: Env)
    ensures Behaviour(argv, env).status == 0 || Behaviour(argv, env).status == 1
  {
    if SelectMode(argv).Usage? {
      UsageExactlyOnTrigger(argv, SelectMode(argv).retval);
    }
  }

  /** A failed primary action exits with 1, skips the drain and interactive mode. */
  lemma PrimaryFailureIsFatal(argv: seq<string>, env: Env)
    requires SelectMode(argv).Run? && !PrimaryStep(SelectMode(argv).opts, env).ok
    ensures var r := Behaviour(argv, env);
      r.status == 1 && !r.repl && |r.calls| <= 1
  {
  }

  /**
   * Interactive mode is entered exactly when standard input is a terminal,
   * the options ask for it, and the primary action succeeded.
   */
  lemma ReplOnlyOnTerminal(argv: seq<string>, env: Env)
    ensures Behaviour(argv, env).repl <==>
              && env.isTty
              && SelectMode(argv).Run?
              && SelectMode(argv).opts.interactive
              && PrimaryStep(SelectMode(argv).opts, env).ok
    ensures !env.isTty ==> Greeting !in Behaviour(argv, env).calls
  {
    if !env.isTty {
      match SelectMode(argv)
      case Usage(_) =>
      case Run(o) =>
        var p := PrimaryStep(o, env);
        assert Greeting !in p.calls;
    }
  }

  /**
   * With piped input, after a successful primary action the rest of standard
   * input is drained: evaluated when it fits, with that evaluation deciding
   * the exit status, and otherwise an exit with 1 that evaluates nothing
   * more.
   */
  lemma PipedInputDrainedAfterPrimary(argv: seq<string>, env: Env)
    requires !env.isTty && SelectMode(argv).Run?
    requires PrimaryStep(SelectMode(argv).opts, env).ok
    ensures var p := PrimaryStep(SelectMode(argv).opts, env);
      var r := Behaviour(argv, env);
      && r.calls == p.calls + (if Fits(|p.rest|, env.maxAlloc) then [StdinCode(p.rest)] else [])
      && (r.status == 0 <==> Fits(|p.rest|, env.maxAlloc) && env.verdict(|p.calls|))
      && !r.repl
  {
  }

  /** `sjs -e 1+1` fed from a pipe: the code runs, then the piped bytes. */
  lemma EvalThenPipedInput(env: Env)
    requires !env.isTty && Fits(|env.input|, env.maxAlloc) && env.verdict(0)
    ensures Behaviour(["sjs", "-e", "1+1"], env).calls == [EvalCode("1+1"), StdinCode(env.input)]
  {
    var argv := ["sjs", "-e", "1+1"];
    assert StopIndex(argv, 1) == 1;
    ScanSkipsInteractiveFlags(argv, 1, false);
  }

  /** `sjs -` fed from a pipe: stdin is drained twice, the second time empty. */
  lemma PipedDashDrainsTwice(env: Env)
    requires !env.isTty && Fits(|env.input|, env.maxAlloc) && env.verdict(0)
    ensures Behaviour(["sjs", "-"], env).calls == [StdinCode(env.input), StdinCode([])]
  {
    var argv := ["sjs", "-"];
    assert StopIndex(argv, 1) == 1;
    ScanSkipsInteractiveFlags(argv, 1, false);
  }

  /** An empty pipe is still evaluated: a zero-length source, not an error. */
  lemma EmptyPipeIsEvaluated(env: Env)
    requires !env.isTty && env.input == [] && Fits(0, env.maxAlloc)
    ensures Behaviour(["sjs"], env).calls == [StdinCode([])]
    ensures Behaviour(["sjs"], env).status == (if env.verdict(0) then 0 else 1)
  {
  }

  /** An unknown flag such as `-x` exits with 1 and evaluates nothing. */
  lemma UnknownFlagScenario(env: Env)
    ensures Behaviour(["sjs", "-x"], env) == Report(1, [], false, [], false)
  {
  }
}
