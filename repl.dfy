/**
 * The interactive session of src/cli/main.c: `handle_interactive` and the
 * SIGINT handler `handle_sigint`, which share the one-bit flag `got_sigint`.
 *
 * What reaches the session is a sequence of events: a line returned by the
 * line editor, or an interrupt delivered to the process. The end of the
 * sequence is the editor returning NULL (end of input). The line editor
 * itself, its history storage and its file format are foreign; the model
 * records which lines are handed to `linenoiseHistoryAdd` and whether the
 * history is saved.
 */
module Repl {
  import opened Evaluator

  datatype Event = Line(text: string) | Interrupt

  /**
   * The abstract course of one session: whether it ended in the handler's
   * `exit(0)`, the lines accepted before it ended, and the flag at the end.
   */
  datatype Trace = Trace(exitedBySignal: bool, lines: seq<string>, armed: bool)

  /** The session from a given value of `got_sigint` on. */
  function Replay(events: seq<Event>, armed: bool): Trace {
    if events == [] then Trace(false, [], armed)
    else
      match events[0]
      case Interrupt =>
        if armed then Trace(true, [], true) else Replay(events[1..], true)
      case Line(s) =>
        var t := Replay(events[1..], false);
        t.(lines := [s] + t.lines)
  }

  /** The text of every line event, in order. */
  function LinesOf(events: seq<Event>): seq<string> {
    if events == [] then []
    else (if events[0].Line? then [events[0].text] else []) + LinesOf(events[1..])
  }

  /** The lines that go to the history: the non-empty ones, in order. */
  function NonEmpty(lines: seq<string>): (h: seq<string>)
    ensures |h| <= |lines|
    ensures forall s :: s in h <==> s in lines && s != ""
  {
    if lines == [] then []
    else (if lines[0] != "" then [lines[0]] else []) + NonEmpty(lines[1..])
  }

  /** Each accepted line is evaluated as "input", empty lines included. */
  function Evaluations(lines: seq<string>): seq<Source> {
    seq(|lines|, i requires 0 <= i < |lines| => InputLine(lines[i]))
  }

  lemma {:induction false} NonEmptyAppend(a: seq<string>, b: seq<string>)
    ensures NonEmpty(a + b) == NonEmpty(a) + NonEmpty(b)
    decreases |a|
  {
    if a != [] {
      assert (a + b)[1..] == a[1..] + b;
      NonEmptyAppend(a[1..], b);
    } else {
      assert a + b == b;
    }
  }

  /**
   * The handler exits exactly on an interrupt that finds the flag set: an
   * interrupt at the start of an armed session, or two interrupts in a row
   * with no accepted line between them.
   */
  lemma {:induction false} ExitIffConsecutiveInterrupts(events: seq<Event>, armed: bool)
    ensures Replay(events, armed).exitedBySignal <==>
              || (armed && |events| > 0 && events[0] == Interrupt)
              || exists j :: 0 < j < |events| && events[j - 1] == Interrupt && events[j] == Interrupt
    decreases |events|
  {
    if events != [] {
      var rest := events[1..];
      ExitIffConsecutiveInterrupts(rest, events[0] == Interrupt);
      if exists j :: 0 < j < |rest| && rest[j - 1] == Interrupt && rest[j] == Interrupt {
        var j :| 0 < j < |rest| && rest[j - 1] == Interrupt && rest[j] == Interrupt;
        assert events[j] == Interrupt && events[j + 1] == Interrupt;
      }
      if exists j :: 0 < j < |events| && events[j - 1] == Interrupt && events[j] == Interrupt {
        var j :| 0 < j < |events| && events[j - 1] == Interrupt && events[j] == Interrupt;
        if j > 1 {
          assert rest[j - 2] == Interrupt && rest[j - 1] == Interrupt;
        }
      }
    }
  }

  /**
   * The accepted lines are the lines of the events, up to the exit: all of
   * them when the session reaches end of input.
   */
  lemma {:induction false} AcceptedLines(events: seq<Event>, armed: bool)
    ensures Replay(events, armed).lines <= LinesOf(events)
    ensures !Replay(events, armed).exitedBySignal ==> Replay(events, armed).lines == LinesOf(events)
    decreases |events|
  {
    if events != [] {
      AcceptedLines(events[1..], events[0] == Interrupt);
    }
  }

  /**
   * At end of input the flag is set exactly when the last event was an
   * interrupt: each accepted line clears it, each interrupt sets it.
   */
  lemma {:induction false} ArmedAtEnd(events: seq<Event>, armed: bool)
    requires !Replay(events, armed).exitedBySignal
    ensures Replay(events, armed).armed <==>
              if events == [] then armed else events[|events| - 1] == Interrupt
    decreases |events|
  {
    if events != [] {
      ArmedAtEnd(events[1..], events[0] == Interrupt);
    }
  }

  /** The session as a whole is `accepted` followed by the rest of it, t. */
  ghost predicate Resumes(whole: Trace, accepted: seq<string>, t: Trace) {
    whole == t.(lines := accepted + t.lines)
  }

  lemma ResumeAfterInterrupt(whole: Trace, accepted: seq<string>, rest: seq<Event>, armed: bool)
    requires rest != [] && rest[0] == Interrupt
    requires Resumes(whole, accepted, Replay(rest, armed))
    ensures armed ==> whole == Trace(true, accepted, true)
    ensures !armed ==> Resumes(whole, accepted, Replay(rest[1..], true))
  {
    assert accepted + [] == accepted;
  }

  lemma ResumeAfterLine(whole: Trace, accepted: seq<string>, rest: seq<Event>, armed: bool)
    requires rest != [] && rest[0].Line?
    requires Resumes(whole, accepted, Replay(rest, armed))
    ensures Resumes(whole, accepted + [rest[0].text], Replay(rest[1..], false))
  {
    var t := Replay(rest[1..], false);
    assert accepted + ([rest[0].text] + t.lines) == (accepted + [rest[0].text]) + t.lines;
  }

  /** One interrupt, a line (even an empty one), another interrupt: the session goes on. */
  lemma LineResetsInterruptPolicy(s: string)
    ensures Replay([Interrupt, Line(s), Interrupt], false) == Trace(false, [s], true)
  {
    assert [Interrupt, Line(s), Interrupt][1..] == [Line(s), Interrupt];
    assert [Line(s), Interrupt][1..] == [Interrupt];
    assert Replay([Interrupt], false) == Trace(false, [], true);
    assert Replay([Line(s), Interrupt], true) == Trace(false, [s], true);
  }

  /** The process-wide state the interactive session touches. */
  class Session {
    /** got_sigint */
    var gotSigint: bool
    /** The lines handed to linenoiseHistoryAdd, oldest first. */
    var added: seq<string>
    /** Whether linenoiseHistorySave has been called. */
    var historySaved: bool

    constructor ()
      ensures !gotSigint && added == [] && !historySaved
    {
      gotSigint := false;
      added := [];
      historySaved := false;
    }

    /** handle_sigint: exitNow stands for the handler's exit(0). */
    method HandleSigint() returns (exitNow: bool)
      modifies this`gotSigint
      ensures exitNow == old(gotSigint)
      ensures gotSigint
    {
      if gotSigint {
        exitNow := true;
      } else {
        gotSigint := true;
        exitNow := false;
      }
    }

    /**
     * One turn of the loop of handle_interactive that received a line, after
     * the lines `accepted` on top of the history `added0` and the calls
     * `calls0`: the flag is cleared and the line joins the accepted ones.
     */
    method AcceptLine(vm: Vm, line: string,
                      ghost added0: seq<string>, ghost calls0: seq<Source>, ghost accepted: seq<string>)
      requires added == added0 + NonEmpty(accepted)
      requires vm.calls == calls0 + Evaluations(accepted)
      modifies this, vm
      ensures !gotSigint && historySaved == old(historySaved)
      ensures added == added0 + NonEmpty(accepted + [line])
      ensures vm.calls == calls0 + Evaluations(accepted + [line])
    {
      gotSigint := false;
      NonEmptyAppend(accepted, [line]);
      if line != "" {
        added := added + [line];
      }
      var ok := vm.Eval(InputLine(line));
      assert Evaluations(accepted + [line]) == Evaluations(accepted) + [InputLine(line)];
    }

    /**
     * The read-evaluate loop of handle_interactive, from the current flag
     * on. exited stands for exit(0) from the handler; otherwise the loop
     * ran to end of input.
     */
    method ReadLines(vm: Vm, events: seq<Event>) returns (exited: bool)
      modifies this, vm
      ensures exited == Replay(events, old(gotSigint)).exitedBySignal
      ensures gotSigint == Replay(events, old(gotSigint)).armed
      ensures vm.calls == old(vm.calls) + Evaluations(Replay(events, old(gotSigint)).lines)
      ensures added == old(added) + NonEmpty(Replay(events, old(gotSigint)).lines)
      ensures historySaved == old(historySaved)
    {
      ghost var whole := Replay(events, gotSigint);
      ghost var accepted: seq<string> := [];
      var rest := events;
      while rest != []
        invariant Resumes(whole, accepted, Replay(rest, gotSigint))
        invariant vm.calls == old(vm.calls) + Evaluations(accepted)
        invariant added == old(added) + NonEmpty(accepted)
        invariant historySaved == old(historySaved)
        decreases |rest|
      {
        match rest[0] {
          case Interrupt =>
            ResumeAfterInterrupt(whole, accepted, rest, gotSigint);
            var exitNow := HandleSigint();
            if exitNow {
              return true;
            }
          case Line(line) =>
            ResumeAfterLine(whole, accepted, rest, gotSigint);
            AcceptLine(vm, line, old(added), old(vm.calls), accepted);
            accepted := accepted + [line];
        }
        rest := rest[1..];
      }
      assert accepted + [] == accepted;
      exited := false;
    }

    /**
     * handle_interactive with the SIGINT handler installed. `homeOk` is the
     * outcome of resolving the home directory, which decides whether the
     * history file is loaded and saved. exited stands for exit(0) from the
     * handler, which ends the process without saving the history.
     */
    method HandleInteractive(vm: Vm, events: seq<Event>, homeOk: bool) returns (exited: bool)
      modifies this, vm
      ensures exited == Replay(events, old(gotSigint)).exitedBySignal
      ensures gotSigint == Replay(events, old(gotSigint)).armed
      ensures vm.calls == old(vm.calls) + [Greeting] + Evaluations(Replay(events, old(gotSigint)).lines)
      ensures added == old(added) + NonEmpty(Replay(events, old(gotSigint)).lines)
      ensures historySaved == (old(historySaved) || (homeOk && !exited))
    {
      var greeted := vm.Eval(Greeting);
      var useHistory := homeOk;
      exited := ReadLines(vm, events);
      if exited {
        return;
      }
      if useHistory {
        historySaved := true;
      }
    }
  }
}
