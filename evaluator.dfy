/**
 * The evaluator gateway seen from the front-end (src/cli/main.c).
 * The embedded script engine is a foreign collaborator: the model only
 * records which source was handed to it, in order, and takes each call's
 * success or failure from an oracle fixed when the VM is created.
 */
module Evaluator {
  newtype byte = x: int | 0 <= x < 256

  /** One hand-over of source text, tagged with the name the call site gives it. */
  datatype Source =
    | ScriptFile(path: string)        // sjs_vm_eval_file(vm, run_file, ...)
    | EvalCode(code: string)          // sjs_vm_eval_code(vm, "eval", ...)
    | StdinCode(bytes: seq<byte>)     // sjs_vm_eval_code(vm, "stdin", ...)
    | InputLine(line: string)         // sjs_vm_eval_code(vm, "input", ...)
    | Greeting                        // duk_eval_string_noresult(ctx, SJS__CLI_GREET_CODE)

  class Vm {
    /** verdict(k) is the outcome of the k-th evaluation (counted from 0). */
    const verdict: nat -> bool
    /** Every source handed to the evaluator so far, oldest first. */
    var calls: seq<Source>

    constructor (verdict: nat -> bool)
      ensures this.verdict == verdict && calls == []
    {
      this.verdict := verdict;
      calls := [];
    }

    method Eval(s: Source) returns (ok: bool)
      modifies this
      ensures calls == old(calls) + [s]
      ensures ok == verdict(|old(calls)|)
    {
      ok := verdict(|calls|);
      calls := calls + [s];
    }
  }
}
