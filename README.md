# sjs front-end and `io.File`, modelled in Dafny

This project models two parts of sjs, a JavaScript host built on
Duktape.

**The command-line front-end (`src/cli/main.c`).** `main` scans its
arguments and picks at most one source: a file, inline code (`-e CODE`) or
standard input (`-`). With no source it falls back to interactive mode.
It runs that source and, when standard input is not a terminal, also
drains standard input and evaluates it. It then enters the interactive
loop if the `-i` flag survived. `handle_stdin` reads standard input into a
buffer that grows in 64 KiB steps. `handle_interactive` and `handle_sigint`
share the `got_sigint` flag. One Ctrl-C warns, and a second Ctrl-C with no
line accepted in between exits with status 0.

**The `File` wrapper (`modules/io/index.js`).** A `File` is open while its
`_f` holds a C stream handle and closed once `_f` is null. The constructor
checks `buffering`. `close` is idempotent. Every other operation on a
closed file throws an EBADF error without calling the native `_io` module.

Layout:

- `common.dfy` holds Option, Result and Min.
- `evaluator.dfy` holds the evaluator gateway. Its `Vm` logs every source it is handed. A fixed oracle decides each call's outcome.
- `cli_options.dfy` holds the option scan: a loop proved against a recursive specification, with lemmas about that specification.
- `stdin_drain.dfy` holds `handle_stdin`, over a real growable `array`.
- `repl.dfy` holds `got_sigint`, the SIGINT handler and the interactive loop, with the session spelled out as `Replay`.
- `cli_main.dfy` holds the dispatch in `main`: the method `Execute`, proved equal to the pure `Behaviour`, and properties of whole runs.
- `io_file.dfy` holds the `File` class, the `_io` call log, and the open/closed state machine as the pure `Apply`/`RunOps`, with lifetime lemmas.

External pieces are parameters:

- argv is a sequence of strings, with the program name at index 0.
- Standard input is a `Stream` of bytes. Each read returns `min(avail, remaining)` bytes, as `fread` does on a blocking stream.
- `isatty` is a boolean.
- Evaluator outcomes come from `verdict: nat -> bool`, indexed by call number.
- Interactive input is a sequence of events: a line, or an interrupt. The end of that sequence is `linenoise` returning NULL.
- Allocation is a bound `maxAlloc`: `malloc`/`realloc` of n bytes fails exactly when n > maxAlloc.
- In the JS model, `_io` results are opaque values `IoResult(k)`, where k is the call's position in the log.

Two facts about the code are worth knowing. First, `sjs - -i` does not
enter interactive mode, because the scan breaks at the first operand
(`src/cli/main.c:169`) and never sees the `-i`
(`CliOptions.DashThenInteractiveFlag`,
`CliOptions.TrailingArgumentsIgnored`). Second, a failed `realloc` loses
the old block, because its result is assigned straight to `buf`
(`src/cli/main.c:57`). The model does not track release (see below).

## Model

| member | source | states |
|---|---|---|
| `CliOptions.Classify` | src/cli/main.c:153-173 | an argument is a file operand exactly when it is empty or does not start with `-`; it selects stdin exactly when it is `-`; it is an unknown option exactly when it is longer than one character, starts with `-`, and is none of `-i`, `-h`, `-e` |
| `CliOptions.ParseOptions` | src/cli/main.c:149-178 | the mutating scan loop, with its breaks and its jumps to `usage`, computes exactly `SelectMode(argv)` |
| `CliOptions.StopIndex` | src/cli/main.c:150-154 | the scan stops at the first argument that is not `-i`; every argument before it is `-i` |
| `CliOptions.ScanSkipsInteractiveFlags` | src/cli/main.c:150-154 | scanning a run of `-i` flags only sets `interactive`, which becomes true when the run is non-empty |
| `CliOptions.UsageExactlyOnTrigger` | src/cli/main.c:155-166 | the scan ends in `usage` with status rv if and only if it reaches `-h` (rv = 0), or an unknown option or a final `-e` (rv = 1) |
| `CliOptions.EvalWithoutOperand` | src/cli/main.c:157-161 | a reached `-e` that is the last argument gives a usage error with status 1 |
| `CliOptions.SelectModeExclusive` | src/cli/main.c:157-173 | at most one of run_file, eval_code and run_stdin is set |
| `CliOptions.SelectedSourceIsFirstOperand` | src/cli/main.c:150-178 | the selected source is the one named by the first non-`-i` argument: stdin for `-`, the file for an operand, the next argument for `-e`; `interactive` holds exactly when a `-i` came before it |
| `CliOptions.NoOperandMeansInteractive` | src/cli/main.c:176-178 | no source is selected, and interactive mode is on, if and only if every argument is `-i` |
| `CliOptions.TrailingArgumentsIgnored` | src/cli/main.c:162-172 | once a source is selected, appending any arguments (a later `-i` included) changes nothing |
| `CliOptions.DashThenInteractiveFlag` | src/cli/main.c:167-169 | `sjs - -i` drains stdin without interactive mode |
| `CliOptions.InteractiveFlagThenDash` | src/cli/main.c:153-169 | `sjs -i -` drains stdin with interactive mode |
| `Evaluator.Vm.Eval` | src/cli/main.c:71 | each evaluation appends its source to the log and returns the oracle's verdict for its position |
| `StdinDrain.Stream.Read` | src/cli/main.c:63-64 | a read of up to avail bytes at offset off copies the next min(avail, remaining) bytes of input there and consumes them; the request size is appended to the stream's log of requests |
| `StdinDrain.Capacity` | src/cli/main.c:47-61 | the final buffer size is a positive multiple of 65536, leaves at least 1024 bytes free, and is less than one increment above that need |
| `StdinDrain.CapacityIsLeast` | src/cli/main.c:54-57 | no smaller multiple of 65536 leaves 1024 bytes free |
| `StdinDrain.CapacityMonotone` | src/cli/main.c:54-57 | a longer input never ends in a smaller buffer |
| `StdinDrain.Consumed` | src/cli/main.c:42-69 | the drain takes all n bytes when the final size can be allocated, and otherwise no more than the largest allocatable multiple of 65536 |
| `StdinDrain.GrowthRefused` | src/cli/main.c:55-60 | a realloc refused while fewer than 1024 bytes are free means the input does not fit, and the bytes read so far are exactly `Consumed` |
| `StdinDrain.DrainFits` | src/cli/main.c:51-69 | a buffer that reaches end of input with 1024 bytes free, grown only when it had to be, has exactly `Capacity(n)` bytes, so the input fits |
| `StdinDrain.EnsureRoom` | src/cli/main.c:54-61 | the buffer grows by one increment exactly when fewer than 1024 bytes are free; the realloc is refused exactly when that size exceeds the bound; once granted, at least 1024 bytes are free and the bytes read so far are kept |
| `StdinDrain.ReadMore` | src/cli/main.c:63-68 | a read requests all the free space and fills it with the next min(free, remaining) input bytes, so the buffer holds a longer prefix of the input and the stream the rest |
| `StdinDrain.Fill` | src/cli/main.c:47-69 | the read loop ends with the whole input in a buffer of `Capacity(n)` bytes when it fits; otherwise it fails after taking `Consumed` bytes from the stream. Every read it makes on the stream requests at least 1024 bytes |
| `StdinDrain.Grow` | src/cli/main.c:56-57 | the reallocated buffer has the new size and keeps the old contents as its prefix |
| `StdinDrain.HandleStdin` | src/cli/main.c:35-84 | returns 0 or -1. Every read it makes on the stream requests at least 1024 bytes. When the final size fits, all input bytes are handed to one `stdin` evaluation, in order and unchanged, and the result is 0 exactly on the evaluator's success. Otherwise it returns -1, evaluates nothing, and leaves the bytes not yet read in the stream |
| `Repl.NonEmpty` | src/cli/main.c:113-115 | the history lines are the non-empty accepted lines, no more of them than were accepted |
| `Repl.NonEmptyAppend` | src/cli/main.c:113-115 | history is added in entry order: filtering a concatenation is the concatenation of the filtered parts |
| `Repl.ExitIffConsecutiveInterrupts` | src/cli/main.c:129-137 | the handler exits if and only if an interrupt arrives while the flag is set: at the start of an armed session, or right after another interrupt with no line between them |
| `Repl.AcceptedLines` | src/cli/main.c:109-119 | the accepted lines are a prefix of the lines entered, and all of them when no interrupt exit happens |
| `Repl.ArmedAtEnd` | src/cli/main.c:109-137 | at end of input the flag is set exactly when the last event was an interrupt |
| `Repl.LineResetsInterruptPolicy` | src/cli/main.c:109-137 | interrupt, line (even empty), interrupt does not exit and leaves the flag armed |
| `Repl.Session.constructor` | src/cli/main.c:32 | `got_sigint` starts at 0, with nothing added to or saved from the history |
| `Repl.Session.HandleSigint` | src/cli/main.c:129-138 | the handler exits exactly when the flag was already set, and leaves it set |
| `Repl.Session.AcceptLine` | src/cli/main.c:110-118 | an accepted line clears the flag, joins the history only when non-empty, and is evaluated, so history and evaluations cover one more accepted line |
| `Repl.Session.ReadLines` | src/cli/main.c:109-119 | the loop's flag, history additions, evaluations and exit follow `Replay` from the flag's current value, and the history is not saved inside it |
| `Repl.Session.HandleInteractive` | src/cli/main.c:87-126 | the greeting is evaluated first, then every line the session accepts; the flag, the history additions and the exit follow `Replay`; the history is saved only when the home directory resolved and the session was not ended by the handler |
| `Cli.RunPrimary` | src/cli/main.c:184-200 | runs exactly the selected primary action and reports its outcome |
| `Cli.Execute` | src/cli/main.c:141-237 | a whole run of `main` (exit status, evaluations in order, interactive mode, history) equals `Behaviour(argv, env)` |
| `Cli.UsageEvaluatesNothing` | src/cli/main.c:227-236 | a usage outcome evaluates nothing, never enters interactive mode, and exits with the usage status, which is 0 exactly for a reached `-h` |
| `Cli.ExitStatusIsZeroOrOne` | src/cli/main.c:222-236 | the exit status is always 0 or 1 |
| `Cli.PrimaryFailureIsFatal` | src/cli/main.c:185-200 | a failed primary action exits with 1, skips the drain and interactive mode, and evaluates at most that one source |
| `Cli.ReplOnlyOnTerminal` | src/cli/main.c:202-220 | interactive mode is entered if and only if stdin is a terminal, the flag was set, and the primary action succeeded; with piped input no greeting is ever run |
| `Cli.PipedInputDrainedAfterPrimary` | src/cli/main.c:202-208 | with piped input, after a successful primary action the rest of stdin is evaluated next when it fits; the status is 0 exactly when it fits and that evaluation succeeds; a drain that does not fit exits with 1 and adds no evaluation |
| `Cli.EvalThenPipedInput` | src/cli/main.c:195-208 | `sjs -e 1+1` from a pipe evaluates the code, then the piped bytes |
| `Cli.PipedDashDrainsTwice` | src/cli/main.c:190-208 | `sjs -` from a pipe drains stdin twice, the second time evaluating an empty source |
| `Cli.EmptyPipeIsEvaluated` | src/cli/main.c:63-71 | an empty pipe is still evaluated as a zero-length source, and its outcome decides the exit status |
| `Cli.UnknownFlagScenario` | src/cli/main.c:164-166 | `sjs -x` exits with 1 and evaluates nothing |
| `IoFile.ToUint32` | modules/io/index.js:64 | the result is in [0, 2^32), is congruent to the input modulo 2^32, and equals the input when the input is already in range |
| `IoFile.NormalizeSize` | modules/io/index.js:63-65 | undefined becomes 4096. A number becomes its ToUint32 residue, which is in (0, 2^32), or 4096 when that residue is 0; an in-range positive number is unchanged. Any other value passes through |
| `IoFile.NormalizeSizeIdempotent` | modules/io/index.js:63-65 | normalising twice is normalising once |
| `IoFile.BufferingFor` | modules/io/index.js:13-26 | `buffering` is rejected exactly when it is not undefined, -1, 0 or 1; `setvbuf` is used exactly for 0 and 1, with that value |
| `IoFile.ClosedFileRejects` | modules/io/index.js:122-128 | on a closed file read, readline, write and flush throw EBADF and call nothing; close does nothing |
| `IoFile.CloseIdempotent` | modules/io/index.js:93-98 | after close the file is closed, and a second close makes no call |
| `IoFile.ClosedStaysClosed` | modules/io/index.js:61-98 | no sequence of operations reopens a closed file or reaches `_io` |
| `IoFile.RunOpsClosesOnce` | modules/io/index.js:93-98 | operations on an open file close its handle once if they leave it closed and never if they leave it open |
| `IoFile.CloseAtMostOnce` | modules/io/index.js:93-119 | over a file's whole life (constructor, any operations, finalizer), `fclose` is called on its handle at most once |
| `IoFile.File.Init` | modules/io/index.js:9-11 | the constructor records path, handle and mode as given |
| `IoFile.File.Fd` | modules/io/index.js:37-45 | `fd` is -1 exactly when the file is closed, else the handle's descriptor |
| `IoFile.File.Read` | modules/io/index.js:61-68 | behaves as `Apply(Read)`: EBADF on a closed file, otherwise one `fread` with the normalised size |
| `IoFile.File.Readline` | modules/io/index.js:71-78 | behaves as `Apply(Readline)`: EBADF on a closed file, otherwise one `fgets` with the normalised size |
| `IoFile.File.Write` | modules/io/index.js:81-84 | behaves as `Apply(Write)`: EBADF on a closed file, otherwise one `fwrite` of the data |
| `IoFile.File.Flush` | modules/io/index.js:87-90 | behaves as `Apply(Flush)`: EBADF on a closed file, otherwise one `fflush` |
| `IoFile.File.Close` | modules/io/index.js:93-98 | behaves as `Apply(Close)`: `fclose` only while open; afterwards `closed` is true and `fd` is -1 |
| `IoFile.File.Dealloc` | modules/io/index.js:115-119 | the finalizer closes the handle only if `_f` is not null |
| `IoFile.NewFile` | modules/io/index.js:8-29 | a bad `buffering` makes exactly one `fclose` on the handle and throws RangeError before the finalizer is registered; otherwise the new file is open (`closed` false, `fd` the handle's descriptor), `setvbuf` is called for 0 or 1, and path and mode are kept as given |
| `IoFile.Open` | modules/io/index.js:101-104 | `fopen`, then construction on the new handle with the same path, mode and buffering |
| `IoFile.FdOpen` | modules/io/index.js:107-110 | `fdopen`, then construction; an open result reports the given descriptor |

## Left out

- The evaluator (`sjs_vm_eval_code`, `sjs_vm_eval_file`, `duk_eval_string_noresult`) and VM creation, `sjs_vm_setup_args` and destruction are foreign calls. Each evaluation's outcome is an oracle value. A failing greeting is treated like a successful one.
- `linenoise` is foreign: its history cap of 1000, duplicate suppression, history file format, load and save. The model records only which lines are handed to `linenoiseHistoryAdd` and whether the save is called. Ctrl-C read by the line editor in raw mode is the editor's own behaviour.
- `sjs_path_normalize` and the history path are external helpers and string plumbing. Their only effect, whether the history is used, is the `homeOk` input.
- Signal installation, `SIGPIPE`, `isatty`, `exit`, and the text written by `fprintf`/`fflush` (usage text, error messages, the Ctrl-C notice) are OS and I/O. Only exit statuses and control flow are modelled.
- The embedded greeting byte array is data. It is the single `Greeting` source.
- StdinDrain.Stream.Read: models `fread` on a stream without read errors. A read error that makes `fread` return 0 early would end the drain like end of input, and is not modelled.
- StdinDrain.HandleStdin: freeing the buffer is not modelled, so its contract says nothing about release. As written, a failed `realloc` also loses the old block.
- `size_t` wrap-around of `bufsz + 65536` is not modelled. The allocation bound is reached long before it.
- Argument strings are taken to contain no NUL character, as C strings cannot.
- The module-level `stdin`, `stdout` and `stderr` Files are constructions with `buffering` undefined (`NewFile` with `Undefined`). They are not modelled separately.
- `_io`, `outil.finalizer` and `errno.strerror` are foreign. Handles are opaque, the error message text is not modelled, and the `_io` primitives are assumed not to throw.
- Cli.Execute: the evaluations of a script or `-e` code never read standard input. A script that reads `io.stdin` would leave the forced drain only the rest of it; in the model the drain after a script or `-e` code always sees all of it.
- IoFile.File.Fd: a handle's descriptor is a natural number, so `_io.fileno` never reports -1 for an open stream. With that assumption `fd` is -1 exactly when the file is closed.
- `EBADF` is the platform's `errno.EBADF`, an unspecified integer constant; the model does not fix its value.
- JavaScript numbers are integers here. `>>>` on fractional numbers, NaN or infinities is float semantics and is not modelled. A non-integer `buffering` would be rejected like any other value outside {-1, 0, 1}.
