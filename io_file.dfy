/**
 * The `File` wrapper of modules/io/index.js: a JavaScript object around a
 * C stream handle `_f`, open while `_f` is a handle and closed once it is
 * null.
 *
 * The native `_io` module is foreign. The model keeps a log of the calls
 * made to it; what a call returns is the opaque value IoResult(k), k being
 * the call's position in the log, and a handle is opaque apart from the
 * descriptor `_io.fileno` reports for it. JavaScript numbers are integers
 * here.
 */
module IoFile {
  import opened Common

  /** The JavaScript values the wrapper tells apart. */
  datatype Value =
    | Undefined
    | Null
    | Num(n: int)
    | Str(s: string)
    | Obj(id: nat)          // any other object, such as a buffer
    | IoResult(call: nat)   // what `_io` returned on its call-th call

  /** A C stream (FILE *) as `_io` hands it out. */
  datatype Handle = Handle(id: nat, fd: nat)

  datatype IoCall =
    | Fopen(path: Value, mode: Value)
    | Fdopen(fd: nat, mode: Value)
    | Setvbuf(h: Handle, buffering: int)
    | Fread(h: Handle, size: Value)
    | Fgets(h: Handle, size: Value)
    | Fwrite(h: Handle, data: Value)
    | Fflush(h: Handle)
    | Fclose(h: Handle)

  /** errno.EBADF */
  const EBADF: int
  /** 2^32, the modulus of ToUint32 */
  const TWO_32: int := 0x1_0000_0000
  /** The size read or readline use when given none, or one that is 0 modulo 2^32. */
  const DEFAULT_SIZE: int := 4096

  /** An Error whose errno is `code`, or the RangeError for a bad `buffering`. */
  datatype JsError = Errno(code: int) | RangeError(buffering: Value)

  /** The `_io` native module: every call is logged. */
  class Io {
    var log: seq<IoCall>
    /** The descriptor of the stream that fopen opens on the k-th call. */
    const fdOf: nat -> nat

    constructor (fdOf: nat -> nat)
      ensures log == [] && this.fdOf == fdOf
    {
      log := [];
      this.fdOf := fdOf;
    }

    method Call(c: IoCall) returns (v: Value)
      modifies this
      ensures log == old(log) + [c] && v == IoResult(|old(log)|)
    {
      v := IoResult(|log|);
      log := log + [c];
    }

    method Fopen(path: Value, mode: Value) returns (h: Handle)
      modifies this
      ensures log == old(log) + [IoCall.Fopen(path, mode)]
      ensures h == Handle(|old(log)|, fdOf(|old(log)|))
    {
      h := Handle(|log|, fdOf(|log|));
      log := log + [IoCall.Fopen(path, mode)];
    }

    method Fdopen(fd: nat, mode: Value) returns (h: Handle)
      modifies this
      ensures log == old(log) + [IoCall.Fdopen(fd, mode)]
      ensures h == Handle(|old(log)|, fd)
    {
      h := Handle(|log|, fd);
      log := log + [IoCall.Fdopen(fd, mode)];
    }
  }

  /** ToUint32 on an integer: the residue modulo 2^32. */
  function ToUint32(n: int): (u: int)
    ensures 0 <= u < TWO_32
    ensures (n - u) % TWO_32 == 0
    ensures 0 <= n < TWO_32 ==> u == n
  {
    n % TWO_32
  }

  /** `(nread >>> 0) || 4096` when nread is undefined or a number; any other value as it is. */
  function NormalizeSize(nread: Value): (r: Value)
    ensures nread.Undefined? ==> r == Num(DEFAULT_SIZE)
    ensures nread.Num? ==> r.Num? && 0 < r.n < TWO_32
    ensures nread.Num? && nread.n % TWO_32 == 0 ==> r == Num(DEFAULT_SIZE)
    ensures nread.Num? && nread.n % TWO_32 != 0 ==> (r.n - nread.n) % TWO_32 == 0
    ensures nread.Num? && 0 < nread.n < TWO_32 ==> r == nread
    ensures !nread.Undefined? && !nread.Num? ==> r == nread
  {
    match nread
    case Undefined => Num(DEFAULT_SIZE)
    case Num(n) => var u := ToUint32(n); if u == 0 then Num(DEFAULT_SIZE) else Num(u)
    case _ => nread
  }

  /** Normalising a normalised size changes nothing. */
  lemma NormalizeSizeIdempotent(nread: Value)
    ensures NormalizeSize(NormalizeSize(nread)) == NormalizeSize(nread)
  {
  }

  /** What the constructor does with `buffering`. */
  datatype BufferingAction = KeepDefault | SetMode(mode: int) | Reject

  function BufferingFor(buffering: Value): (a: BufferingAction)
    ensures a == Reject <==>
              !(buffering == Undefined || buffering == Num(-1) || buffering == Num(0) || buffering == Num(1))
    ensures a.SetMode? <==> buffering == Num(0) || buffering == Num(1)
    ensures a.SetMode? ==> buffering == Num(a.mode)
  {
    if buffering == Undefined || buffering == Num(-1) then KeepDefault
    else if buffering == Num(0) || buffering == Num(1) then SetMode(buffering.n)
    else Reject
  }

  /** The operations of File.prototype. */
  datatype Op = Read(nread: Value) | Readline(nread: Value) | Write(data: Value) | Flush | Close

  /** The state `_f` after a step, the `_io` calls it made, and what it returned or threw. */
  datatype Effect = Effect(f: Option<Handle>, calls: seq<IoCall>, result: Result<Value, JsError>)

  /** One operation on a file whose `_f` is f; k is the position of its first `_io` call. */
  function Apply(f: Option<Handle>, op: Op, k: nat): Effect {
    match op
    case Close =>
      if f.Some? then Effect(None, [Fclose(f.value)], Success(Undefined))
      else Effect(None, [], Success(Undefined))
    case _ =>
      if f.None? then Effect(None, [], Failure(Errno(EBADF)))
      else
        match op
        case Read(n) => Effect(f, [Fread(f.value, NormalizeSize(n))], Success(IoResult(k)))
        case Readline(n) => Effect(f, [Fgets(f.value, NormalizeSize(n))], Success(IoResult(k)))
        case Write(d) => Effect(f, [Fwrite(f.value, d)], Success(IoResult(k)))
        case Flush => Effect(f, [Fflush(f.value)], Success(Undefined))
  }

  /** The constructor on handle h: the resulting `_f`, its `_io` calls, and whether it threw. */
  function Construct(h: Handle, buffering: Value): Effect {
    match BufferingFor(buffering)
    case KeepDefault => Effect(Some(h), [], Success(Undefined))
    case SetMode(m) => Effect(Some(h), [Setvbuf(h, m)], Success(Undefined))
    case Reject => Effect(None, [Fclose(h)], Failure(RangeError(buffering)))
  }

  /** fileDealloc, run by the collector on a file whose `_f` is f. */
  function FinalizerCalls(f: Option<Handle>): seq<IoCall> {
    if f.Some? then [Fclose(f.value)] else []
  }

  datatype Life = Life(f: Option<Handle>, calls: seq<IoCall>)

  /** A sequence of operations, the first of whose `_io` calls is the k-th. */
  function RunOps(f: Option<Handle>, ops: seq<Op>, k: nat): Life
    decreases |ops|
  {
    if ops == [] then Life(f, [])
    else
      var e := Apply(f, ops[0], k);
      var rest := RunOps(e.f, ops[1..], k + |e.calls|);
      Life(rest.f, e.calls + rest.calls)
  }

  /**
   * The whole life of a File on handle h: construction, then (if the
   * constructor did not throw) the operations, then the finalizer if the
   * object is collected. A throwing constructor registers no finalizer.
   */
  function Lifetime(h: Handle, buffering: Value, ops: seq<Op>, collected: bool): seq<IoCall> {
    var c := Construct(h, buffering);
    if c.result.Failure? then c.calls
    else
      var life := RunOps(c.f, ops, |c.calls|);
      c.calls + life.calls + (if collected then FinalizerCalls(life.f) else [])
  }

  /** How many of the calls close h. */
  function Closes(calls: seq<IoCall>, h: Handle): nat {
    if calls == [] then 0
    else (if calls[0] == Fclose(h) then 1 else 0) + Closes(calls[1..], h)
  }

  lemma {:induction false} ClosesAppend(a: seq<IoCall>, b: seq<IoCall>, h: Handle)
    ensures Closes(a + b, h) == Closes(a, h) + Closes(b, h)
    decreases |a|
  {
    if a == [] {
      assert a + b == b;
    } else {
      assert (a + b)[1..] == a[1..] + b;
      ClosesAppend(a[1..], b, h);
    }
  }

  /** Every operation but close on a closed file throws EBADF and calls nothing. */
  lemma ClosedFileRejects(op: Op, k: nat)
    ensures op != Close ==> Apply(None, op, k) == Effect(None, [], Failure(Errno(EBADF)))
    ensures op == Close ==> Apply(None, op, k) == Effect(None, [], Success(Undefined))
  {
  }

  /** After close the file is closed, and closing again does nothing. */
  lemma CloseIdempotent(f: Option<Handle>, k: nat, k': nat)
    ensures Apply(f, Close, k).f == None
    ensures Apply(Apply(f, Close, k).f, Close, k') == Effect(None, [], Success(Undefined))
  {
  }

  /** A closed file stays closed and makes no `_io` call, whatever is done to it. */
  lemma {:induction false} ClosedStaysClosed(ops: seq<Op>, k: nat)
    ensures RunOps(None, ops, k) == Life(None, [])
    decreases |ops|
  {
    if ops != [] {
      ClosedStaysClosed(ops[1..], k);
    }
  }

  /**
   * Operations on a file open on h close h once if they leave it closed and
   * not at all if they leave it open; no other handle is ever used.
   */
  lemma {:induction false} RunOpsClosesOnce(h: Handle, ops: seq<Op>, k: nat)
    ensures RunOps(Some(h), ops, k).f in {Some(h), None}
    ensures Closes(RunOps(Some(h), ops, k).calls, h) == (if RunOps(Some(h), ops, k).f == None then 1 else 0)
    decreases |ops|
  {
    if ops != [] {
      var e := Apply(Some(h), ops[0], k);
      if e.f == None {
        ClosedStaysClosed(ops[1..], k + |e.calls|);
        assert e.calls == [Fclose(h)];
      } else {
        RunOpsClosesOnce(h, ops[1..], k + |e.calls|);
        assert Closes(e.calls, h) == 0;
      }
      ClosesAppend(e.calls, RunOps(e.f, ops[1..], k + |e.calls|).calls, h);
    }
  }

  /** Over a File's whole life, finalizer included, its handle is closed at most once. */
  lemma CloseAtMostOnce(h: Handle, buffering: Value, ops: seq<Op>, collected: bool)
    ensures Closes(Lifetime(h, buffering, ops, collected), h) <= 1
  {
    var c := Construct(h, buffering);
    if c.result.Success? {
      var life := RunOps(c.f, ops, |c.calls|);
      RunOpsClosesOnce(h, ops, |c.calls|);
      assert Closes(c.calls, h) == 0;
      var fin := if collected then FinalizerCalls(life.f) else [];
      assert Closes(fin, h) == (if collected && life.f == Some(h) then 1 else 0);
      ClosesAppend(c.calls, life.calls, h);
      ClosesAppend(c.calls + life.calls, fin, h);
    }
  }

  class File {
    /** _path and _mode: set once by the constructor. */
    const path: Value
    const mode: Value
    /** _f: None once the file is closed. */
    var f: Option<Handle>
    /** Whether fileDealloc is registered as the finalizer. */
    var finalizerSet: bool

    /** The three field assignments that open the JavaScript constructor. */
    constructor Init(path: Value, h: Handle, mode: Value)
      ensures this.path == path && this.mode == mode && f == Some(h) && !finalizerSet
    {
      this.path := path;
      this.mode := mode;
      f := Some(h);
      finalizerSet := false;
    }

    /** The `closed` getter. */
    function Closed(): bool
      reads this
    {
      f == None
    }

    /** The `fd` getter: -1 exactly when closed, else what `_io.fileno` reports. */
    function Fd(): (fd: int)
      reads this
      ensures fd == -1 <==> Closed()
      ensures !Closed() ==> fd == f.value.fd
    {
      if f == None then -1 else f.value.fd
    }

    /** checkFile: the EBADF error to throw, if any. */
    function CheckFile(): Option<JsError>
      reads this
    {
      if f == None then Some(Errno(EBADF)) else None
    }

    method Read(io: Io, nread: Value) returns (r: Result<Value, JsError>)
      modifies io
      ensures var e := Apply(f, Op.Read(nread), |old(io.log)|);
        f == e.f && io.log == old(io.log) + e.calls && r == e.result
    {
      var err := CheckFile();
      if err.Some? {
        return Failure(err.value);
      }
      var size := if nread.Undefined? || nread.Num? then NormalizeSize(nread) else nread;
      var v := io.Call(Fread(f.value, size));
      r := Success(v);
    }

    method Readline(io: Io, nread: Value) returns (r: Result<Value, JsError>)
      modifies io
      ensures var e := Apply(f, Op.Readline(nread), |old(io.log)|);
        f == e.f && io.log == old(io.log) + e.calls && r == e.result
    {
      var err := CheckFile();
      if err.Some? {
        return Failure(err.value);
      }
      var size := if nread.Undefined? || nread.Num? then NormalizeSize(nread) else nread;
      var v := io.Call(Fgets(f.value, size));
      r := Success(v);
    }

    method Write(io: Io, data: Value) returns (r: Result<Value, JsError>)
      modifies io
      ensures var e := Apply(f, Op.Write(data), |old(io.log)|);
        f == e.f && io.log == old(io.log) + e.calls && r == e.result
    {
      var err := CheckFile();
      if err.Some? {
        return Failure(err.value);
      }
      var v := io.Call(Fwrite(f.value, data));
      r := Success(v);
    }

    method Flush(io: Io) returns (r: Result<Value, JsError>)
      modifies io
      ensures var e := Apply(f, Op.Flush, |old(io.log)|);
        f == e.f && io.log == old(io.log) + e.calls && r == e.result
    {
      var err := CheckFile();
      if err.Some? {
        return Failure(err.value);
      }
      var v := io.Call(Fflush(f.value));
      r := Success(Undefined);
    }

    method Close(io: Io)
      modifies this`f, io
      ensures var e := Apply(old(f), Op.Close, |old(io.log)|);
        f == e.f && io.log == old(io.log) + e.calls
    ensures Closed() && Fd() == -1
    {
      if f != None {
        var v := io.Call(Fclose(f.value));
        f := None;
      }
    }

    /** fileDealloc(this): close the stream if still open; `_f` is left as it is. */
    method Dealloc(io: Io)
      modifies io
      ensures io.log == old(io.log) + FinalizerCalls(f)
    {
      if f != None {
        var v := io.Call(Fclose(f.value));
      }
    }
  }

  /**
   * `new File(path, f, mode, buffering)`: on a bad `buffering` the file is
   * closed and a RangeError thrown, before the finalizer is registered.
   */
  method NewFile(io: Io, path: Value, h: Handle, mode: Value, buffering: Value)
    returns (r: Result<File, JsError>)
    modifies io
    ensures var c := Construct(h, buffering);
      && io.log == old(io.log) + c.calls
      && (c.result.Failure? <==> r.Failure?)
      && (r.Failure? ==> r.error == c.result.error)
      && (r.Success? ==> fresh(r.value) && r.value.f == c.f && r.value.finalizerSet
                         && r.value.path == path && r.value.mode == mode)
      && (r.Success? ==> !r.value.Closed() && r.value.Fd() == h.fd)
      && (r.Failure? ==> io.log == old(io.log) + [Fclose(h)])
  {
    var file := new File.Init(path, h, mode);
    if buffering != Undefined {
      if buffering == Num(-1) {
        // default, nothing to do
      } else if buffering == Num(0) || buffering == Num(1) {
        var v := io.Call(Setvbuf(h, buffering.n));
      } else {
        file.Close(io);
        return Failure(RangeError(buffering));
      }
    }
    file.finalizerSet := true;
    r := Success(file);
  }

  /** open(path, mode, buffering) */
  method Open(io: Io, path: Value, mode: Value, buffering: Value) returns (r: Result<File, JsError>)
    modifies io
    ensures var k := |old(io.log)|;
      var c := Construct(Handle(k, io.fdOf(k)), buffering);
      && io.log == old(io.log) + [IoCall.Fopen(path, mode)] + c.calls
      && (r.Failure? <==> c.result.Failure?)
      && (r.Success? ==> fresh(r.value) && r.value.f == c.f && r.value.path == path && r.value.mode == mode)
  {
    var h := io.Fopen(path, mode);
    r := NewFile(io, path, h, mode, buffering);
  }

  /** fdopen(fd, mode, path, buffering) */
  method FdOpen(io: Io, fd: nat, mode: Value, path: Value, buffering: Value) returns (r: Result<File, JsError>)
    modifies io
    ensures var k := |old(io.log)|;
      var c := Construct(Handle(k, fd), buffering);
      && io.log == old(io.log) + [IoCall.Fdopen(fd, mode)] + c.calls
      && (r.Failure? <==> c.result.Failure?)
      && (r.Success? ==> fresh(r.value) && r.value.f == c.f && r.value.path == path && r.value.mode == mode
                         && r.value.Fd() == fd)
  {
    var h := io.Fdopen(fd, mode);
    r := NewFile(io, path, h, mode, buffering);
  }
}
