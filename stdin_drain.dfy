/**
 * `handle_stdin` in src/cli/main.c: drain standard input into one growable
 * buffer until a read returns nothing, then hand the bytes to the evaluator.
 *
 * The buffer starts at 64 KiB and grows by another 64 KiB whenever fewer
 * than 1 KiB are free before a read. Standard input is a Stream whose reads
 * behave like `fread` on a blocking stream: a read of up to `avail` bytes
 * returns `avail` bytes, or all that is left when fewer remain, and nothing
 * at end of input. `malloc`/`realloc` of n bytes fail exactly when n exceeds
 * `maxAlloc`, an abstract bound on what the allocator will grant.
 */
module StdinDrain {
  import opened Common
  import opened Evaluator

  /** SJS_CLI_STDIN_BUF_SIZE: the initial size and the growth increment. */
  const BUF_SIZE: nat := 65536
  /** The free space below which the buffer grows before the next read. */
  const LOW_WATER: nat := 1024

  /**
   * Standard input: the bytes not yet read, and the size of every read
   * requested so far, oldest first.
   */
  class Stream {
    var pending: seq<byte>
    ghost var requests: seq<nat>

    constructor (input: seq<byte>)
      ensures pending == input && requests == []
    {
      pending := input;
      requests := [];
    }

    /** fread(buf + off, 1, avail, stdin) */
    method Read(buf: array<byte>, off: nat, avail: nat) returns (got: nat)
      requires off + avail <= buf.Length
      modifies this, buf
      ensures got == Min(avail, |old(pending)|)
      ensures pending == old(pending)[got..]
      ensures requests == old(requests) + [avail]
      ensures buf[..off] == old(buf[..off])
      ensures buf[off..off + got] == old(pending)[..got]
    {
      got := Min(avail, |pending|);
      forall j | off <= j < off + got {
        buf[j] := pending[j - off];
      }
      pending := pending[got..];
      requests := requests + [avail];
    }
  }

  /**
   * The capacity the buffer ends with after draining n bytes: the least
   * multiple of the increment that leaves at least LOW_WATER bytes free.
   */
  function Capacity(n: nat): (c: nat)
    ensures c % BUF_SIZE == 0 && c >= BUF_SIZE
    ensures c >= n + LOW_WATER
    ensures c - BUF_SIZE < n + LOW_WATER
  {
    (n + LOW_WATER + BUF_SIZE - 1) / BUF_SIZE * BUF_SIZE
  }

  /** Of two multiples of the increment, the smaller is at least one increment below. */
  lemma MultiplesApart(a: nat, c: nat)
    requires a % BUF_SIZE == 0 && c % BUF_SIZE == 0 && a < c
    ensures a + BUF_SIZE <= c
  {
    var p, q := a / BUF_SIZE, c / BUF_SIZE;
    assert a == p * 65536 && c == q * 65536;
  }

  /** No smaller multiple of the increment leaves LOW_WATER bytes free. */
  lemma CapacityIsLeast(n: nat, m: nat)
    requires m % BUF_SIZE == 0 && m >= n + LOW_WATER
    ensures Capacity(n) <= m
  {
    if m < Capacity(n) {
      MultiplesApart(m, Capacity(n));
    }
  }

  /** A multiple of the increment with both properties of Capacity(n) is Capacity(n). */
  lemma CapacityUnique(n: nat, c: nat)
    requires c % BUF_SIZE == 0 && c >= BUF_SIZE && c >= n + LOW_WATER
    requires c == BUF_SIZE || c - BUF_SIZE < n + LOW_WATER
    ensures c == Capacity(n)
  {
    CapacityIsLeast(n, c);
    if Capacity(n) < c {
      MultiplesApart(Capacity(n), c);
    }
  }

  /** The largest multiple of the increment that the allocator grants. */
  function Allocatable(maxAlloc: nat): (a: nat)
    ensures a % BUF_SIZE == 0 && a <= maxAlloc < a + BUF_SIZE
  {
    maxAlloc / BUF_SIZE * BUF_SIZE
  }

  lemma AllocatableUnique(maxAlloc: nat, a: nat)
    requires a % BUF_SIZE == 0 && a <= maxAlloc < a + BUF_SIZE
    ensures a == Allocatable(maxAlloc)
  {
    if a < Allocatable(maxAlloc) {
      MultiplesApart(a, Allocatable(maxAlloc));
    } else if Allocatable(maxAlloc) < a {
      MultiplesApart(Allocatable(maxAlloc), a);
    }
  }

  /** The drain succeeds exactly when the final capacity can be allocated. */
  predicate Fits(n: nat, maxAlloc: nat) {
    Capacity(n) <= maxAlloc
  }

  /**
   * How many of n input bytes the drain takes from the stream: all of them
   * when it fits; otherwise those read before the allocation that failed.
   */
  function Consumed(n: nat, maxAlloc: nat): (k: nat)
    ensures k <= n
    ensures Fits(n, maxAlloc) ==> k == n
    ensures !Fits(n, maxAlloc) ==> k <= Allocatable(maxAlloc)
  {
    if Fits(n, maxAlloc) then n else Min(n, Allocatable(maxAlloc))
  }

  /** The growing buffer only ever asks for more: a longer input never needs less room. */
  lemma {:induction false} CapacityMonotone(n1: nat, n2: nat)
    requires n1 <= n2
    ensures Capacity(n1) <= Capacity(n2)
  {
    CapacityIsLeast(n1, Capacity(n2));
  }

  /**
   * A growth that the allocator refuses ends the drain with the input not
   * fitting, after exactly the bytes already in the buffer.
   */
  lemma GrowthRefused(n: nat, maxAlloc: nat, steps: nat, bufoff: nat)
    requires bufoff <= steps * BUF_SIZE <= maxAlloc
    requires steps * BUF_SIZE - bufoff < LOW_WATER && steps * BUF_SIZE + BUF_SIZE > maxAlloc
    requires bufoff <= n && (bufoff == steps * BUF_SIZE || bufoff == n)
    ensures !Fits(n, maxAlloc) && Consumed(n, maxAlloc) == bufoff
  {
    var bufsz := steps * BUF_SIZE;
    assert bufsz % BUF_SIZE == 0;
    AllocatableUnique(maxAlloc, bufsz);
    MultiplesApart(bufsz, Capacity(n));
  }

  /** A drain that reaches end of input with room to spare has the final capacity. */
  lemma DrainFits(n: nat, maxAlloc: nat, steps: nat)
    requires steps >= 1 && n + LOW_WATER <= steps * BUF_SIZE <= maxAlloc
    requires steps == 1 || steps * BUF_SIZE - BUF_SIZE < n + LOW_WATER
    ensures Fits(n, maxAlloc) && Capacity(n) == steps * BUF_SIZE
  {
    var bufsz := steps * BUF_SIZE;
    assert bufsz % BUF_SIZE == 0;
    CapacityUnique(n, bufsz);
  }

  /** realloc(buf, size): a fresh array holding the old contents in its prefix. */
  method Grow(buf: array<byte>, size: nat) returns (nb: array<byte>)
    requires buf.Length <= size
    ensures fresh(nb) && nb.Length == size
    ensures nb[..buf.Length] == buf[..]
  {
    nb := new byte[size];
    forall j | 0 <= j < buf.Length {
      nb[j] := buf[j];
    }
  }

  /**
   * The check at the head of each pass of the read loop: when fewer than
   * LOW_WATER bytes are free, realloc to one more increment. Not granted
   * means the realloc failed; otherwise nb has room for the next read.
   */
  method EnsureRoom(buf: array<byte>, bufoff: nat, maxAlloc: nat)
    returns (granted: bool, nb: array<byte>, ghost grown: bool)
    requires bufoff <= buf.Length <= maxAlloc
    ensures granted <==> (buf.Length - bufoff >= LOW_WATER || buf.Length + BUF_SIZE <= maxAlloc)
    ensures grown <==> granted && buf.Length - bufoff < LOW_WATER
    ensures granted ==> nb.Length - bufoff >= LOW_WATER && nb[..bufoff] == buf[..bufoff]
    ensures granted && !grown ==> nb == buf
    ensures grown ==> fresh(nb) && nb.Length == buf.Length + BUF_SIZE
  {
    nb, granted, grown := buf, true, false;
    if buf.Length - bufoff < LOW_WATER {
      if buf.Length + BUF_SIZE > maxAlloc {
        granted := false;
        return;
      }
      nb := Grow(buf, buf.Length + BUF_SIZE);
      grown := true;
      assert nb[..buf.Length][..bufoff] == nb[..bufoff];
    }
  }

  /**
   * One read into the free tail of the buffer, seen against the whole input:
   * after it the buffer holds the next got bytes of input as well.
   */
  method ReadMore(stdin: Stream, buf: array<byte>, len: nat, ghost input: seq<byte>)
    returns (got: nat)
    requires len <= buf.Length && len <= |input|
    requires buf[..len] == input[..len] && stdin.pending == input[len..]
    modifies stdin, buf
    ensures got == Min(buf.Length - len, |input| - len)
    ensures buf[..len + got] == input[..len + got] && stdin.pending == input[len + got..]
    ensures stdin.requests == old(stdin.requests) + [buf.Length - len]
  {
    got := stdin.Read(buf, len, buf.Length - len);
    assert buf[..len + got] == input[..len + got] by {
      assert buf[..len + got] == buf[..len] + buf[len..len + got];
      assert input[..len + got] == input[..len] + input[len..][..got];
    }
  }

  /**
   * The read loop of handle_stdin, from the first malloc'd buffer until a
   * read returns nothing or a realloc fails. When the input fits, `filled`
   * holds and the first len bytes of the final buffer are the whole input;
   * otherwise the bytes read before the failed realloc are gone from the
   * stream. Every read it requests asks for at least LOW_WATER bytes.
   */
  method Fill(stdin: Stream, first: array<byte>, maxAlloc: nat)
    returns (filled: bool, buf: array<byte>, len: nat)
    requires first.Length == BUF_SIZE <= maxAlloc
    modifies stdin, first
    ensures |stdin.requests| >= |old(stdin.requests)|
    ensures stdin.requests[..|old(stdin.requests)|] == old(stdin.requests)
    ensures forall i :: |old(stdin.requests)| <= i < |stdin.requests| ==> stdin.requests[i] >= LOW_WATER
    ensures var input := old(stdin.pending);
      if Fits(|input|, maxAlloc) then
        && filled && stdin.pending == []
        && buf.Length == Capacity(|input|) && len <= buf.Length
        && buf[..len] == input
      else
        && !filled
        && stdin.pending == input[Consumed(|input|, maxAlloc)..]
  {
    ghost var input, requested := stdin.pending, stdin.requests;
    buf := first;
    len := 0;
    ghost var steps: nat := 1;
    while true
      invariant buf == first || fresh(buf)
      invariant len <= buf.Length <= maxAlloc
      invariant steps >= 1 && buf.Length == steps * BUF_SIZE
      invariant steps == 1 || buf.Length - BUF_SIZE < len + LOW_WATER
      invariant len <= |input| && buf[..len] == input[..len] && stdin.pending == input[len..]
      invariant len == buf.Length || len == |input| || (len == 0 && buf.Length == BUF_SIZE)
      invariant |stdin.requests| >= |requested| && stdin.requests[..|requested|] == requested
      invariant forall i :: |requested| <= i < |stdin.requests| ==> stdin.requests[i] >= LOW_WATER
      decreases |stdin.pending|
    {
      var granted, nb, grown := EnsureRoom(buf, len, maxAlloc);
      if !granted {
        GrowthRefused(|input|, maxAlloc, steps, len);
        filled := false;
        return;
      }
      if grown {
        steps := steps + 1;
      }
      buf := nb;
      var got := ReadMore(stdin, buf, len, input);
      if got == 0 {
        break;
      }
      len := len + got;
    }
    DrainFits(|input|, maxAlloc, steps);
    filled := true;
  }

  /**
   * handle_stdin: r is 0 on success and -1 on failure (allocation or
   * evaluation). On success every byte of the stream was captured and
   * handed over, in order, exactly once. Every read it requests asks for
   * at least LOW_WATER bytes.
   */
  method HandleStdin(vm: Vm, stdin: Stream, maxAlloc: nat) returns (r: int)
    modifies vm, stdin
    ensures r == 0 || r == -1
    ensures |stdin.requests| >= |old(stdin.requests)|
    ensures stdin.requests[..|old(stdin.requests)|] == old(stdin.requests)
    ensures forall i :: |old(stdin.requests)| <= i < |stdin.requests| ==> stdin.requests[i] >= LOW_WATER
    ensures var input := old(stdin.pending);
      if Fits(|input|, maxAlloc) then
        && stdin.pending == []
        && vm.calls == old(vm.calls) + [StdinCode(input)]
        && (r == 0 <==> vm.verdict(|old(vm.calls)|))
      else
        && r == -1
        && vm.calls == old(vm.calls)
        && stdin.pending == input[Consumed(|input|, maxAlloc)..]
  {
    if BUF_SIZE > maxAlloc {
      // malloc failed: nothing was read
      r := -1;
      return;
    }
    var first := new byte[BUF_SIZE];
    var filled, buf, len;
    filled, buf, len := Fill(stdin, first, maxAlloc);
    if !filled {
      r := -1;
      return;
    }
    var ok := vm.Eval(StdinCode(buf[..len]));
    r := if ok then 0 else -1;
  }
}
