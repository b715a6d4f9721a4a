/**
 * `quill_os_read_pipe`: drain whatever a pipe currently holds, without
 * waiting. The OS calls are inputs (what the availability query and the read
 * report); the calls the drain makes are returned as a trace; a panic is an
 * outcome that carries the panic message and no string.
 */
module Process {
  import opened Utf8Points
  import opened Runtime
  import opened QuillOs

  const PipeReadFailure: string := "Failed to read from pipe\n"

  /** What a drain ends in: a string handed back to the caller, or `quill_panic`. */
  datatype Drain = Returned(s: QuillString) | Panicked(message: string)

  /** What `PeekNamedPipe` reports: the buffered byte count, or failure and `GetLastError()`. */
  datatype PeekReply = Peeked(available: nat) | PeekFailed(lastError: nat)

  /** What `ioctl(pipe, FIONREAD, ...)` reports: the buffered byte count, or -1. */
  datatype IoctlReply = Queued(available: nat) | IoctlFailed

  /**
   * What the single read (`ReadFile` or `read`) does: the bytes the pipe hands
   * over (at most the buffer size of them are transferred), or failure.
   */
  datatype ReadReply = Delivered(bytes: seq<byte>) | ReadFailed

  /**
   * The byte count the Windows drain goes on with, or None when it panics: a
   * failed query is tolerated only for a broken pipe, and then counts as empty.
   */
  function WinAvailable(peek: PeekReply): (r: Option<nat>)
    ensures r.None? <==> peek.PeekFailed? && peek.lastError != ERROR_BROKEN_PIPE
    ensures r == Some(0) <==> peek == Peeked(0) || peek == PeekFailed(ERROR_BROKEN_PIPE)
    ensures peek.Peeked? ==> r == Some(peek.available)
  {
    match peek
    case Peeked(n) => Some(n)
    case PeekFailed(err) => if err != ERROR_BROKEN_PIPE then None else Some(0)
  }

  /** The byte count the POSIX drain goes on with, or None: every ioctl failure panics. */
  function PosixAvailable(q: IoctlReply): (r: Option<nat>)
    ensures r.None? <==> q.IoctlFailed?
    ensures q.Queued? ==> r == Some(q.available)
  {
    match q
    case Queued(n) => Some(n)
    case IoctlFailed => None
  }

  /**
   * The drain once the available count is known. Zero: the static empty string
   * and no further call. Otherwise one block of exactly `available` bytes and
   * one read into it; a failed read releases the block and panics; a good read
   * yields the bytes actually transferred, at most `available` of them, with
   * their code points counted.
   */
  ghost predicate Drains(available: nat, reply: ReadReply, dl: byte -> nat, outcome: Drain, calls: seq<OsCall>)
    requires StepsForward(dl)
  {
    if available == 0 then
      outcome == Returned(EmptyString) && calls == []
    else
      match reply
      case ReadFailed =>
        outcome == Panicked(PipeReadFailure)
        && calls == [Malloc(available), ReadInto(available), RcDec(available)]
      case Delivered(bytes) =>
        var got := bytes[..Min(available, |bytes|)];
        outcome == Returned(QuillString(got, CountPoints(got, dl), Heap(available)))
        && calls == [Malloc(available), ReadInto(available)]
  }

  /**
   * What every drain guarantees: at most one read, made only when bytes are
   * available and with a buffer of exactly that size; the result is never longer
   * than advertised and its point count is recomputed from its own bytes; and
   * the allocated block is owned by the result or released before the panic.
   */
  lemma DrainGuarantees(available: nat, reply: ReadReply, dl: byte -> nat, outcome: Drain, calls: seq<OsCall>)
    requires StepsForward(dl)
    requires Drains(available, reply, dl, outcome, calls)
    ensures CountReads(calls) == if available == 0 then 0 else 1
    ensures forall i :: 0 <= i < |calls| && calls[i].ReadInto? ==> calls[i].size == available
    ensures outcome.Returned? ==>
      |outcome.s.data| <= available
      && outcome.s.lengthPoints == CountPoints(outcome.s.data, dl)
      && outcome.s.lengthPoints <= |outcome.s.data|
    ensures outcome.Panicked? ==> |calls| > 0 && calls[|calls| - 1] == RcDec(available)
    ensures Outstanding(calls) == if outcome.Returned? then Owned(outcome.s) else 0
  {
    if available > 0 {
      var m, r := Malloc(available), ReadInto(available);
      CountsSnoc([], m);
      assert [] + [m] == [m];
      CountsSnoc([m], r);
      assert [m] + [r] == [m, r];
      CountsSnoc([m, r], RcDec(available));
      assert [m, r] + [RcDec(available)] == [m, r, RcDec(available)];
    }
  }

  /**
   * The common tail of both variants: allocate, read once, shrink the length
   * to what was read, and count the points.
   */
  method DrainAvailable(available: nat, reply: ReadReply, dl: byte -> nat)
    returns (outcome: Drain, calls: seq<OsCall>)
    requires StepsForward(dl)
    ensures Drains(available, reply, dl, outcome, calls)
  {
    if available == 0 {
      return Returned(EmptyString), [];
    }
    var lengthBytes := available;
    var buf := new byte[lengthBytes];
    calls := [Malloc(lengthBytes), ReadInto(lengthBytes)];
    match reply {
      case ReadFailed =>
        calls := calls + [RcDec(lengthBytes)];
        outcome := Panicked(PipeReadFailure);
      case Delivered(bytes) =>
        var bytesRead := Min(buf.Length, |bytes|);
        forall i | 0 <= i < bytesRead {
          buf[i] := bytes[i];
        }
        if bytesRead < lengthBytes {
          lengthBytes := bytesRead;
        }
        var points := CountPointsIn(buf, lengthBytes, dl);
        assert buf[..lengthBytes] == bytes[..Min(available, |bytes|)];
        outcome := Returned(QuillString(buf[..lengthBytes], points, Heap(available)));
    }
  }

  /** `quill_os_read_pipe`, Windows variant. */
  method ReadPipeWindows(peek: PeekReply, reply: ReadReply, dl: byte -> nat)
    returns (outcome: Drain, calls: seq<OsCall>)
    requires StepsForward(dl)
    ensures |calls| >= 1 && calls[0] == QueryAvailable
    ensures WinAvailable(peek).None? ==> outcome == Panicked(PipeReadFailure) && calls == [QueryAvailable]
    ensures WinAvailable(peek).Some? ==> Drains(WinAvailable(peek).value, reply, dl, outcome, calls[1..])
  {
    calls := [QueryAvailable];
    var bytesAvailable: nat;
    match peek {
      case Peeked(n) =>
        bytesAvailable := n;
      case PeekFailed(err) =>
        if err != ERROR_BROKEN_PIPE {
          return Panicked(PipeReadFailure), calls;
        }
        // broken pipe: the writer is gone and nothing is left to read
        bytesAvailable := 0;
    }
    var rest;
    outcome, rest := DrainAvailable(bytesAvailable, reply, dl);
    calls := calls + rest;
  }

  /** `quill_os_read_pipe`, POSIX variant. */
  method ReadPipePosix(q: IoctlReply, reply: ReadReply, dl: byte -> nat)
    returns (outcome: Drain, calls: seq<OsCall>)
    requires StepsForward(dl)
    ensures |calls| >= 1 && calls[0] == QueryAvailable
    ensures PosixAvailable(q).None? ==> outcome == Panicked(PipeReadFailure) && calls == [QueryAvailable]
    ensures PosixAvailable(q).Some? ==> Drains(PosixAvailable(q).value, reply, dl, outcome, calls[1..])
  {
    calls := [QueryAvailable];
    if q.IoctlFailed? {
      return Panicked(PipeReadFailure), calls;
    }
    var rest;
    outcome, rest := DrainAvailable(q.available, reply, dl);
    calls := calls + rest;
  }

  /** The eleven bytes of "hello world". */
  const HelloWorld: seq<byte> := [0x68, 0x65, 0x6C, 0x6C, 0x6F, 0x20, 0x77, 0x6F, 0x72, 0x6C, 0x64]

  /**
   * A child writes "hello world" and exits. On Windows, a drain before the exit
   * gets 11 bytes and 11 points; after it the query fails with a broken pipe
   * and the drain returns the empty string, not a panic.
   */
  method HelloWorldWindows() returns (before: Drain, after: Drain)
    ensures before == Returned(QuillString(HelloWorld, 11, Heap(11)))
    ensures after == Returned(EmptyString)
  {
    Rfc3629StepsForward();
    AsciiCount(HelloWorld);
    var calls;
    before, calls := ReadPipeWindows(Peeked(11), Delivered(HelloWorld), Rfc3629Length);
    assert WinAvailable(Peeked(11)) == Some(11);
    assert HelloWorld[..Min(11, |HelloWorld|)] == HelloWorld;
    after, calls := ReadPipeWindows(PeekFailed(ERROR_BROKEN_PIPE), ReadFailed, Rfc3629Length);
  }

  /**
   * The same on POSIX: after the exit FIONREAD reports 0 bytes, so the drain
   * returns the empty string; a failing ioctl would panic instead.
   */
  method HelloWorldPosix() returns (before: Drain, after: Drain, failed: Drain)
    ensures before == Returned(QuillString(HelloWorld, 11, Heap(11)))
    ensures after == Returned(EmptyString)
    ensures failed == Panicked(PipeReadFailure)
  {
    Rfc3629StepsForward();
    AsciiCount(HelloWorld);
    var calls;
    before, calls := ReadPipePosix(Queued(11), Delivered(HelloWorld), Rfc3629Length);
    assert HelloWorld[..Min(11, |HelloWorld|)] == HelloWorld;
    after, calls := ReadPipePosix(Queued(0), ReadFailed, Rfc3629Length);
    failed, calls := ReadPipePosix(IoctlFailed, Delivered(HelloWorld), Rfc3629Length);
  }
}
