/**
 * The helpers of the OS layer's header: translation of Windows error codes to
 * POSIX errno kinds, the copy of a string into a NUL-terminated buffer, and the
 * tail of the conversion from a wide string to a runtime string.
 */
module QuillOs {
  import opened Utf8Points
  import opened Runtime

  // Windows system error codes (winerror.h) named in the translation switch.
  const ERROR_FILE_NOT_FOUND: nat := 2
  const ERROR_PATH_NOT_FOUND: nat := 3
  const ERROR_TOO_MANY_OPEN_FILES: nat := 4
  const ERROR_ACCESS_DENIED: nat := 5
  const ERROR_INVALID_HANDLE: nat := 6
  const ERROR_NOT_ENOUGH_MEMORY: nat := 8
  const ERROR_OUTOFMEMORY: nat := 14
  const ERROR_INVALID_DRIVE: nat := 15
  const ERROR_CURRENT_DIRECTORY: nat := 16
  const ERROR_WRITE_PROTECT: nat := 19
  const ERROR_GEN_FAILURE: nat := 31
  const ERROR_SHARING_VIOLATION: nat := 32
  const ERROR_LOCK_VIOLATION: nat := 33
  const ERROR_NOT_SUPPORTED: nat := 50
  const ERROR_BAD_NETPATH: nat := 53
  const ERROR_FILE_EXISTS: nat := 80
  const ERROR_INVALID_PARAMETER: nat := 87
  const ERROR_BROKEN_PIPE: nat := 109
  const ERROR_DISK_FULL: nat := 112
  const ERROR_CALL_NOT_IMPLEMENTED: nat := 120
  const ERROR_INVALID_NAME: nat := 123
  const ERROR_DIR_NOT_EMPTY: nat := 145
  const ERROR_ALREADY_EXISTS: nat := 183
  const ERROR_FILENAME_EXCED_RANGE: nat := 206
  const ERROR_DIRECTORY: nat := 267
  const ERROR_IO_DEVICE: nat := 1117

  /** The errno values the translation can produce (<errno.h>, IEEE Std 1003.1). */
  datatype Errno =
    | ENOENT | EACCES | EEXIST | EINVAL | ENOMEM | EIO | ENOSPC
    | EROFS | ENOSYS | ENOTSUP | ENOTEMPTY | EMFILE | ENAMETOOLONG | EPIPE

  /** The translation as a table: the Windows codes listed for each errno kind. */
  function Listed(k: Errno): set<nat> {
    match k
    case ENOENT =>
      {ERROR_FILE_NOT_FOUND, ERROR_PATH_NOT_FOUND, ERROR_INVALID_DRIVE,
       ERROR_BAD_NETPATH, ERROR_INVALID_NAME, ERROR_DIRECTORY}
    case EACCES =>
      {ERROR_ACCESS_DENIED, ERROR_SHARING_VIOLATION, ERROR_LOCK_VIOLATION, ERROR_CURRENT_DIRECTORY}
    case EEXIST => {ERROR_FILE_EXISTS, ERROR_ALREADY_EXISTS}
    case EINVAL => {ERROR_INVALID_HANDLE, ERROR_INVALID_PARAMETER}
    case ENOMEM => {ERROR_NOT_ENOUGH_MEMORY, ERROR_OUTOFMEMORY}
    case EIO => {ERROR_GEN_FAILURE, ERROR_IO_DEVICE}
    case ENOSPC => {ERROR_DISK_FULL}
    case EROFS => {ERROR_WRITE_PROTECT}
    case ENOSYS => {ERROR_CALL_NOT_IMPLEMENTED}
    case ENOTSUP => {ERROR_NOT_SUPPORTED}
    case ENOTEMPTY => {ERROR_DIR_NOT_EMPTY}
    case EMFILE => {ERROR_TOO_MANY_OPEN_FILES}
    case ENAMETOOLONG => {ERROR_FILENAME_EXCED_RANGE}
    case EPIPE => {ERROR_BROKEN_PIPE}
  }

  /** Every Windows code that the translation lists explicitly. */
  function AllListed(): set<nat> {
    Listed(ENOENT) + Listed(EACCES) + Listed(EEXIST) + Listed(EINVAL) + Listed(ENOMEM)
    + Listed(EIO) + Listed(ENOSPC) + Listed(EROFS) + Listed(ENOSYS) + Listed(ENOTSUP)
    + Listed(ENOTEMPTY) + Listed(EMFILE) + Listed(ENAMETOOLONG) + Listed(EPIPE)
  }

  /**
   * `quill_os_win_to_errno`: total and many-to-one. A listed code maps to the
   * kind whose table row lists it (so the rows are disjoint); any other code
   * maps to EINVAL.
   */
  function WinToErrno(err: nat): (r: Errno)
    ensures forall k: Errno :: err in Listed(k) ==> r == k
    ensures err in Listed(r) || (r == EINVAL && err !in AllListed())
  {
    if err == ERROR_FILE_NOT_FOUND || err == ERROR_PATH_NOT_FOUND || err == ERROR_INVALID_DRIVE
      || err == ERROR_BAD_NETPATH || err == ERROR_INVALID_NAME || err == ERROR_DIRECTORY then ENOENT
    else if err == ERROR_ACCESS_DENIED || err == ERROR_SHARING_VIOLATION
      || err == ERROR_LOCK_VIOLATION || err == ERROR_CURRENT_DIRECTORY then EACCES
    else if err == ERROR_FILE_EXISTS || err == ERROR_ALREADY_EXISTS then EEXIST
    else if err == ERROR_INVALID_HANDLE || err == ERROR_INVALID_PARAMETER then EINVAL
    else if err == ERROR_NOT_ENOUGH_MEMORY || err == ERROR_OUTOFMEMORY then ENOMEM
    else if err == ERROR_GEN_FAILURE || err == ERROR_IO_DEVICE then EIO
    else if err == ERROR_DISK_FULL then ENOSPC
    else if err == ERROR_WRITE_PROTECT then EROFS
    else if err == ERROR_CALL_NOT_IMPLEMENTED then ENOSYS
    else if err == ERROR_NOT_SUPPORTED then ENOTSUP
    else if err == ERROR_DIR_NOT_EMPTY then ENOTEMPTY
    else if err == ERROR_TOO_MANY_OPEN_FILES then EMFILE
    else if err == ERROR_FILENAME_EXCED_RANGE then ENAMETOOLONG
    else if err == ERROR_BROKEN_PIPE then EPIPE
    else EINVAL
  }

  /**
   * The six not-found codes are exactly the codes that become ENOENT, and the
   * broken-pipe code is the only one that becomes EPIPE.
   */
  lemma NotFoundAndBrokenPipe(err: nat)
    ensures WinToErrno(err) == ENOENT <==>
      err in {ERROR_FILE_NOT_FOUND, ERROR_PATH_NOT_FOUND, ERROR_INVALID_DRIVE,
              ERROR_BAD_NETPATH, ERROR_INVALID_NAME, ERROR_DIRECTORY}
    ensures WinToErrno(err) == EPIPE <==> err == ERROR_BROKEN_PIPE
  {
  }

  /** A code outside the table, and the two listed invalid-argument codes, become EINVAL. */
  lemma InvalidIsDefault(err: nat)
    ensures WinToErrno(err) == EINVAL <==>
      err == ERROR_INVALID_HANDLE || err == ERROR_INVALID_PARAMETER || err !in AllListed()
  {
  }

  /** What a C reader sees in a NUL-terminated buffer: the bytes before the first NUL. */
  function CString(a: seq<byte>): (r: seq<byte>)
    ensures |r| <= |a|
  {
    if a == [] || a[0] == 0 then [] else [a[0]] + CString(a[1..])
  }

  /**
   * `QUILL_OS_STRING_AS_NT`: a buffer one byte longer than the string, holding
   * the string's bytes followed by the terminator.
   */
  method AsNulTerminated(s: QuillString) returns (r: array<byte>)
    ensures r.Length == s.LengthBytes() + 1
    ensures r[..s.LengthBytes()] == s.data
    ensures r[s.LengthBytes()] == 0
  {
    var n := s.LengthBytes();
    r := new byte[n + 1];
    forall i | 0 <= i < n {
      r[i] := s.data[i];
    }
    r[n] := 0;
  }

  /**
   * Reading the terminated copy back as a C string gives the original bytes
   * exactly when they contain no NUL; an embedded NUL cuts the C view short.
   */
  lemma {:induction false} CStringOfTerminated(data: seq<byte>)
    ensures CString(data + [0]) == data <==> 0 !in data
    ensures 0 in data ==> |CString(data + [0])| < |data|
  {
    if data != [] {
      assert (data + [0])[1..] == data[1..] + [0];
      CStringOfTerminated(data[1..]);
      assert 0 in data <==> data[0] == 0 || 0 in data[1..];
    }
  }

  /** What the second `WideCharToMultiByte` call does: writes bytes, or fails. */
  datatype ConvertReply = Converted(bytes: seq<byte>) | ConvertFailed

  /** The macro either builds the string or returns the caller's error value `e`. */
  datatype WideResult = Built(s: QuillString) | ReturnedError

  /**
   * A string built from `needed` bytes of conversion output: its length is the
   * size the first conversion call asked for, the bytes the conversion wrote
   * are its prefix, it owns a heap block of that size, and its point count is
   * the count over all `needed` bytes.
   */
  ghost predicate BuiltFrom(needed: nat, bytes: seq<byte>, dl: byte -> nat, s: QuillString)
    requires StepsForward(dl)
  {
    var written := Min(needed, |bytes|);
    |s.data| == needed && s.alloc == Heap(needed)
    && s.data[..written] == bytes[..written]
    && s.lengthPoints == CountPoints(s.data, dl)
  }

  /** Allocate `needed` bytes, let the conversion write into them, and count the points. */
  method FillAndCount(needed: nat, bytes: seq<byte>, dl: byte -> nat) returns (s: QuillString)
    requires StepsForward(dl)
    ensures BuiltFrom(needed, bytes, dl, s)
  {
    var buf := new byte[needed];
    var written := Min(needed, |bytes|);
    forall i | 0 <= i < written {
      buf[i] := bytes[i];
    }
    var points := CountPointsIn(buf, needed, dl);
    assert buf[..] == buf[..needed];
    s := QuillString(buf[..], points, Heap(needed));
    assert s.data[..written] == bytes[..written];
  }

  /**
   * The tail of `QUILL_OS_STRING_FROM_WIDE` as written: `needed` is what the
   * size query returned (0 on failure). When the conversion itself fails the
   * macro returns without releasing the block it allocated.
   */
  method StringFromWideAsWritten(needed: nat, reply: ConvertReply, dl: byte -> nat)
    returns (result: WideResult, calls: seq<OsCall>)
    requires StepsForward(dl)
    ensures needed == 0 ==> result == ReturnedError && calls == [SizeQuery]
    ensures needed > 0 ==> calls == [SizeQuery, Malloc(needed), ConvertInto(needed)]
    ensures needed > 0 && reply.ConvertFailed? ==> result == ReturnedError
    ensures needed > 0 && reply.Converted? ==>
      result.Built? && BuiltFrom(needed, reply.bytes, dl, result.s)
    ensures needed > 0 && reply.ConvertFailed? ==> Outstanding(calls) == 1
  {
    CountsSnoc([], SizeQuery);
    calls := [SizeQuery];
    if needed == 0 {
      return ReturnedError, calls;
    }
    CountsSnoc(calls, Malloc(needed));
    calls := calls + [Malloc(needed)];
    CountsSnoc(calls, ConvertInto(needed));
    calls := calls + [ConvertInto(needed)];
    match reply {
      case ConvertFailed =>
        result := ReturnedError;
      case Converted(bytes) =>
        var s := FillAndCount(needed, bytes, dl);
        result := Built(s);
    }
  }

  /**
   * The tail of `QUILL_OS_STRING_FROM_WIDE` with the block released on the
   * conversion-failure path, as `quill_os_read_pipe` does before it panics:
   * every block allocated is either owned by the built string or released.
   */
  method StringFromWide(needed: nat, reply: ConvertReply, dl: byte -> nat)
    returns (result: WideResult, calls: seq<OsCall>)
    requires StepsForward(dl)
    ensures needed == 0 ==> result == ReturnedError && calls == [SizeQuery]
    ensures needed > 0 && reply.ConvertFailed? ==>
      result == ReturnedError && calls == [SizeQuery, Malloc(needed), ConvertInto(needed), RcDec(needed)]
    ensures needed > 0 && reply.Converted? ==>
      calls == [SizeQuery, Malloc(needed), ConvertInto(needed)]
      && result.Built? && BuiltFrom(needed, reply.bytes, dl, result.s)
    ensures Outstanding(calls) == if result.Built? then Owned(result.s) else 0
  {
    CountsSnoc([], SizeQuery);
    calls := [SizeQuery];
    if needed == 0 {
      return ReturnedError, calls;
    }
    CountsSnoc(calls, Malloc(needed));
    calls := calls + [Malloc(needed)];
    CountsSnoc(calls, ConvertInto(needed));
    calls := calls + [ConvertInto(needed)];
    match reply {
      case ConvertFailed =>
        CountsSnoc(calls, RcDec(needed));
        calls := calls + [RcDec(needed)];
        result := ReturnedError;
      case Converted(bytes) =>
        var s := FillAndCount(needed, bytes, dl);
        result := Built(s);
    }
  }
}
