# quill OS layer: pipe drain and header helpers, in Dafny

This project models the decision logic of the quill runtime's OS layer:

- `quill_os_read_pipe`, in both its Windows and POSIX variants. It asks the OS
  how many bytes a pipe holds, and tolerates a failed query only on Windows and
  only for a broken pipe. It returns the static empty string when nothing is
  buffered. Otherwise it allocates a block of exactly the advertised size, reads
  once, shrinks the length to what the read delivered, and counts code points
  by stepping through the bytes by each leading byte's decode length.
- From `quill_os.h`: the translation `quill_os_win_to_errno` from Windows error
  codes to errno kinds; `QUILL_OS_STRING_AS_NT`, which copies a string into a
  buffer and appends a NUL terminator; and the size check, allocation and
  point-counting tail of `QUILL_OS_STRING_FROM_WIDE`.

Modules, one per concern:

- `Utf8Points` (`utf8_points.dfy`) holds the counting loop (`CountPointsIn`) and
  its specification (`CountPoints`), with lemmas about the count. The runtime's
  `quill_point_decode_length` is a parameter `dl` that always advances at least
  one byte. `Rfc3629Length` is one such decoder: the sequence length that a
  leading byte announces in section 3 of RFC 3629.
- `Runtime` (`runtime.dfy`) holds the string value `quill_string_t`, where its
  bytes live (static or an owned heap block), and the trace of OS and runtime
  calls an operation makes. `Outstanding(calls)` is the number of blocks
  allocated and not released.
- `QuillOs` (`quill_os.dfy`) models the header helpers.
- `Process` (`process.dfy`) models `quill_os_read_pipe`.

The OS calls (`PeekNamedPipe`, `ioctl`, `ReadFile`, `read`, `WideCharToMultiByte`)
are inputs: each is the reply the OS gives. Each operation returns the calls it
made as a `seq<OsCall>`: availability queries, `quill_malloc`, reads into a
buffer of a given size, and `quill_rc_dec`. So "no read when nothing is
available", "exactly one read with a buffer of the advertised size" and "the
block is released before the panic" are stated about that trace. `quill_panic`
does not return; it is the outcome `Panicked(message)`.

On a final sequence that the end of the buffer cuts short, the counting loop's
offset passes `length_bytes`. No byte past the end is read, and the cut-short
sequence still counts as one point (`TruncatedPointCounted`). The model keeps
this behaviour and does not clamp the count.

## Model

| member | source | states |
|---|---|---|
| `Utf8Points.Rfc3629Length` | src-c/process.c:36 | A decoder for the loop: every byte advances 1 to 4 bytes, and exactly the bytes whose bit pattern is 0xxxxxxx, 10xxxxxx or 11111xxx advance 1 |
| `Utf8Points.PointsFrom` | src-c/process.c:35-37 | Counting from offset `o` gives at most `length - o` points, at least one when `o` is in bounds, and none at or past the end |
| `Utf8Points.CountPoints` | src-c/process.c:68-70 | The loop's count is at most the byte length, and it is zero exactly when there are no bytes |
| `Utf8Points.VisitedOffsets` | src-c/process.c:35-37 | The offsets at which the loop reads a byte, one per counted point, start at the loop's start, strictly increase, each is the previous one plus its decode length, and all are below the byte length |
| `Utf8Points.CountPointsIn` | src-c/process.c:35-37 | The counting loop over the first `length` bytes of the buffer leaves exactly `CountPoints` of those bytes in the point count; its invariant shows it reads the buffer at exactly the offsets `Visited` lists |
| `Utf8Points.CountAppend` | src-c/process.c:68-70 | When the first part splits into whole steps, the count of a concatenation is the sum of the counts of its parts |
| `Utf8Points.TruncatedPointCounted` | src-c/process.c:35-37 | A final sequence cut short by the end of the buffer still adds exactly one point, and the bytes then no longer split into whole steps |
| `Utf8Points.AsciiCount` | src-c/process.c:68-70 | With the RFC 3629 decoder, all-ASCII bytes give one point per byte |
| `Utf8Points.CountWholeSteps` | src-c/process.c:35-37 | Bytes made of whole encoded sequences give exactly one point per sequence |
| `QuillOs.WinToErrno` | src-c/include/quill_os.h:52-88 | Total: each listed code maps to the errno kind whose table row lists it (the rows are disjoint), and every unlisted code maps to EINVAL |
| `QuillOs.NotFoundAndBrokenPipe` | src-c/include/quill_os.h:54-85 | The six not-found codes are exactly the codes mapped to ENOENT; ERROR_BROKEN_PIPE is the only code mapped to EPIPE |
| `QuillOs.InvalidIsDefault` | src-c/include/quill_os.h:69-86 | EINVAL is the result exactly for the two invalid-argument codes and for every code the switch does not list |
| `QuillOs.AsNulTerminated` | src-c/include/quill_os.h:124-127 | The buffer has `length_bytes + 1` entries: the string's bytes, then a NUL |
| `QuillOs.CStringOfTerminated` | src-c/include/quill_os.h:124-127 | Read back as a C string, the terminated copy gives the original bytes exactly when they contain no NUL; an embedded NUL makes it shorter |
| `QuillOs.FillAndCount` | src-c/include/quill_os.h:40-50 | The built string has the size the size query asked for, owns a block of that size, starts with the bytes the conversion wrote, and counts points over all its bytes |
| `QuillOs.StringFromWideAsWritten` | src-c/include/quill_os.h:32-50 | A zero size query returns the error value before any allocation; a failed conversion returns the error value with the block still allocated; otherwise the string is built |
| `QuillOs.StringFromWide` | src-c/include/quill_os.h:32-50 | The same, but a failed conversion releases the block: every allocated block is either owned by the result or released |
| `Process.WinAvailable` | src-c/process.c:7-16 | The Windows query panics exactly when it fails with an error other than ERROR_BROKEN_PIPE; a broken pipe counts as 0 bytes available |
| `Process.PosixAvailable` | src-c/process.c:45-49 | The POSIX query panics exactly when ioctl fails, whatever the error; there is no broken-pipe exemption |
| `Process.DrainGuarantees` | src-c/process.c:17-37 | A drain reads once when bytes are available and never otherwise, with a buffer of exactly the advertised size. A returned string is no longer than advertised and its point count is recomputed from its bytes. A panic is preceded by the release of the block, so no block is leaked |
| `Process.DrainAvailable` | src-c/process.c:17-37 | Zero available gives the static empty string and no call. Otherwise one allocation and one read; a failed read releases and panics; a good read gives the first `min(available, bytes read)` bytes with their point count |
| `Process.ReadPipeWindows` | src-c/process.c:5-39 | Windows drain: the query comes first; any failure except a broken pipe panics with no further call; otherwise the drain proceeds with the reported (or zero) count |
| `Process.ReadPipePosix` | src-c/process.c:43-72 | POSIX drain: the query comes first; any ioctl failure panics with no further call; otherwise the drain proceeds with the reported count |
| `Process.HelloWorldWindows` | src-c/process.c:5-39 | "hello world" drained before the child exits gives 11 bytes and 11 points; after the exit, the broken-pipe query gives the empty string |
| `Process.HelloWorldPosix` | src-c/process.c:43-72 | "hello world" gives 11 bytes and 11 points; a query reporting 0 gives the empty string; a failed ioctl panics |

## Left out

- `src-c/env_lock.c` (the environment lock) is not part of this model. It is about one-time initialisation across threads and memory ordering, which a sequential model cannot express.
- The `quill_os_process_layout` records (`src-c/include/quill_os.h:90-98`, `111-119`) are plain data with an embedded mutex. The code defines no operation on them.
- `QUILL_OS_STRING_AS_WIDE` is a thin wrapper around `MultiByteToWideChar`. Only the foreign call's behaviour matters there.
- The platform-detection macros are compile-time constants.
- `quill_point_decode_length` lives in `quill.h`, which is not part of this model. It is a parameter that advances at least one byte. `Rfc3629Length` is an assumed instance, used only for the "hello world" scenarios. Advancing at least one byte is a real assumption about the unseen header: a decoder that returned 0 for some byte would make all three C loops run forever on that byte, and `StepsForward` is what lets the model's loop terminate.
- The OS calls, `quill_malloc`, `quill_rc_dec` and `quill_panic` are inputs or trace entries. Their own behaviour is not modelled, and neither is the text of the panic message beyond its constant.
- `QuillOs.WinToErrno` returns an `Errno` kind, not its numeric value, because the numbers come from the C library. The 14 kinds that the switch produces are distinct.
- Integer widths are not modelled: `DWORD`, `int`, `ssize_t` and `quill_int_t` are unbounded naturals. A negative result other than the `-1` of `read` or `ioctl` is not modelled, and the OS never transfers more bytes than the buffer holds.
- Uninitialised memory from `quill_malloc` is zero in the model's buffers. No contract mentions those bytes.
- In `QUILL_OS_STRING_FROM_WIDE`, the wide input `(s, sl)` and the caller's error value `e` are abstract. The conversion is represented by its reply, and returning `e` is the outcome `ReturnedError`.
- Pointer aliasing between `res.data` and `res.alloc->data` is not modelled. A string value holds its bytes directly.

## Findings

| source | as written | input that shows it | evidently intended | confidence | as-written member | corrected member |
|---|---|---|---|---|---|---|
| src-c/include/quill_os.h:43-47 | When the second `WideCharToMultiByte` call fails, the macro returns `e` without calling `quill_rc_dec` on the block `quill_malloc` gave it, so the block leaks | a size query returning n > 0, then a conversion that returns 0 | release the block before returning, as `quill_os_read_pipe` does before it panics (src-c/process.c:26-31) | medium, not executed | `QuillOs.StringFromWideAsWritten` | `QuillOs.StringFromWide` |
