/**
 * The parts of the runtime's string library and allocator that the OS layer
 * touches, seen from outside: a string value, where its bytes live, and the
 * record of the runtime and OS calls an operation makes.
 */
module Runtime {
  import opened Utf8Points

  datatype Option<T> = None | Some(value: T)

  function Min(a: nat, b: nat): (m: nat)
    ensures m <= a && m <= b && (m == a || m == b)
  {
    if a < b then a else b
  }

  /** Where a string's bytes live: a static literal, or an owned heap block of `size` bytes. */
  datatype Alloc = Static | Heap(size: nat)

  /**
   * `quill_string_t`: the readable bytes (`length_bytes` of them), the stored
   * code-point count `length_points`, and the allocation behind `data`.
   */
  datatype QuillString = QuillString(data: seq<byte>, lengthPoints: nat, alloc: Alloc)
  {
    function LengthBytes(): nat { |data| }
  }

  /** `quill_string_from_static_cstr("")` */
  const EmptyString: QuillString := QuillString([], 0, Static)

  /** The calls an operation makes to the OS and the runtime, in the order made. */
  datatype OsCall =
    | QueryAvailable          // PeekNamedPipe or ioctl(FIONREAD)
    | Malloc(size: nat)       // quill_malloc
    | ReadInto(size: nat)     // ReadFile or read, with a buffer of `size` bytes
    | RcDec(size: nat)        // quill_rc_dec on a block of `size` bytes
    | SizeQuery               // WideCharToMultiByte asked for the needed size
    | ConvertInto(size: nat)  // WideCharToMultiByte into a buffer of `size` bytes

  function CountMallocs(calls: seq<OsCall>): (n: nat)
    ensures n <= |calls|
  {
    if calls == [] then 0
    else (if calls[0].Malloc? then 1 else 0) + CountMallocs(calls[1..])
  }

  function CountReleases(calls: seq<OsCall>): (n: nat)
    ensures n <= |calls|
  {
    if calls == [] then 0
    else (if calls[0].RcDec? then 1 else 0) + CountReleases(calls[1..])
  }

  function CountReads(calls: seq<OsCall>): (n: nat)
    ensures n <= |calls|
  {
    if calls == [] then 0
    else (if calls[0].ReadInto? then 1 else 0) + CountReads(calls[1..])
  }

  /** Heap blocks allocated by `calls` and not yet released. */
  function Outstanding(calls: seq<OsCall>): int {
    CountMallocs(calls) - CountReleases(calls)
  }

  /** The call counts of a trace are the sums over its two halves. */
  lemma {:induction false} CountsAppend(a: seq<OsCall>, b: seq<OsCall>)
    ensures CountMallocs(a + b) == CountMallocs(a) + CountMallocs(b)
    ensures CountReleases(a + b) == CountReleases(a) + CountReleases(b)
    ensures CountReads(a + b) == CountReads(a) + CountReads(b)
    ensures Outstanding(a + b) == Outstanding(a) + Outstanding(b)
  {
    if a == [] {
      assert a + b == b;
    } else {
      assert (a + b)[0] == a[0];
      assert (a + b)[1..] == a[1..] + b;
      CountsAppend(a[1..], b);
    }
  }

  /** Appending one call changes each count by at most that call. */
  lemma CountsSnoc(calls: seq<OsCall>, c: OsCall)
    ensures CountMallocs(calls + [c]) == CountMallocs(calls) + (if c.Malloc? then 1 else 0)
    ensures CountReleases(calls + [c]) == CountReleases(calls) + (if c.RcDec? then 1 else 0)
    ensures CountReads(calls + [c]) == CountReads(calls) + (if c.ReadInto? then 1 else 0)
  {
    CountsAppend(calls, [c]);
    assert [c][1..] == [];
  }

  /** Heap blocks a string owns: one if its bytes are on the heap. */
  function Owned(s: QuillString): (n: nat)
    ensures n <= 1
  {
    if s.alloc.Heap? then 1 else 0
  }
}
