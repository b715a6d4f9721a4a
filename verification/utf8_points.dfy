/**
 * Code-point counting as the runtime does it after filling a string buffer:
 * starting at offset 0, step forward by the decode length of the byte at the
 * current offset, counting one point per step, until the offset reaches or
 * passes the byte length. Only the leading byte of each step is inspected.
 *
 * The runtime's `quill_point_decode_length` is not part of this model; every
 * definition here takes it as a parameter `dl` that steps at least one byte.
 * `Rfc3629Length` is one such decoder: the sequence length announced by a
 * leading byte (section 3 of RFC 3629).
 */
module Utf8Points {

  newtype byte = b: int | 0 <= b < 256

  /** A decode-length function usable by the counting loop: it always advances. */
  ghost predicate StepsForward(dl: byte -> nat) {
    forall b: byte :: dl(b) >= 1
  }

  /**
   * The number of bytes announced by a leading byte, by its bit pattern
   * (0xxxxxxx, 110xxxxx, 1110xxxx, 11110xxx). Bytes whose bit pattern is
   * 10xxxxxx or 11111xxx advance by one. By bit pattern alone, C0, C1 and
   * F5-F7 also announce 2 and 4 bytes, although they never occur in UTF-8.
   */
  function Rfc3629Length(b: byte): (n: nat)
    ensures 1 <= n <= 4
    ensures n == 1 <==> b < 0x80 || (0x80 <= b < 0xC0) || 0xF8 <= b
  {
    if b < 0x80 then 1
    else if b < 0xC0 then 1
    else if b < 0xE0 then 2
    else if b < 0xF0 then 3
    else if b < 0xF8 then 4
    else 1
  }

  lemma Rfc3629StepsForward()
    ensures StepsForward(Rfc3629Length)
  {
  }

  /** Number of loop iterations when the loop starts at offset `o`. */
  function PointsFrom(s: seq<byte>, o: nat, dl: byte -> nat): (r: nat)
    requires StepsForward(dl)
    ensures o <= |s| ==> r <= |s| - o
    ensures o < |s| ==> r >= 1
    ensures |s| <= o ==> r == 0
    decreases |s| - o
  {
    if o >= |s| then 0 else 1 + PointsFrom(s, o + dl(s[o]), dl)
  }

  /** The code-point count the loop leaves in `length_points`. */
  function CountPoints(s: seq<byte>, dl: byte -> nat): (r: nat)
    requires StepsForward(dl)
    ensures r <= |s|
    ensures r == 0 <==> |s| == 0
  {
    PointsFrom(s, 0, dl)
  }

  /** The offsets at which the loop reads a byte, in order: one per counted point. */
  function Visited(s: seq<byte>, o: nat, dl: byte -> nat): (r: seq<nat>)
    requires StepsForward(dl)
    ensures |r| == PointsFrom(s, o, dl)
    decreases |s| - o
  {
    if o >= |s| then [] else [o] + Visited(s, o + dl(s[o]), dl)
  }

  /**
   * Every offset the loop reads at is in bounds; the offsets start where the
   * loop starts, strictly increase, and each is the previous one plus the
   * decode length of the byte there.
   */
  lemma {:induction false} VisitedOffsets(s: seq<byte>, o: nat, dl: byte -> nat)
    requires StepsForward(dl)
    ensures var r := Visited(s, o, dl);
      (forall i :: 0 <= i < |r| ==> o <= r[i] < |s|)
      && (forall i, j :: 0 <= i < j < |r| ==> r[i] < r[j])
      && (o < |s| ==> r[0] == o)
      && (forall i, j :: 0 <= i && j == i + 1 && j < |r| ==> r[j] == r[i] + dl(s[r[i]]))
    decreases |s| - o
  {
    if o < |s| {
      var next := o + dl(s[o]);
      VisitedOffsets(s, next, dl);
      var rest := Visited(s, next, dl);
      var r := Visited(s, o, dl);
      assert r == [o] + rest;
      assert rest != [] ==> rest[0] == next;
      forall i, j | 0 <= i && j == i + 1 && j < |r|
        ensures r[j] == r[i] + dl(s[r[i]])
      {
        if i > 0 {
          assert r[i] == rest[i - 1] && r[j] == rest[j - 1];
        }
      }
    }
  }

  /** The first offset at or past the end that the loop reaches from `o`. */
  function EndOffset(s: seq<byte>, o: nat, dl: byte -> nat): (r: nat)
    requires StepsForward(dl)
    ensures r >= |s| && r >= o
    ensures o >= |s| ==> r == o
    decreases |s| - o
  {
    if o >= |s| then o else EndOffset(s, o + dl(s[o]), dl)
  }

  /** The bytes split into whole steps: the last step ends exactly at the end. */
  ghost predicate Framed(s: seq<byte>, dl: byte -> nat)
    requires StepsForward(dl)
  {
    EndOffset(s, 0, dl) == |s|
  }

  /** Counting from offset `|s| + k` of `s + t` is counting from `k` in `t`. */
  lemma {:induction false} PointsShift(s: seq<byte>, t: seq<byte>, k: nat, dl: byte -> nat)
    requires StepsForward(dl)
    ensures PointsFrom(s + t, |s| + k, dl) == PointsFrom(t, k, dl)
    decreases |t| - k
  {
    if k < |t| {
      assert (s + t)[|s| + k] == t[k];
      PointsShift(s, t, k + dl(t[k]), dl);
    }
  }

  lemma {:induction false} PointsAppendFrom(s: seq<byte>, t: seq<byte>, o: nat, dl: byte -> nat)
    requires StepsForward(dl)
    requires EndOffset(s, o, dl) == |s|
    ensures PointsFrom(s + t, o, dl) == PointsFrom(s, o, dl) + PointsFrom(t, 0, dl)
    decreases |s| - o
  {
    if o >= |s| {
      PointsShift(s, t, 0, dl);
    } else {
      assert (s + t)[o] == s[o];
      PointsAppendFrom(s, t, o + dl(s[o]), dl);
    }
  }

  /** Counting is additive across a boundary that falls between whole steps. */
  lemma CountAppend(s: seq<byte>, t: seq<byte>, dl: byte -> nat)
    requires StepsForward(dl)
    requires Framed(s, dl)
    ensures CountPoints(s + t, dl) == CountPoints(s, dl) + CountPoints(t, dl)
  {
    PointsAppendFrom(s, t, 0, dl);
  }

  /**
   * The end-of-buffer quirk: a final sequence whose leading byte announces
   * more bytes than remain is still counted as one point, and the loop never
   * reads past the end to find that out.
   */
  lemma TruncatedPointCounted(s: seq<byte>, t: seq<byte>, dl: byte -> nat)
    requires StepsForward(dl)
    requires Framed(s, dl)
    requires 1 <= |t| < dl(t[0])
    ensures CountPoints(s + t, dl) == CountPoints(s, dl) + 1
    ensures !Framed(s + t, dl)
  {
    CountAppend(s, t, dl);
    EndAppend(s, t, 0, dl);
  }

  lemma {:induction false} EndShift(s: seq<byte>, t: seq<byte>, k: nat, dl: byte -> nat)
    requires StepsForward(dl)
    ensures EndOffset(s + t, |s| + k, dl) == |s| + EndOffset(t, k, dl)
    decreases |t| - k
  {
    if k < |t| {
      assert (s + t)[|s| + k] == t[k];
      EndShift(s, t, k + dl(t[k]), dl);
    }
  }

  lemma {:induction false} EndAppend(s: seq<byte>, t: seq<byte>, o: nat, dl: byte -> nat)
    requires StepsForward(dl)
    requires EndOffset(s, o, dl) == |s|
    ensures EndOffset(s + t, o, dl) == |s| + EndOffset(t, 0, dl)
    decreases |s| - o
  {
    if o >= |s| {
      EndShift(s, t, 0, dl);
    } else {
      assert (s + t)[o] == s[o];
      EndAppend(s, t, o + dl(s[o]), dl);
    }
  }

  /** When every byte is a one-byte step, the count is the byte length. */
  lemma {:induction false} SingleStepsFrom(s: seq<byte>, o: nat, dl: byte -> nat)
    requires StepsForward(dl)
    requires forall i :: 0 <= i < |s| ==> dl(s[i]) == 1
    requires o <= |s|
    ensures PointsFrom(s, o, dl) == |s| - o
    decreases |s| - o
  {
    if o < |s| {
      SingleStepsFrom(s, o + 1, dl);
    }
  }

  /** All-ASCII bytes: one point per byte (e.g. "hello world" is 11 of 11). */
  lemma AsciiCount(s: seq<byte>)
    requires forall i :: 0 <= i < |s| ==> s[i] < 0x80
    ensures CountPoints(s, Rfc3629Length) == |s|
  {
    Rfc3629StepsForward();
    SingleStepsFrom(s, 0, Rfc3629Length);
  }

  function Flatten(chunks: seq<seq<byte>>): seq<byte> {
    if chunks == [] then [] else chunks[0] + Flatten(chunks[1..])
  }

  /** A chunk that is exactly one whole step of the decoder. */
  ghost predicate WholeStep(c: seq<byte>, dl: byte -> nat) {
    |c| >= 1 && |c| == dl(c[0])
  }

  /**
   * Well-framed input: bytes made of whole steps give one point per step,
   * so on well-formed UTF-8 the count is the number of encoded scalars.
   */
  lemma {:induction false} CountWholeSteps(chunks: seq<seq<byte>>, dl: byte -> nat)
    requires StepsForward(dl)
    requires forall i :: 0 <= i < |chunks| ==> WholeStep(chunks[i], dl)
    ensures CountPoints(Flatten(chunks), dl) == |chunks|
  {
    if chunks != [] {
      var c := chunks[0];
      assert EndOffset(c, 0, dl) == EndOffset(c, dl(c[0]), dl) == |c|;
      assert PointsFrom(c, 0, dl) == 1 + PointsFrom(c, dl(c[0]), dl) == 1;
      CountAppend(c, Flatten(chunks[1..]), dl);
      CountWholeSteps(chunks[1..], dl);
    }
  }

  /** One iteration of the loop moves the offset it reads from the pending list to the done list. */
  lemma VisitedStep(s: seq<byte>, o: nat, dl: byte -> nat, done: seq<nat>)
    requires StepsForward(dl)
    requires o < |s|
    ensures done + Visited(s, o, dl) == (done + [o]) + Visited(s, o + dl(s[o]), dl)
  {
    assert Visited(s, o, dl) == [o] + Visited(s, o + dl(s[o]), dl);
  }

  /** Once the offset reaches the end, nothing more is read. */
  lemma VisitedDone(s: seq<byte>, o: nat, dl: byte -> nat, done: seq<nat>)
    requires StepsForward(dl)
    requires |s| <= o
    ensures done + Visited(s, o, dl) == done
  {
    assert Visited(s, o, dl) == [];
  }

  /**
   * The loop of `quill_os_read_pipe` and `QUILL_OS_STRING_FROM_WIDE`: walk the
   * first `length` bytes of the buffer and count one point per step.
   */
  method CountPointsIn(data: array<byte>, length: nat, dl: byte -> nat) returns (points: nat)
    requires length <= data.Length
    requires StepsForward(dl)
    ensures points == CountPoints(data[..length], dl)
  {
    ghost var s := data[..length];
    ghost var visited: seq<nat> := [];
    points := 0;
    var o: nat := 0;
    while o < length
      invariant points + PointsFrom(s, o, dl) == CountPoints(s, dl)
      invariant visited + Visited(s, o, dl) == Visited(s, 0, dl)
      decreases length - o
    {
      VisitedStep(s, o, dl, visited);
      visited := visited + [o];
      o := o + dl(data[o]);
      points := points + 1;
    }
    // the bytes read were exactly those at the offsets `Visited` lists
    VisitedDone(s, o, dl, visited);
    assert visited == Visited(s, 0, dl);
  }
}
