/** The output image as a sequence of pixels, and the edits a GLZ token makes to it. The pixel
    type is a parameter, so the same edits also carry marks instead of colours. */
module GlzCanvas {
  import opened Arithmetic

  /** A canvas and how many pixels have been produced, which a missed reference can take past the
      end. */
  datatype State<P> = State(canvas: seq<P>, out: nat)

  datatype Edit<P> =
    | Write(pixels: seq<P>)              // literal pixels, or pixels of an earlier image
    | CopyBack(distance: nat, length: nat)  // pixels of this image, `distance` back
    | Skip(length: nat)                  // a reference to a missing image

  datatype Effect<P> = Panics | Leaves(state: State<P>)

  function Min(a: nat, b: nat): nat {
    if a < b then a else b
  }

  function Room<P>(s: State<P>): nat {
    if s.out < |s.canvas| then |s.canvas| - s.out else 0
  }

  function WriteAt<P>(canvas: seq<P>, out: nat, pixels: seq<P>): (r: seq<P>)
    requires out + |pixels| <= |canvas|
    ensures |r| == |canvas|
  {
    canvas[..out] + pixels + canvas[out + |pixels|..]
  }

  /** Copy `count` pixels one after the other, each from `distance` back, so that a copy may read
      what it has just written. */
  function CopyFrom<P>(canvas: seq<P>, out: nat, distance: nat, count: nat): (r: seq<P>)
    requires 1 <= distance <= out && out + count <= |canvas|
    ensures |r| == |canvas|
    decreases count
  {
    if count == 0 then canvas else CopyFrom(canvas[out := canvas[out - distance]], out + 1, distance, count - 1)
  }

  /** A reference exactly one pixel before the start, other than the directly previous pixel: the
      one case the bounds check lets through. */
  predicate JustBeforeStart(distance: nat, out: nat) {
    distance >= 2 && distance == out + 1
  }

  function Apply<P>(s: State<P>, e: Edit<P>): Effect<P> {
    match e
    case Write(pixels) =>
      var m := Min(|pixels|, Room(s));
      if s.out > |s.canvas| then Leaves(s)
      else Leaves(State(WriteAt(s.canvas, s.out, pixels[..m]), s.out + m))
    case CopyBack(distance, length) =>
      if JustBeforeStart(distance, s.out) && Room(s) > 0 && length > 0 then Panics
      else if distance == 0 || distance > s.out || s.out > |s.canvas| then Leaves(s)
      else
        var m := Min(length, Room(s));
        Leaves(State(CopyFrom(s.canvas, s.out, distance, m), s.out + m))
    case Skip(length) => Leaves(s.(out := s.out + length))
  }

  // ----- Overlapping copies

  /** Where position `i` of a copy at `out` comes from: the last `distance` pixels, repeated. */
  function PeriodicIndex(out: nat, distance: nat, i: nat): (j: int)
    requires 1 <= distance <= out <= i
    ensures out - distance <= j < out
  {
    out - distance + (i - out) % distance
  }

  lemma {:induction false} PeriodicIndexShift(out: nat, distance: nat, i: nat)
    requires 1 <= distance <= out <= i
    ensures PeriodicIndex(out, distance, out) == out - distance
    ensures out < i ==>
              PeriodicIndex(out, distance, i)
              == if PeriodicIndex(out + 1, distance, i) == out then out - distance
                 else PeriodicIndex(out + 1, distance, i)
  {
    QuotientUnique(0, distance, 0, 0);
    if out < i { PeriodShift(i - out, distance); }
  }

  /** A copy leaves everything outside its range alone, and inside repeats the last `distance`
      pixels with that period. */
  lemma {:induction false} CopyIsPeriodic<P>(canvas: seq<P>, out: nat, distance: nat, count: nat, i: nat)
    requires 1 <= distance <= out && out + count <= |canvas| && i < |canvas|
    ensures var r := CopyFrom(canvas, out, distance, count);
            r[i] == if out <= i < out + count then canvas[PeriodicIndex(out, distance, i)] else canvas[i]
    decreases count
  {
    hide PeriodicIndex;
    if count > 0 {
      CopyIsPeriodic(canvas[out := canvas[out - distance]], out + 1, distance, count - 1, i);
      if out <= i { PeriodicIndexShift(out, distance, i); }
    }
  }

  /** Moving the window on by one shifts the phase by one. */
  lemma {:induction false} PeriodShift(k: nat, d: nat)
    requires 1 <= k && 1 <= d
    ensures if (k - 1) % d == d - 1 then k % d == 0 else k % d == (k - 1) % d + 1
  {
    var q, r := (k - 1) / d, (k - 1) % d;
    assert k - 1 == d * q + r;
    if r == d - 1 {
      assert k == d * (q + 1) + 0;
      QuotientUnique(k, d, q + 1, 0);
    } else {
      QuotientUnique(k, d, q, r + 1);
    }
  }

  /** Fill with one pixel: the decoder's separate branch for the directly previous pixel. */
  function Fill<P>(canvas: seq<P>, out: nat, pixel: P, count: nat): (r: seq<P>)
    requires out + count <= |canvas|
    ensures |r| == |canvas|
  {
    WriteAt(canvas, out, seq(count, _ => pixel))
  }

  /** The separate branch for distance 1 is the general copy. */
  lemma {:induction false} FillIsCopy<P>(canvas: seq<P>, out: nat, count: nat)
    requires 1 <= out && out + count <= |canvas|
    ensures Fill(canvas, out, canvas[out - 1], count) == CopyFrom(canvas, out, 1, count)
  {
    var r := CopyFrom(canvas, out, 1, count);
    var f := Fill(canvas, out, canvas[out - 1], count);
    forall i | 0 <= i < |canvas| ensures f[i] == r[i] {
      CopyIsPeriodic(canvas, out, 1, count, i);
    }
  }
}
