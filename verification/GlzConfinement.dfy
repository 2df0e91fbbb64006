/** What a missing dictionary image can spoil: decoding with lookups missing differs from decoding
    with them found only at pixels derived from the missed references. */
module GlzConfinement {
  import opened Options
  import opened Bytes
  import opened GlzStream
  import opened GlzCanvas
  import opened ImageLimits
  import opened GlzDecoder
  import opened GlzWalk

  /** `g` answers as `f` does, except that some lookups come back with nothing. */
  ghost predicate Misses(f: Oracle, g: Oracle) {
    forall pos: nat, id: nat :: g(pos, id) == f(pos, id) || g(pos, id).None?
  }

  // ----- Marks: the same edits, carrying whether a pixel derives from a missed reference

  function Marked(count: nat, mark: bool): (r: seq<bool>)
    ensures |r| == count && forall i :: 0 <= i < count ==> r[i] == mark
  {
    seq(count, _ => mark)
  }

  /** A found reference marks what it writes if `g` misses it; copies carry marks along. */
  function MarkEdit(imageId: nat, f: Oracle, g: Oracle, v: Visit): Edit<bool>
    requires v.token.Reference?
  {
    var Reference(length, offset, dist) := v.token;
    if dist == 0 then CopyBack(offset + 1, length)
    else
      var id := SourceId(imageId, dist);
      if f(v.pos, id).None? then Skip(length)
      else Write(Marked(|Slice(PixelsOf(f(v.pos, id).value), offset, length)|, g(v.pos, id).None?))
  }

  /** The marks after decoding from `pos` on. */
  function Marks(data: seq<byte>, imageId: nat, f: Oracle, g: Oracle, pos: nat, t: State<bool>): (r: seq<bool>)
    requires pos <= |data|
    ensures |r| == |t.canvas|
    decreases |data| - pos
  {
    if t.out >= |t.canvas| || pos == |data| then t.canvas
    else
      match ParseToken(data, pos)
      case Truncated => t.canvas
      case Parsed(Literal(count), next) =>
        var m := LiteralRun(data, next, count, Room(t));
        Marks(data, imageId, f, g, next + 3 * m, Apply(t, Write(Marked(m, false))).state)
      case Parsed(Reference(length, offset, dist), next) =>
        var effect := Apply(t, MarkEdit(imageId, f, g, Visit(pos, t.out, Reference(length, offset, dist))));
        if effect.Panics? then t.canvas else Marks(data, imageId, f, g, next, effect.state)
  }

  // ----- Two runs beside each other

  /** Equal wherever there is no mark. */
  ghost predicate AgreeOff<P(!new)>(a: seq<P>, b: seq<P>, marks: seq<bool>) {
    && |a| == |b| == |marks|
    && forall i :: 0 <= i < |a| && !marks[i] ==> a[i] == b[i]
  }

  ghost predicate Beside(s: State<Pixel>, s': State<Pixel>, t: State<bool>) {
    && AgreeOff(s.canvas, s'.canvas, t.canvas)
    && t.out == s.out
    && (s'.out == s.out || (s.out >= |s.canvas| && s'.out >= |s.canvas|))
  }

  lemma {:induction false} WriteBeside<P(!new)>(a: seq<P>, b: seq<P>, marks: seq<bool>, out: nat, ps: seq<P>)
    requires AgreeOff(a, b, marks) && out + |ps| <= |a|
    ensures AgreeOff(WriteAt(a, out, ps), WriteAt(b, out, ps), WriteAt(marks, out, Marked(|ps|, false)))
  {
  }

  lemma {:induction false} MissBeside<P(!new)>(a: seq<P>, b: seq<P>, marks: seq<bool>, out: nat, ps: seq<P>)
    requires AgreeOff(a, b, marks) && out + |ps| <= |a|
    ensures AgreeOff(WriteAt(a, out, ps), b, WriteAt(marks, out, Marked(|ps|, true)))
  {
  }

  lemma {:induction false} CopyBeside<P(!new)>(a: seq<P>, b: seq<P>, marks: seq<bool>, out: nat, distance: nat,
                                        count: nat)
    requires AgreeOff(a, b, marks) && 1 <= distance <= out && out + count <= |a|
    ensures AgreeOff(CopyFrom(a, out, distance, count), CopyFrom(b, out, distance, count),
                     CopyFrom(marks, out, distance, count))
  {
    hide PeriodicIndex;
    var a', b' := CopyFrom(a, out, distance, count), CopyFrom(b, out, distance, count);
    var m' := CopyFrom(marks, out, distance, count);
    forall i | 0 <= i < |a| && !m'[i] ensures a'[i] == b'[i] {
      CopyIsPeriodic(a, out, distance, count, i);
      CopyIsPeriodic(b, out, distance, count, i);
      CopyIsPeriodic(marks, out, distance, count, i);
    }
  }

  lemma {:induction false} MarkedPrefix(count: nat, mark: bool, m: nat)
    requires m <= count
    ensures Marked(count, mark)[..m] == Marked(m, mark)
  {
  }

  /** A reference inside its source keeps the two runs beside each other. */
  lemma {:induction false} ReferenceBeside(imageId: nat, f: Oracle, g: Oracle, v: Visit,
                                           s: State<Pixel>, s': State<Pixel>, t: State<bool>)
    requires Misses(f, g) && v.token.Reference? && v.token.length >= 1
    requires Beside(s, s', t) && v.out == s.out < |s.canvas| && s'.out == s.out
    requires InsideAt(v, imageId, SizesOf(f))
    ensures var e := Apply(s, ReferenceEdit(imageId, f, v.pos, v.token.length, v.token.offset, v.token.dist));
            var e' := Apply(s', ReferenceEdit(imageId, g, v.pos, v.token.length, v.token.offset, v.token.dist));
            var m := Apply(t, MarkEdit(imageId, f, g, v));
            && e.Panics? == e'.Panics? == m.Panics?
            && (e.Leaves? ==> Beside(e.state, e'.state, m.state))
  {
    hide AgreeOff, WriteAt, CopyFrom, Marked, PixelsOf;
    var Reference(length, offset, dist) := v.token;
    var n := |s.canvas|;
    SameLengths(s.canvas, s'.canvas, t.canvas);
    if dist == 0 {
      if offset + 1 <= s.out {
        CopyBeside(s.canvas, s'.canvas, t.canvas, s.out, offset + 1, Min(length, n - s.out));
      }
    } else {
      var id := SourceId(imageId, dist);
      if f(v.pos, id).Some? {
        var slice := Slice(PixelsOf(f(v.pos, id).value), offset, length);
        assert |slice| == length;
        var m := Min(|slice|, n - s.out);
        MarkedPrefix(|slice|, g(v.pos, id).None?, m);
        if g(v.pos, id).None? {
          MissBeside(s.canvas, s'.canvas, t.canvas, s.out, slice[..m]);
        } else {
          WriteBeside(s.canvas, s'.canvas, t.canvas, s.out, slice[..m]);
        }
      }
    }
  }

  lemma {:induction false} SameLengths<P(!new)>(a: seq<P>, b: seq<P>, marks: seq<bool>)
    requires AgreeOff(a, b, marks)
    ensures |a| == |b| == |marks|
  {
  }

  lemma {:induction false} LiteralBeside(data: seq<byte>, imageId: nat, f: Oracle, g: Oracle, pos: nat,
                                         s: State<Pixel>, s': State<Pixel>, t: State<bool>)
    requires pos < |data| && data[pos] as nat < LZ_MAX_COPY
    requires Beside(s, s', t) && s.out < |s.canvas| && s'.out == s.out
    ensures var m := LiteralRun(data, pos + 1, data[pos] as nat + 1, |s.canvas| - s.out);
            var e, e' := TurnAt(data, imageId, f, pos, s), TurnAt(data, imageId, g, pos, s');
            var marks := Apply(t, Write(Marked(m, false)));
            && e.Continues? && e'.Continues? && marks.Leaves? && e.pos == e'.pos == pos + 1 + 3 * m
            && e.state.out == s.out + m && |e.state.canvas| == |s.canvas|
            && Beside(e.state, e'.state, marks.state)
  {
    hide AgreeOff, WriteAt, Marked, LiteralPixels, TurnAt;
    SameLengths(s.canvas, s'.canvas, t.canvas);
    LiteralTurn(data, imageId, f, pos, s);
    LiteralTurn(data, imageId, g, pos, s');
    var m := LiteralRun(data, pos + 1, data[pos] as nat + 1, |s.canvas| - s.out);
    MarkedPrefix(m, false, m);
    WriteBeside(s.canvas, s'.canvas, t.canvas, s.out, LiteralPixels(data, pos + 1, m));
  }

  /** Both runs end the same way, and what they leave agrees off the marks. */
  ghost predicate Confined(e: Ending, e': Ending, marks: seq<bool>) {
    && e.Faulted? == e'.Faulted?
    && (e.Finished? ==> AgreeOff(e.state.canvas, e'.state.canvas, marks))
  }

  lemma {:induction false} MissesConfinedFrom(data: seq<byte>, imageId: nat, f: Oracle, g: Oracle, pos: nat,
                                              s: State<Pixel>, s': State<Pixel>, t: State<bool>)
    requires pos <= |data| && Misses(f, g) && Beside(s, s', t)
    requires Inside(Visits(data, imageId, SizesOf(f), pos, s.out, |s.canvas|), imageId, SizesOf(f))
    ensures Confined(RunFrom(data, imageId, f, pos, s), RunFrom(data, imageId, g, pos, s'),
                     Marks(data, imageId, f, g, pos, t))
    decreases |data| - pos
  {
    hide Misses, Apply, AgreeOff, InsideAt, Inside, SizesOf, OutAfter, Stray, ParseToken, ReferenceEdit, MarkEdit,
         TurnAt, RunFrom;
    SameLengths(s.canvas, s'.canvas, t.canvas);
    if s.out >= |s.canvas| || pos == |data| {
      RunStops(data, imageId, f, pos, s);
      RunStops(data, imageId, g, pos, s');
    } else {
      var vs := Visits(data, imageId, SizesOf(f), pos, s.out, |s.canvas|);
      LiteralForm(data, pos);
      RunUnfolds(data, imageId, f, pos, s);
      RunUnfolds(data, imageId, g, pos, s');
      if data[pos] as nat < LZ_MAX_COPY {
        LiteralBeside(data, imageId, f, g, pos, s, s', t);
        var e, e' := TurnAt(data, imageId, f, pos, s), TurnAt(data, imageId, g, pos, s');
        var m := LiteralRun(data, pos + 1, data[pos] as nat + 1, |s.canvas| - s.out);
        InsideTail(vs, imageId, SizesOf(f));
        MissesConfinedFrom(data, imageId, f, g, e.pos, e.state, e'.state, Apply(t, Write(Marked(m, false))).state);
      } else {
        ReferenceTurn(data, imageId, f, pos, s);
        ReferenceTurn(data, imageId, g, pos, s');
        var parsed := ParseToken(data, pos);
        if parsed.Parsed? {
          var v := Visit(pos, s.out, parsed.token);
          InsideTail(vs, imageId, SizesOf(f));
          ReferenceBeside(imageId, f, g, v, s, s', t);
          ReferenceFollows(imageId, f, v, s);
          var e, e' := TurnAt(data, imageId, f, pos, s), TurnAt(data, imageId, g, pos, s');
          if e.Continues? {
            var t' := Apply(t, MarkEdit(imageId, f, g, v)).state;
            MissesConfinedFrom(data, imageId, f, g, e.pos, e.state, e'.state, t');
          }
        }
      }
    }
  }

  // ----- Marks come from misses

  predicate MissedAt(imageId: nat, f: Oracle, g: Oracle, v: Visit) {
    && v.token.Reference? && v.token.dist != 0
    && var id := SourceId(imageId, v.token.dist);
       f(v.pos, id).Some? && g(v.pos, id).None?
  }

  ghost predicate NoneMissed(imageId: nat, f: Oracle, g: Oracle, vs: seq<Visit>) {
    forall i :: 0 <= i < |vs| ==> !MissedAt(imageId, f, g, vs[i])
  }

  ghost predicate Clean(marks: seq<bool>) {
    forall i :: 0 <= i < |marks| ==> !marks[i]
  }

  lemma {:induction false} ApplyKeepsClean(t: State<bool>, e: Edit<bool>)
    requires Clean(t.canvas) && (e.Write? ==> Clean(e.pixels))
    ensures var effect := Apply(t, e); effect.Leaves? ==> Clean(effect.state.canvas)
  {
    hide PeriodicIndex;
    if e.CopyBack? && 1 <= e.distance <= t.out <= |t.canvas| {
      var m := Min(e.length, Room(t));
      forall i | 0 <= i < |t.canvas| ensures !CopyFrom(t.canvas, t.out, e.distance, m)[i] {
        CopyIsPeriodic(t.canvas, t.out, e.distance, m, i);
      }
    }
  }

  /** The walk of the marks is the walk of `f`. */
  lemma {:induction false} MarksFollow(imageId: nat, f: Oracle, g: Oracle, v: Visit, t: State<bool>)
    requires v.token.Reference? && v.out == t.out < |t.canvas| && 1 <= v.token.length
    ensures var effect := Apply(t, MarkEdit(imageId, f, g, v));
            && (effect.Panics? <==> Stray(v))
            && (effect.Leaves? ==>
                  && |effect.state.canvas| == |t.canvas|
                  && effect.state.out == OutAfter(imageId, SizesOf(f), v, |t.canvas|))
  {
  }

  lemma {:induction false} MarkEditClean(imageId: nat, f: Oracle, g: Oracle, v: Visit)
    requires v.token.Reference? && !MissedAt(imageId, f, g, v)
    ensures var e := MarkEdit(imageId, f, g, v); e.Write? ==> Clean(e.pixels)
  {
  }

  /** Without a missed reference nothing is marked. */
  lemma {:induction false} NoMissNoMark(data: seq<byte>, imageId: nat, f: Oracle, g: Oracle, pos: nat, t: State<bool>)
    requires pos <= |data| && Clean(t.canvas)
    requires NoneMissed(imageId, f, g, Visits(data, imageId, SizesOf(f), pos, t.out, |t.canvas|))
    ensures Clean(Marks(data, imageId, f, g, pos, t))
    decreases |data| - pos
  {
    hide Clean, MissedAt, SizesOf, OutAfter, Stray, MarkEdit, ParseToken;
    if t.out < |t.canvas| && pos < |data| {
      var vs := Visits(data, imageId, SizesOf(f), pos, t.out, |t.canvas|);
      match ParseToken(data, pos) {
        case Truncated =>
        case Parsed(Literal(count), next) =>
          var m := LiteralRun(data, next, count, Room(t));
          MarkedClean(m);
          ApplyKeepsClean(t, Write(Marked(m, false)));
          NoneMissedTail(imageId, f, g, vs);
          NoMissNoMark(data, imageId, f, g, next + 3 * m, Apply(t, Write(Marked(m, false))).state);
        case Parsed(Reference(length, offset, dist), next) =>
          var v := Visit(pos, t.out, Reference(length, offset, dist));
          NoneMissedTail(imageId, f, g, vs);
          MarkEditClean(imageId, f, g, v);
          ApplyKeepsClean(t, MarkEdit(imageId, f, g, v));
          MarksFollow(imageId, f, g, v, t);
          var effect := Apply(t, MarkEdit(imageId, f, g, v));
          if effect.Leaves? { NoMissNoMark(data, imageId, f, g, next, effect.state); }
      }
    }
  }

  lemma {:induction false} MarkedClean(m: nat)
    ensures Clean(Marked(m, false))
  {
  }

  lemma {:induction false} NoneMissedTail(imageId: nat, f: Oracle, g: Oracle, vs: seq<Visit>)
    requires NoneMissed(imageId, f, g, vs) && vs != []
    ensures !MissedAt(imageId, f, g, vs[0]) && NoneMissed(imageId, f, g, vs[1..])
  {
  }

  // ----- Whole images

  lemma {:induction false} FlipBeside<P(!new)>(a: seq<P>, b: seq<P>, marks: seq<bool>, row: nat, rows: nat)
    requires AgreeOff(a, b, marks) && |a| == RowsLen(row, rows)
    ensures AgreeOff(FlipRows(a, row, rows), FlipRows(b, row, rows), FlipRows(marks, row, rows))
    decreases rows
  {
    if rows > 0 {
      var cut := RowsLen(row, rows - 1);
      FlipBeside(a[..cut], b[..cut], marks[..cut], row, rows - 1);
    }
  }

  /** The pixels of the finished image that derive from missed references. */
  function ImageMarks(data: seq<byte>, h: Header, f: Oracle, g: Oracle): (r: seq<bool>)
    requires HEADER_BYTES <= |data|
    ensures |r| == h.width * h.height
  {
    RowsLenIsProduct(h.width, h.height);
    var marks := Marks(data, h.imageId, f, g, HEADER_BYTES, State(Marked(h.width * h.height, false), 0));
    if h.topDown then marks else FlipRows(marks, h.width, h.height)
  }

  lemma {:induction false} FinishBeside(h: Header, a: seq<Pixel>, b: seq<Pixel>, marks: seq<bool>)
    requires RgbaLen(h.width, h.height).Some? && |a| == h.width * h.height && AgreeOff(a, b, marks)
    ensures Finish(h, a).Decoded? && Finish(h, b).Decoded?
    ensures RowsLen(h.width, h.height) == |marks|
    ensures AgreeOff(PixelsOf(Finish(h, a).image.pixels), PixelsOf(Finish(h, b).image.pixels),
                     if h.topDown then marks else FlipRows(marks, h.width, h.height))
  {
    hide AgreeOff, PixelsOf, BytesOf, FlipRows, RowsLen, RgbaLen;
    SameLengths(a, b, marks);
    FinishNeverRefuses(h, a);
    FinishNeverRefuses(h, b);
    RowsLenIsProduct(h.width, h.height);
    FlipBeside(a, b, marks, h.width, h.height);
    PixelsOfBytesOf(a);
    PixelsOfBytesOf(b);
    PixelsOfBytesOf(FlipRows(a, h.width, h.height));
    PixelsOfBytesOf(FlipRows(b, h.width, h.height));
  }

  /** Misses are confined: for an image whose references lie inside their sources, decoding with
      some lookups missing fails exactly when decoding with them found does, and otherwise gives
      the same image except at marked pixels. */
  lemma {:induction false} MissesConfined(data: seq<byte>, f: Oracle, g: Oracle)
    requires Misses(f, g) && ParseHeader(data).HeaderOk?
    requires var h := ParseHeader(data).header;
             && RgbaLen(h.width, h.height).Some?
             && Inside(ImageVisits(data, h, SizesOf(f)), h.imageId, SizesOf(f))
    ensures var a, b := Decode(data, f), Decode(data, g);
            && (a == Panicked <==> b == Panicked)
            && (a != Panicked ==>
                  && a.Decoded? && b.Decoded?
                  && a.image.(pixels := []) == b.image.(pixels := [])
                  && AgreeOff(PixelsOf(a.image.pixels), PixelsOf(b.image.pixels),
                              ImageMarks(data, ParseHeader(data).header, f, g)))
  {
    hide Misses, AgreeOff, PixelsOf, RunFrom, Visits, Inside, RgbaLen, Marks, FlipRows;
    var h := ParseHeader(data).header;
    var n := h.width * h.height;
    var s, t := Blank(n), State(Marked(n, false), 0);
    SameCanvas(s.canvas, t.canvas);
    MissesConfinedFrom(data, h.imageId, f, g, HEADER_BYTES, s, s, t);
    var e, e' := RunFrom(data, h.imageId, f, HEADER_BYTES, s), RunFrom(data, h.imageId, g, HEADER_BYTES, s);
    if e.Finished? {
      FinishBeside(h, e.state.canvas, e'.state.canvas, Marks(data, h.imageId, f, g, HEADER_BYTES, t));
    }
  }

  lemma {:induction false} SameCanvas(canvas: seq<Pixel>, marks: seq<bool>)
    requires |canvas| == |marks|
    ensures AgreeOff(canvas, canvas, marks)
  {
  }
}
