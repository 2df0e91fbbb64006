/** Many decoders at once over one shared dictionary, in every interleaving with inserts, removals,
    clearing and cap eviction. */
module GlzSystem {
  import opened Options
  import opened Bytes
  import opened GlzStream
  import opened GlzCanvas
  import opened ImageLimits
  import opened GlzDecoder
  import Lru
  import Dictionary = GlzDictionary

  /** What the lookups made so far came back with, by stream position. */
  type Answers = map<nat, Option<seq<byte>>>

  datatype Job = Job(data: seq<byte>, header: Header, pos: nat, state: State<Pixel>, answers: Answers)

  datatype Ended = Ended(data: seq<byte>, answers: Answers, result: DecodeResult)

  datatype Sys = Sys(dict: Dictionary.Dict, jobs: map<nat, Job>, ended: seq<Ended>)

  const START := Sys(Dictionary.EMPTY, map[], [])

  /** `Turn(k, found)` is one turn of decoder `k`; a lookup in it either finds what the dictionary
      holds at that moment or, `found` being false, comes back with nothing. */
  datatype Act =
    | Start(k: nat, data: seq<byte>)
    | TakeTurn(k: nat, found: bool)
    | End(k: nat)
    | Store(i: nat)
    | Server(op: Dictionary.Op)

  function Answer(entries: seq<Lru.Item>, found: bool): Oracle {
    (pos: nat, id: nat) => if found then Lru.Lookup(entries, id) else None
  }

  /** The id a turn at `pos` looks up, if it looks one up. */
  function LookupAt(data: seq<byte>, imageId: nat, pos: nat): Option<nat>
    requires pos < |data|
  {
    match ParseToken(data, pos)
    case Parsed(Reference(_, _, dist), _) => if dist == 0 then None else Some(SourceId(imageId, dist))
    case _ => None
  }

  predicate Going(j: Job) {
    j.state.out < |j.state.canvas| && j.pos < |j.data|
  }

  predicate ShapedJob(j: Job) {
    && ParseHeader(j.data) == HeaderOk(j.header) && RgbaLen(j.header.width, j.header.height).Some?
    && |j.state.canvas| == j.header.width * j.header.height
    && j.pos <= |j.data|
  }

  ghost predicate Shaped(s: Sys) {
    forall k :: k in s.jobs ==> ShapedJob(s.jobs[k])
  }

  function Begin(data: seq<byte>): Option<Job> {
    var parsed := ParseHeader(data);
    if parsed.HeaderErr? || RgbaLen(parsed.header.width, parsed.header.height).None? then None
    else Some(Job(data, parsed.header, HEADER_BYTES, Blank(parsed.header.width * parsed.header.height), map[]))
  }

  datatype Outcome = Fails | GoesOn(job: Job)

  /** One turn of a decoder; running out of stream is a turn to its end. */
  function Advance(j: Job, oracle: Oracle): Outcome
    requires Going(j)
  {
    var id := LookupAt(j.data, j.header.imageId, j.pos);
    var answers := if id.None? then j.answers else j.answers[j.pos := oracle(j.pos, id.value)];
    match TurnAt(j.data, j.header.imageId, oracle, j.pos, j.state)
    case Stops => GoesOn(j.(pos := |j.data|))
    case Faults => Fails
    case Continues(pos, state) => GoesOn(j.(pos := pos, state := state, answers := answers))
  }

  /** A lookup that finds an image also makes it the most recently used. */
  function Touched(d: Dictionary.Dict, capBytes: nat, maxEntries: nat, j: Job, found: bool): Dictionary.Dict
    requires Going(j)
  {
    var id := LookupAt(j.data, j.header.imageId, j.pos);
    if found && id.Some? then Dictionary.Apply(d, capBytes, maxEntries, Dictionary.Get(id.value)) else d
  }

  ghost function Next(s: Sys, capBytes: nat, maxEntries: nat, act: Act): Sys
    requires Shaped(s)
  {
    match act
    case Start(k, data) =>
      if k in s.jobs || Begin(data).None? then s else s.(jobs := s.jobs[k := Begin(data).value])
    case TakeTurn(k, found) =>
      if k !in s.jobs || !Going(s.jobs[k]) then s
      else
        var j := s.jobs[k];
        var outcome := Advance(j, Answer(s.dict.entries, found));
        if outcome.Fails? then s.(jobs := s.jobs - {k}, ended := s.ended + [Ended(j.data, j.answers, Panicked)])
        else s.(jobs := s.jobs[k := outcome.job], dict := Touched(s.dict, capBytes, maxEntries, j, found))
    case End(k) =>
      if k !in s.jobs || Going(s.jobs[k]) then s
      else
        var j := s.jobs[k];
        s.(jobs := s.jobs - {k}, ended := s.ended + [Ended(j.data, j.answers, Finish(j.header, j.state.canvas))])
    case Store(i) =>
      if i >= |s.ended| || !s.ended[i].result.Decoded? then s
      else
        var image := s.ended[i].result.image;
        s.(dict := Dictionary.Apply(s.dict, capBytes, maxEntries, Dictionary.Insert(image.imageId, image.pixels)))
    case Server(op) =>
      if op.Insert? then s else s.(dict := Dictionary.Apply(s.dict, capBytes, maxEntries, op))
  }

  lemma {:induction false} AdvanceShaped(j: Job, oracle: Oracle)
    requires ShapedJob(j) && Going(j)
    ensures var o := Advance(j, oracle);
            o.GoesOn? ==> ShapedJob(o.job) && o.job.data == j.data && o.job.header == j.header
  {
    hide ParseHeader, RgbaLen, TurnAt, LookupAt;
  }

  lemma {:induction false} NextShaped(s: Sys, capBytes: nat, maxEntries: nat, act: Act)
    requires Shaped(s)
    ensures Shaped(Next(s, capBytes, maxEntries, act))
  {
    hide ParseHeader, RgbaLen, ShapedJob, Advance, Dictionary.Apply, Touched, Begin;
    match act
    case Start(k, data) => if Begin(data).Some? { BeginShaped(data); }
    case TakeTurn(k, found) =>
      if k in s.jobs && Going(s.jobs[k]) { AdvanceShaped(s.jobs[k], Answer(s.dict.entries, found)); }
    case _ =>
  }

  lemma {:induction false} BeginShaped(data: seq<byte>)
    requires Begin(data).Some?
    ensures ShapedJob(Begin(data).value)
  {
  }

  /** The system after a sequence of acts. */
  ghost function After(capBytes: nat, maxEntries: nat, acts: seq<Act>): (s: Sys)
    ensures Shaped(s)
  {
    if acts == [] then START
    else
      var before := After(capBytes, maxEntries, acts[..|acts| - 1]);
      NextShaped(before, capBytes, maxEntries, acts[|acts| - 1]);
      Next(before, capBytes, maxEntries, acts[|acts| - 1])
  }

  // ----- Every interleaved decode is one sequential decode

  function Recorded(answers: Answers): Oracle {
    (pos: nat, id: nat) => if pos in answers then answers[pos] else None
  }

  ghost predicate Follows(o: Oracle, answers: Answers) {
    forall pos: nat, id: nat :: pos in answers ==> o(pos, id) == answers[pos]
  }

  /** With any lookups that answer as recorded, decoding from the beginning leads here. */
  ghost predicate Reached(j: Job) {
    && HEADER_BYTES <= |j.data| && j.pos <= |j.data|
    && (forall pos :: pos in j.answers ==> pos < j.pos)
    && forall o: Oracle :: Follows(o, j.answers) ==>
         RunFrom(j.data, j.header.imageId, o, HEADER_BYTES, Blank(|j.state.canvas|))
         == RunFrom(j.data, j.header.imageId, o, j.pos, j.state)
  }

  ghost predicate Sequential(e: Ended) {
    e.result == Decode(e.data, Recorded(e.answers))
  }

  ghost predicate Linear(s: Sys) {
    && (forall k :: k in s.jobs ==> Reached(s.jobs[k]))
    && (forall i :: 0 <= i < |s.ended| ==> Sequential(s.ended[i]))
  }

  /** A turn depends on the lookups only through the one answer it uses. */
  lemma {:induction false} TurnUsesOneAnswer(data: seq<byte>, imageId: nat, o: Oracle, o': Oracle, pos: nat,
                                             s: State<Pixel>)
    requires pos < |data| && s.out < |s.canvas|
    requires var id := LookupAt(data, imageId, pos); id.Some? ==> o(pos, id.value) == o'(pos, id.value)
    ensures TurnAt(data, imageId, o, pos, s) == TurnAt(data, imageId, o', pos, s)
  {
    hide Apply, ParseToken;
  }

  lemma {:induction false} FollowsFewer(o: Oracle, answers: Answers, pos: nat, a: Option<seq<byte>>)
    requires Follows(o, answers[pos := a]) && pos !in answers
    ensures Follows(o, answers) && forall id: nat :: o(pos, id) == a
  {
    forall p: nat, id: nat | p in answers ensures o(p, id) == answers[p] {
      assert p in answers[pos := a] && answers[pos := a][p] == answers[p];
    }
    assert pos in answers[pos := a];
  }

  lemma {:induction false} AdvanceReached(j: Job, oracle: Oracle)
    requires Reached(j) && Going(j)
    ensures var o := Advance(j, oracle); o.GoesOn? ==> Reached(o.job)
  {
    hide RunFrom, TurnAt, LookupAt, Follows;
    var out := Advance(j, oracle);
    if out.GoesOn? {
      var j', start := out.job, Blank(|j.state.canvas|);
      forall o: Oracle | Follows(o, j'.answers)
        ensures RunFrom(j.data, j.header.imageId, o, HEADER_BYTES, start)
                == RunFrom(j.data, j.header.imageId, o, j'.pos, j'.state)
      {
        AdvanceStep(j, oracle, o);
      }
    }
  }

  lemma {:induction false} AdvanceStep(j: Job, oracle: Oracle, o: Oracle)
    requires Going(j) && j.pos !in j.answers && Advance(j, oracle).GoesOn? && Follows(o, Advance(j, oracle).job.answers)
    ensures Follows(o, j.answers)
    ensures RunFrom(j.data, j.header.imageId, o, j.pos, j.state)
            == RunFrom(j.data, j.header.imageId, o, Advance(j, oracle).job.pos, Advance(j, oracle).job.state)
  {
    hide RunFrom, TurnAt, LookupAt, Follows;
    var id, j' := LookupAt(j.data, j.header.imageId, j.pos), Advance(j, oracle).job;
    var t := TurnAt(j.data, j.header.imageId, oracle, j.pos, j.state);
    if t.Stops? {
      StopsForAll(j.data, j.header.imageId, oracle, o, j.pos, j.state);
      RunStops(j.data, j.header.imageId, o, j.pos, j.state);
      RunStops(j.data, j.header.imageId, o, |j.data|, j.state);
    } else {
      if id.Some? { FollowsFewer(o, j.answers, j.pos, oracle(j.pos, id.value)); }
      TurnUsesOneAnswer(j.data, j.header.imageId, oracle, o, j.pos, j.state);
      RunUnfolds(j.data, j.header.imageId, o, j.pos, j.state);
    }
  }

  lemma {:induction false} StopsForAll(data: seq<byte>, imageId: nat, o: Oracle, o': Oracle, pos: nat, s: State<Pixel>)
    requires pos < |data| && s.out < |s.canvas| && TurnAt(data, imageId, o, pos, s) == Stops
    ensures TurnAt(data, imageId, o', pos, s) == Stops
  {
    hide Apply, ParseToken;
  }

  lemma {:induction false} RecordedFollows(answers: Answers)
    ensures Follows(Recorded(answers), answers)
  {
  }

  /** A failing turn makes no lookup, so the record so far already decides it. */
  lemma {:induction false} FailureSequential(j: Job, oracle: Oracle)
    requires ShapedJob(j) && Reached(j) && Going(j) && Advance(j, oracle) == Fails
    ensures Sequential(Ended(j.data, j.answers, Panicked))
  {
    hide RunFrom, TurnAt, LookupAt, Follows, ParseHeader, RgbaLen, Finish, Recorded;
    var o := Recorded(j.answers);
    RecordedFollows(j.answers);
    FaultsMakeNoLookup(j.data, j.header.imageId, oracle, j.pos, j.state);
    TurnUsesOneAnswer(j.data, j.header.imageId, oracle, o, j.pos, j.state);
    RunUnfolds(j.data, j.header.imageId, o, j.pos, j.state);
  }

  lemma {:induction false} FaultsMakeNoLookup(data: seq<byte>, imageId: nat, o: Oracle, pos: nat, s: State<Pixel>)
    requires pos < |data| && s.out < |s.canvas| && TurnAt(data, imageId, o, pos, s) == Faults
    ensures LookupAt(data, imageId, pos).None?
  {
    hide ParseToken;
  }

  lemma {:induction false} EndSequential(j: Job)
    requires ShapedJob(j) && Reached(j) && !Going(j)
    ensures Sequential(Ended(j.data, j.answers, Finish(j.header, j.state.canvas)))
  {
    hide RunFrom, Follows, ParseHeader, RgbaLen, Finish, Recorded;
    RecordedFollows(j.answers);
    RunStops(j.data, j.header.imageId, Recorded(j.answers), j.pos, j.state);
  }

  lemma {:induction false} BeginReached(data: seq<byte>)
    requires Begin(data).Some?
    ensures Reached(Begin(data).value)
  {
    hide RunFrom, Follows;
  }

  lemma {:induction false} NextLinear(s: Sys, capBytes: nat, maxEntries: nat, act: Act)
    requires Shaped(s) && Linear(s)
    ensures Linear(Next(s, capBytes, maxEntries, act))
  {
    hide Reached, Sequential, ShapedJob, Advance, Going, Dictionary.Apply, Touched, Begin, Finish;
    match act
    case Start(k, data) => if Begin(data).Some? { BeginReached(data); }
    case TakeTurn(k, found) =>
      if k in s.jobs && Going(s.jobs[k]) {
        var oracle := Answer(s.dict.entries, found);
        AdvanceReached(s.jobs[k], oracle);
        if Advance(s.jobs[k], oracle).Fails? { FailureSequential(s.jobs[k], oracle); }
      }
    case End(k) => if k in s.jobs && !Going(s.jobs[k]) { EndSequential(s.jobs[k]); }
    case _ =>
  }

  /** Whatever else happens in between, a decode that ends has the result of decoding its data
      alone with the answers its lookups got; so all that holds of decoding holds here. */
  lemma {:induction false} InterleavingsAreSequential(capBytes: nat, maxEntries: nat, acts: seq<Act>)
    ensures Linear(After(capBytes, maxEntries, acts))
  {
    if acts != [] {
      InterleavingsAreSequential(capBytes, maxEntries, acts[..|acts| - 1]);
      NextLinear(After(capBytes, maxEntries, acts[..|acts| - 1]), capBytes, maxEntries, acts[|acts| - 1]);
    }
  }

  // ----- Every pixel is opaque or blank

  predicate Good(p: Pixel) {
    p == Pixel(0, 0, 0, 0) || p.a == 255
  }

  ghost predicate AllGood(ps: seq<Pixel>) {
    forall i :: 0 <= i < |ps| ==> Good(ps[i])
  }

  ghost predicate OpaqueOrBlank(s: Sys) {
    && (forall x :: x in s.dict.entries ==> AllGood(PixelsOf(x.value)))
    && (forall k :: k in s.jobs ==> AllGood(s.jobs[k].state.canvas))
    && (forall i :: 0 <= i < |s.ended| && s.ended[i].result.Decoded? ==>
          AllGood(PixelsOf(s.ended[i].result.image.pixels)))
  }

  lemma {:induction false} ApplyGood(s: State<Pixel>, e: Edit<Pixel>)
    requires AllGood(s.canvas) && (e.Write? ==> AllGood(e.pixels))
    ensures var effect := Apply(s, e);
            (!e.CopyBack? ==> effect.Leaves?) && (effect.Leaves? ==> AllGood(effect.state.canvas))
  {
    hide PeriodicIndex;
    if e.CopyBack? && 1 <= e.distance <= s.out <= |s.canvas| {
      var m := Min(e.length, Room(s));
      forall i | 0 <= i < |s.canvas| ensures Good(CopyFrom(s.canvas, s.out, e.distance, m)[i]) {
        CopyIsPeriodic(s.canvas, s.out, e.distance, m, i);
      }
    }
  }

  lemma {:induction false} LiteralsGood(data: seq<byte>, p: nat, m: nat)
    requires p + 3 * m <= |data|
    ensures AllGood(LiteralPixels(data, p, m))
  {
  }

  lemma {:induction false} SliceGood(ps: seq<Pixel>, offset: nat, length: nat)
    requires AllGood(ps)
    ensures AllGood(Slice(ps, offset, length))
  {
  }

  lemma {:induction false} TurnGood(data: seq<byte>, imageId: nat, o: Oracle, pos: nat, s: State<Pixel>)
    requires pos < |data| && s.out < |s.canvas| && AllGood(s.canvas)
    requires var id := LookupAt(data, imageId, pos);
             id.Some? && o(pos, id.value).Some? ==> AllGood(PixelsOf(o(pos, id.value).value))
    ensures var t := TurnAt(data, imageId, o, pos, s); t.Continues? ==> AllGood(t.state.canvas)
  {
    hide Apply, AllGood, PixelsOf, LiteralPixels, Slice, ParseToken;
    match ParseToken(data, pos) {
      case Truncated =>
      case Parsed(Literal(count), next) =>
        var m := LiteralRun(data, next, count, Room(s));
        LiteralsGood(data, next, m);
        ApplyGood(s, Write(LiteralPixels(data, next, m)));
      case Parsed(Reference(length, offset, dist), next) =>
        var e := ReferenceEdit(imageId, o, pos, length, offset, dist);
        if e.Write? { SliceGood(PixelsOf(o(pos, SourceId(imageId, dist)).value), offset, length); }
        ApplyGood(s, e);
    }
  }

  lemma {:induction false} FlipGood(ps: seq<Pixel>, row: nat, rows: nat)
    requires |ps| == RowsLen(row, rows) && AllGood(ps)
    ensures AllGood(FlipRows(ps, row, rows))
  {
    FlipPermutes(ps, row, rows);
    var r := FlipRows(ps, row, rows);
    forall i | 0 <= i < |r| ensures Good(r[i]) {
      assert r[i] in multiset(r);
      assert r[i] in ps;
    }
  }

  lemma {:induction false} FinishGood(h: Header, canvas: seq<Pixel>)
    requires |canvas| == h.width * h.height && AllGood(canvas)
    ensures Finish(h, canvas).Decoded? ==> AllGood(PixelsOf(Finish(h, canvas).image.pixels))
  {
    hide AllGood, PixelsOf, BytesOf, FlipRows, RowsLen;
    RowsLenIsProduct(h.width, h.height);
    FlipGood(canvas, h.width, h.height);
    PixelsOfBytesOf(canvas);
    PixelsOfBytesOf(FlipRows(canvas, h.width, h.height));
  }

  /** The dictionary never holds anything but what was in it or was just put in. */
  lemma {:induction false} DictionaryMembers(d: Dictionary.Dict, capBytes: nat, maxEntries: nat, op: Dictionary.Op)
    ensures forall x :: x in Dictionary.Apply(d, capBytes, maxEntries, op).entries ==>
                          x in d.entries || (op.Insert? && x == Lru.Item(op.id, op.pixels))
  {
    hide Lru.Trim, Lru.Trimmed, Lru.Put, Lru.Lookup, Lru.Without, Lru.Retain;
    match op
    case Insert(id, pixels) =>
      Lru.TrimIsLongestPrefix(Lru.Put(d.entries, id, pixels), capBytes, maxEntries);
      Dictionary.PutMembers(d.entries, id, pixels);
    case Remove(id) => Lru.WithoutMeans(d.entries, id);
    case EvictOlderThan(oldest) => Lru.RetainMeans(d.entries, Dictionary.AtLeast(oldest));
    case Clear =>
    case Get(id) =>
      Lru.LookupMeans(d.entries, id);
      if Lru.Lookup(d.entries, id).Some? { Dictionary.PutMembers(d.entries, id, Lru.Lookup(d.entries, id).value); }
  }

  lemma {:induction false} AdvanceGood(s: Sys, j: Job, found: bool)
    requires OpaqueOrBlank(s) && Going(j) && AllGood(j.state.canvas)
    ensures var o := Advance(j, Answer(s.dict.entries, found)); o.GoesOn? ==> AllGood(o.job.state.canvas)
  {
    hide AllGood, TurnAt, LookupAt, PixelsOf, Lru.Lookup;
    var id := LookupAt(j.data, j.header.imageId, j.pos);
    if id.Some? { Lru.LookupMeans(s.dict.entries, id.value); }
    TurnGood(j.data, j.header.imageId, Answer(s.dict.entries, found), j.pos, j.state);
  }

  lemma {:induction false} NextOpaque(s: Sys, capBytes: nat, maxEntries: nat, act: Act)
    requires Shaped(s) && OpaqueOrBlank(s)
    ensures OpaqueOrBlank(Next(s, capBytes, maxEntries, act))
  {
    hide AllGood, PixelsOf, Advance, Dictionary.Apply, Finish, LookupAt, ParseHeader, RgbaLen;
    match act
    case Start(k, data) => if Begin(data).Some? { BlankGood(|Begin(data).value.state.canvas|); }
    case TakeTurn(k, found) =>
      if k in s.jobs && Going(s.jobs[k]) {
        AdvanceGood(s, s.jobs[k], found);
        var id := LookupAt(s.jobs[k].data, s.jobs[k].header.imageId, s.jobs[k].pos);
        if id.Some? { DictionaryMembers(s.dict, capBytes, maxEntries, Dictionary.Get(id.value)); }
      }
    case End(k) => if k in s.jobs && !Going(s.jobs[k]) { FinishGood(s.jobs[k].header, s.jobs[k].state.canvas); }
    case Store(i) =>
      if i < |s.ended| && s.ended[i].result.Decoded? {
        var image := s.ended[i].result.image;
        DictionaryMembers(s.dict, capBytes, maxEntries, Dictionary.Insert(image.imageId, image.pixels));
      }
    case Server(op) => if !op.Insert? { DictionaryMembers(s.dict, capBytes, maxEntries, op); }
  }

  lemma {:induction false} BlankGood(n: nat)
    ensures AllGood(Blank(n).canvas)
  {
  }

  /** Starting from an empty dictionary, every decoded or stored pixel is all zero or opaque. */
  lemma {:induction false} PixelsOpaqueOrBlank(capBytes: nat, maxEntries: nat, acts: seq<Act>)
    ensures OpaqueOrBlank(After(capBytes, maxEntries, acts))
  {
    if acts != [] {
      PixelsOpaqueOrBlank(capBytes, maxEntries, acts[..|acts| - 1]);
      NextOpaque(After(capBytes, maxEntries, acts[..|acts| - 1]), capBytes, maxEntries, acts[|acts| - 1]);
    }
  }

  // ----- Every answer is a decoded image

  /** Some decode that has ended produced this image. */
  ghost predicate DecodedHere(s: Sys, id: nat, pixels: seq<byte>) {
    exists i :: 0 <= i < |s.ended| && s.ended[i].result.Decoded?
                && s.ended[i].result.image.imageId == id && s.ended[i].result.image.pixels == pixels
  }

  /** Each image a lookup came back with was decoded under the id that the reference names. */
  ghost predicate AnswersDecoded(s: Sys, data: seq<byte>, imageId: nat, answers: Answers) {
    forall pos :: pos in answers && answers[pos].Some? ==>
      pos < |data| && LookupAt(data, imageId, pos).Some?
      && DecodedHere(s, LookupAt(data, imageId, pos).value, answers[pos].value)
  }

  ghost predicate Traced(s: Sys) {
    && (forall x :: x in s.dict.entries ==> DecodedHere(s, x.key, x.value))
    && (forall k :: k in s.jobs ==> AnswersDecoded(s, s.jobs[k].data, s.jobs[k].header.imageId, s.jobs[k].answers))
    && (forall i :: 0 <= i < |s.ended| ==> EndedTraced(s, s.ended[i]))
  }

  ghost predicate EndedTraced(s: Sys, e: Ended) {
    ParseHeader(e.data).HeaderOk? && AnswersDecoded(s, e.data, ParseHeader(e.data).header.imageId, e.answers)
  }

  lemma {:induction false} StillDecoded(s: Sys, t: Sys, id: nat, pixels: seq<byte>)
    requires s.ended <= t.ended && DecodedHere(s, id, pixels)
    ensures DecodedHere(t, id, pixels)
  {
    var i :| 0 <= i < |s.ended| && s.ended[i].result.Decoded?
             && s.ended[i].result.image.imageId == id && s.ended[i].result.image.pixels == pixels;
    assert t.ended[i] == s.ended[i];
  }

  lemma {:induction false} StillAnswered(s: Sys, t: Sys, data: seq<byte>, imageId: nat, answers: Answers)
    requires s.ended <= t.ended && AnswersDecoded(s, data, imageId, answers)
    ensures AnswersDecoded(t, data, imageId, answers)
  {
    hide DecodedHere, LookupAt;
    forall pos | pos in answers && answers[pos].Some?
      ensures pos < |data| && LookupAt(data, imageId, pos).Some?
              && DecodedHere(t, LookupAt(data, imageId, pos).value, answers[pos].value)
    {
      StillDecoded(s, t, LookupAt(data, imageId, pos).value, answers[pos].value);
    }
  }

  /** What was traced stays so as more decodes end. */
  lemma {:induction false} StillTraced(s: Sys, t: Sys)
    requires Traced(s) && s.ended <= t.ended
    ensures forall x :: x in s.dict.entries ==> DecodedHere(t, x.key, x.value)
    ensures forall k :: k in s.jobs ==> AnswersDecoded(t, s.jobs[k].data, s.jobs[k].header.imageId, s.jobs[k].answers)
    ensures forall i :: 0 <= i < |s.ended| ==> EndedTraced(t, s.ended[i])
  {
    hide DecodedHere, AnswersDecoded, ParseHeader;
    forall x | x in s.dict.entries ensures DecodedHere(t, x.key, x.value) {
      StillDecoded(s, t, x.key, x.value);
    }
    forall k | k in s.jobs
      ensures AnswersDecoded(t, s.jobs[k].data, s.jobs[k].header.imageId, s.jobs[k].answers)
    {
      StillAnswered(s, t, s.jobs[k].data, s.jobs[k].header.imageId, s.jobs[k].answers);
    }
    forall i | 0 <= i < |s.ended| ensures EndedTraced(t, s.ended[i]) {
      assert EndedTraced(s, s.ended[i]);
      var e := s.ended[i];
      StillAnswered(s, t, e.data, ParseHeader(e.data).header.imageId, e.answers);
    }
  }

  /** A turn's answer is what is stored under the id its reference names. */
  lemma {:induction false} AdvanceTraced(s: Sys, j: Job, found: bool)
    requires Traced(s) && Going(j) && AnswersDecoded(s, j.data, j.header.imageId, j.answers)
    ensures var o := Advance(j, Answer(s.dict.entries, found));
            o.GoesOn? ==>
              && o.job.data == j.data && o.job.header == j.header
              && AnswersDecoded(s, j.data, j.header.imageId, o.job.answers)
  {
    hide DecodedHere, TurnAt, LookupAt, Lru.Lookup;
    var id := LookupAt(j.data, j.header.imageId, j.pos);
    if id.Some? { Lru.LookupMeans(s.dict.entries, id.value); }
  }

  lemma {:induction false} NextTraced(s: Sys, capBytes: nat, maxEntries: nat, act: Act)
    requires Shaped(s) && Traced(s)
    ensures Traced(Next(s, capBytes, maxEntries, act))
  {
    hide DecodedHere, AnswersDecoded, Advance, Dictionary.Apply, Finish, LookupAt, ParseHeader, RgbaLen;
    var t := Next(s, capBytes, maxEntries, act);
    StillTraced(s, t);
    match act
    case Start(k, data) => if Begin(data).Some? { NothingAsked(t, Begin(data).value); }
    case TakeTurn(k, found) =>
      if k in s.jobs && Going(s.jobs[k]) {
        var j := s.jobs[k];
        AdvanceTraced(s, j, found);
        var o := Advance(j, Answer(s.dict.entries, found));
        if o.GoesOn? { StillAnswered(s, t, j.data, j.header.imageId, o.job.answers); }
        var id := LookupAt(j.data, j.header.imageId, j.pos);
        if id.Some? { DictionaryMembers(s.dict, capBytes, maxEntries, Dictionary.Get(id.value)); }
      }
    case End(k) =>
    case Store(i) =>
      if i < |s.ended| && s.ended[i].result.Decoded? {
        var image := s.ended[i].result.image;
        DictionaryMembers(s.dict, capBytes, maxEntries, Dictionary.Insert(image.imageId, image.pixels));
        ItsOwn(t, i);
      }
    case Server(op) => if !op.Insert? { DictionaryMembers(s.dict, capBytes, maxEntries, op); }
  }

  lemma {:induction false} NothingAsked(s: Sys, j: Job)
    requires j.answers == map[]
    ensures AnswersDecoded(s, j.data, j.header.imageId, j.answers)
  {
  }

  lemma {:induction false} ItsOwn(s: Sys, i: nat)
    requires i < |s.ended| && s.ended[i].result.Decoded?
    ensures DecodedHere(s, s.ended[i].result.image.imageId, s.ended[i].result.image.pixels)
  {
  }

  /** In every interleaving each stored image is a decoded one under its own id, and each image a
      lookup came back with was decoded under the id that its reference names. */
  lemma {:induction false} AnswersAreDecodedImages(capBytes: nat, maxEntries: nat, acts: seq<Act>)
    ensures Traced(After(capBytes, maxEntries, acts))
  {
    if acts != [] {
      AnswersAreDecodedImages(capBytes, maxEntries, acts[..|acts| - 1]);
      NextTraced(After(capBytes, maxEntries, acts[..|acts| - 1]), capBytes, maxEntries, acts[|acts| - 1]);
    }
  }
}
