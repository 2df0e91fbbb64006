/** Inserts that overlap: each takes the images' lock and later the tombstones' lock, and anything may
    happen in between. */
module GlzInserts {
  import opened Bytes
  import opened Lru
  import opened GlzDictionary

  /** An insert between its two locks: its id and what it evicted. */
  datatype Pending = Pending(id: nat, evicted: seq<nat>)

  datatype Sys = Sys(dict: Dict, pending: seq<Pending>)

  const START := Sys(EMPTY, [])

  /** `Images` is the first half of an insert, `Tombstones(i)` the second half of the `i`th that waits
      for it; `Other` is any operation that is not an insert. */
  datatype Act = Images(id: nat, pixels: seq<byte>) | Tombstones(i: nat) | Other(op: Op)

  function EvictedBy(d: Dict, capBytes: nat, maxEntries: nat, id: nat, pixels: seq<byte>): seq<nat> {
    if |pixels| > capBytes then [] else Evicts(d, capBytes, maxEntries, id, pixels)
  }

  function ImagesHalf(d: Dict, capBytes: nat, maxEntries: nat, id: nat, pixels: seq<byte>): Dict {
    if |pixels| > capBytes then d
    else
      ImagesStep(d, capBytes, maxEntries, id, pixels).(
        fate := FateAfterInsert(d.fate, id, Evicts(d, capBytes, maxEntries, id, pixels)))
  }

  function Next(s: Sys, capBytes: nat, maxEntries: nat, x: Act): Sys {
    match x
    case Images(id, pixels) =>
      Sys(ImagesHalf(s.dict, capBytes, maxEntries, id, pixels),
          s.pending + [Pending(id, EvictedBy(s.dict, capBytes, maxEntries, id, pixels))])
    case Tombstones(i) =>
      if i >= |s.pending| then s
      else
        var p := s.pending[i];
        Sys(TombstonesStep(s.dict, p.id, p.evicted), s.pending[..i] + s.pending[i + 1..])
    case Other(op) => if op.Insert? then s else s.(dict := Apply(s.dict, capBytes, maxEntries, op))
  }

  function After(capBytes: nat, maxEntries: nat, acts: seq<Act>): Sys {
    if acts == [] then START
    else Next(After(capBytes, maxEntries, acts[..|acts| - 1]), capBytes, maxEntries, acts[|acts| - 1])
  }

  // ----- In turn: overlapping does not matter

  /** The tombstones once every waiting insert has had its second half, in order. */
  function SettledIds(ids: seq<nat>, pending: seq<Pending>): seq<nat> {
    if pending == [] then ids
    else
      var p := pending[|pending| - 1];
      DropId(BuryAll(SettledIds(ids, pending[..|pending| - 1]), p.evicted), p.id)
  }

  function Settled(s: Sys): Dict {
    s.dict.(tombstones := SettledIds(s.dict.tombstones, s.pending))
  }

  lemma {:induction false} SettleFirst(ids: seq<nat>, pending: seq<Pending>)
    requires pending != []
    ensures SettledIds(DropId(BuryAll(ids, pending[0].evicted), pending[0].id), pending[1..])
            == SettledIds(ids, pending)
    decreases |pending|
  {
    var n := |pending| - 1;
    if n > 0 {
      SettleFirst(ids, pending[..n]);
      assert pending[..n][1..] == pending[1..][..n - 1];
    }
  }

  /** What an act does to a dictionary whose inserts are single steps. */
  function Atomically(d: Dict, capBytes: nat, maxEntries: nat, x: Act): Dict {
    match x
    case Images(id, pixels) => Apply(d, capBytes, maxEntries, Insert(id, pixels))
    case Tombstones(_) => d
    case Other(op) => if op.Insert? then d else Apply(d, capBytes, maxEntries, op)
  }

  /** If the second halves come in the order of the first, each act does to the settled dictionary
      what it does to one whose inserts are single steps. */
  lemma {:induction false} InTurnIsAtomic(s: Sys, capBytes: nat, maxEntries: nat, x: Act)
    requires x.Tombstones? ==> x.i == 0
    ensures Settled(Next(s, capBytes, maxEntries, x)) == Atomically(Settled(s), capBytes, maxEntries, x)
  {
    hide DropId, BuryAll, Trim, Trimmed, Put, Has, Retain, Without, Lookup;
    match x
    case Images(id, pixels) =>
      var p := Pending(id, EvictedBy(s.dict, capBytes, maxEntries, id, pixels));
      assert (s.pending + [p])[..|s.pending|] == s.pending;
      NothingBuried(SettledIds(s.dict.tombstones, s.pending));
    case Tombstones(i) =>
      if s.pending != [] {
        SettleFirst(s.dict.tombstones, s.pending);
        assert s.pending[..0] + s.pending[1..] == s.pending[1..];
      }
    case Other(op) =>
  }

  lemma {:induction false} NothingBuried(ids: seq<nat>)
    ensures BuryAll(ids, []) == ids
  {
  }

  /** The operations a run performs, an insert counting from its first half. */
  function OpsOf(acts: seq<Act>): seq<Op> {
    if acts == [] then []
    else
      OpsOf(acts[..|acts| - 1])
      + match acts[|acts| - 1]
        case Images(id, pixels) => [Insert(id, pixels)]
        case Tombstones(_) => []
        case Other(op) => if op.Insert? then [] else [op]
  }

  predicate InTurn(acts: seq<Act>) {
    forall i :: 0 <= i < |acts| ==> acts[i].Tombstones? ==> acts[i].i == 0
  }

  lemma {:induction false} AfterSnoc(capBytes: nat, maxEntries: nat, ops: seq<Op>, op: Op)
    ensures GlzDictionary.After(capBytes, maxEntries, ops + [op])
            == Apply(GlzDictionary.After(capBytes, maxEntries, ops), capBytes, maxEntries, op)
  {
    hide Apply;
    assert (ops + [op])[..|ops|] == ops;
  }

  /** Over whole runs: with the second halves in turn, the settled dictionary is that of the same
      operations one after the other; so whenever no insert is waiting it is sound. */
  lemma {:induction false} InTurnRunsAreAtomic(capBytes: nat, maxEntries: nat, acts: seq<Act>)
    requires InTurn(acts) && 0 < maxEntries
    ensures var s := After(capBytes, maxEntries, acts);
            && Settled(s) == GlzDictionary.After(capBytes, maxEntries, OpsOf(acts))
            && (s.pending == [] ==> Sound(s.dict))
  {
    InTurnSettles(capBytes, maxEntries, acts);
    TombstonesSound(capBytes, maxEntries, OpsOf(acts));
  }

  lemma {:induction false} InTurnSettles(capBytes: nat, maxEntries: nat, acts: seq<Act>)
    requires InTurn(acts)
    ensures Settled(After(capBytes, maxEntries, acts)) == GlzDictionary.After(capBytes, maxEntries, OpsOf(acts))
  {
    if acts != [] {
      hide Apply, Settled, Next;
      var init, x := acts[..|acts| - 1], acts[|acts| - 1];
      InTurnSettles(capBytes, maxEntries, init);
      InTurnIsAtomic(After(capBytes, maxEntries, init), capBytes, maxEntries, x);
      match x
      case Images(id, pixels) => AfterSnoc(capBytes, maxEntries, OpsOf(init), Insert(id, pixels));
      case Tombstones(_) => assert OpsOf(init) + [] == OpsOf(init);
      case Other(op) =>
        if op.Insert? {
          assert OpsOf(init) + [] == OpsOf(init);
        } else {
          AfterSnoc(capBytes, maxEntries, OpsOf(init), op);
        }
    } else {
      NothingSettles();
    }
  }

  lemma {:induction false} NothingSettles()
    ensures Settled(START) == EMPTY
  {
  }

  // ----- In any order: the last halves that name an id decide

  /** Whether the last act on the images that names `id` stored it. */
  predicate Live(capBytes: nat, maxEntries: nat, acts: seq<Act>, id: nat) {
    if acts == [] then false
    else
      var init, x := acts[..|acts| - 1], acts[|acts| - 1];
      var before := Live(capBytes, maxEntries, init, id);
      match x
      case Images(k, pixels) =>
        if |pixels| > capBytes then before
        else
          k == id
          || (before && id !in Evicts(After(capBytes, maxEntries, init).dict, capBytes, maxEntries, k, pixels))
      case Tombstones(_) => before
      case Other(Remove(k)) => before && k != id
      case Other(EvictOlderThan(oldest)) => before && id >= oldest
      case Other(Clear) => false
      case Other(_) => before
  }

  /** Whether the last second half that names `id` buried it. */
  predicate Buried(capBytes: nat, maxEntries: nat, acts: seq<Act>, id: nat) {
    if acts == [] then false
    else
      var init, x := acts[..|acts| - 1], acts[|acts| - 1];
      var s, before := After(capBytes, maxEntries, init), Buried(capBytes, maxEntries, init, id);
      if x.Tombstones? && x.i < |s.pending| then
        s.pending[x.i].id != id && (id in s.pending[x.i].evicted || before)
      else before
  }

  lemma {:induction false} EntriesDistinct(capBytes: nat, maxEntries: nat, acts: seq<Act>)
    requires 0 < maxEntries
    ensures DistinctKeys(After(capBytes, maxEntries, acts).dict.entries)
  {
    if acts != [] {
      hide DistinctKeys, Trim, Put, Trimmed, Without, Retain, Lookup;
      var init, x := acts[..|acts| - 1], acts[|acts| - 1];
      EntriesDistinct(capBytes, maxEntries, init);
      var d := After(capBytes, maxEntries, init).dict;
      match x
      case Images(id, pixels) => if |pixels| <= capBytes { InsertLiveness(d, capBytes, maxEntries, id, pixels); }
      case Tombstones(_) =>
      case Other(op) => OtherDistinct(d, capBytes, maxEntries, op);
    } else {
      NothingFits(capBytes, maxEntries);
    }
  }

  lemma {:induction false} OtherDistinct(d: Dict, capBytes: nat, maxEntries: nat, op: Op)
    requires DistinctKeys(d.entries)
    ensures !op.Insert? ==> DistinctKeys(Apply(d, capBytes, maxEntries, op).entries)
  {
    hide DistinctKeys, Put, Without, Retain, Lookup;
    match op
    case Insert(_, _) =>
    case Remove(id) => WithoutDistinct(d.entries, id);
    case EvictOlderThan(oldest) => RetainShrinks(d.entries, AtLeast(oldest));
    case Clear => NothingFits(capBytes, maxEntries);
    case Get(id) =>
      if Lookup(d.entries, id).Some? { PutDistinct(d.entries, id, Lookup(d.entries, id).value); }
  }

  /** What an operation other than an insert does to liveness. */
  lemma {:induction false} OtherLiveness(d: Dict, capBytes: nat, maxEntries: nat, op: Op, id: nat)
    requires !op.Insert?
    ensures Has(Apply(d, capBytes, maxEntries, op).entries, id)
            <==> Has(d.entries, id)
                 && !op.Clear? && (op.Remove? ==> op.id != id) && (op.EvictOlderThan? ==> id >= op.oldest)
  {
    hide Has, Put, Without, Retain, Lookup;
    var after := Apply(d, capBytes, maxEntries, op).entries;
    HasMember(d.entries, id);
    HasMember(after, id);
    match op
    case Remove(k) => WithoutMeans(d.entries, k);
    case EvictOlderThan(oldest) => RetainMeans(d.entries, AtLeast(oldest));
    case Clear =>
    case Get(k) =>
      LookupMeans(d.entries, k);
      if Lookup(d.entries, k).Some? { TouchKeeps(d.entries, k, Lookup(d.entries, k).value, id); }
  }

  lemma {:induction false} TouchKeeps(s: seq<Item>, key: nat, value: seq<byte>, id: nat)
    requires Item(key, value) in s
    ensures Has(Put(s, key, value), id) <==> Has(s, id)
  {
    hide Has, Put, Without;
    var put := Put(s, key, value);
    PutFront(s, key, value);
    WithoutMeans(s, key);
    HasMember(s, id);
    HasMember(put, id);
    if id == key {
      assert put[0] == Item(key, value) && put[0] in put;
    } else if Has(s, id) {
      PutKeeps(s, key, value, id);
    }
  }

  /** What stays after the first half of an insert: its id, and what was live and not evicted. */
  lemma {:induction false} ImagesLiveness(d: Dict, capBytes: nat, maxEntries: nat, k: nat, pixels: seq<byte>, id: nat)
    requires DistinctKeys(d.entries) && |pixels| <= capBytes && 0 < maxEntries
    ensures Has(ImagesHalf(d, capBytes, maxEntries, k, pixels).entries, id)
            <==> k == id || (Has(d.entries, id) && id !in Evicts(d, capBytes, maxEntries, k, pixels))
  {
    hide Has, Trim, Trimmed, Put, DistinctKeys;
    InsertLiveness(d, capBytes, maxEntries, k, pixels);
    if k != id && Has(d.entries, id) && id !in Evicts(d, capBytes, maxEntries, k, pixels) {
      PutKeeps(d.entries, k, pixels, id);
      TrimKeepsOrEvicts(Put(d.entries, k, pixels), capBytes, maxEntries, id);
    }
  }

  lemma {:induction false} PutKeeps(s: seq<Item>, key: nat, value: seq<byte>, id: nat)
    requires Has(s, id) && id != key
    ensures Has(Put(s, key, value), id)
  {
    hide Has, Put, Without;
    HasMember(s, id);
    HasMember(Put(s, key, value), id);
    WithoutMeans(s, key);
    PutFront(s, key, value);
  }

  lemma {:induction false} PutFront(s: seq<Item>, key: nat, value: seq<byte>)
    ensures Put(s, key, value) == [Item(key, value)] + Without(s, key)
  {
  }

  lemma {:induction false} TrimKeepsOrEvicts(put: seq<Item>, capBytes: nat, maxEntries: nat, id: nat)
    requires Has(put, id)
    ensures Has(Trim(put, capBytes, maxEntries), id) || id in Trimmed(put, capBytes, maxEntries)
  {
    hide Trim, Trimmed;
    TrimmedKeys(put, capBytes, maxEntries);
    var kept, evicted := Trim(put, capBytes, maxEntries), Trimmed(put, capBytes, maxEntries);
    var i :| 0 <= i < |put| && put[i].key == id;
    if i < |kept| {
      assert kept[i].key == id;
    } else {
      assert evicted[|put| - 1 - i] == id;
    }
  }

  /** An id is live exactly if the last act on the images that names it stored it. */
  lemma {:induction false} LiveIff(capBytes: nat, maxEntries: nat, acts: seq<Act>, id: nat)
    requires 0 < maxEntries
    ensures Has(After(capBytes, maxEntries, acts).dict.entries, id) <==> Live(capBytes, maxEntries, acts, id)
  {
    if acts != [] {
      hide Has, Apply, ImagesHalf, DistinctKeys, Evicts;
      var init, x := acts[..|acts| - 1], acts[|acts| - 1];
      LiveIff(capBytes, maxEntries, init, id);
      EntriesDistinct(capBytes, maxEntries, init);
      var d := After(capBytes, maxEntries, init).dict;
      match x
      case Images(k, pixels) =>
        if |pixels| <= capBytes {
          ImagesLiveness(d, capBytes, maxEntries, k, pixels, id);
        } else {
          ImagesRefused(d, capBytes, maxEntries, k, pixels);
        }
      case Tombstones(_) =>
      case Other(op) => if !op.Insert? { OtherLiveness(d, capBytes, maxEntries, op, id); }
    }
  }

  lemma {:induction false} ImagesRefused(d: Dict, capBytes: nat, maxEntries: nat, k: nat, pixels: seq<byte>)
    requires |pixels| > capBytes
    ensures ImagesHalf(d, capBytes, maxEntries, k, pixels) == d
  {
  }

  // ----- Tombstones

  /** A tombstoned id was buried by the last second half that names it. */
  lemma {:induction false} OnlyBuriedAreTombstoned(capBytes: nat, maxEntries: nat, acts: seq<Act>)
    ensures var ids := After(capBytes, maxEntries, acts).dict.tombstones;
            && Distinct(ids) && |ids| <= EVICTED_ID_TOMBSTONES
            && forall id :: id in ids ==> Buried(capBytes, maxEntries, acts, id)
  {
    if acts != [] {
      hide BuryAll, DropId, ImagesHalf, Distinct;
      var init, x := acts[..|acts| - 1], acts[|acts| - 1];
      OnlyBuriedAreTombstoned(capBytes, maxEntries, init);
      var s := After(capBytes, maxEntries, init);
      if x.Tombstones? && x.i < |s.pending| {
        var p, ids := s.pending[x.i], s.dict.tombstones;
        BuryAllKeeps(ids, p.evicted);
        DropIdMeans(BuryAll(ids, p.evicted), p.id);
        DropIdDistinct(BuryAll(ids, p.evicted), p.id);
      } else {
        SameIds(s, capBytes, maxEntries, x);
      }
    } else {
      NoIds();
    }
  }

  lemma {:induction false} NoIds()
    ensures Distinct([])
  {
  }

  /** Only a second half touches the tombstones. */
  lemma {:induction false} SameIds(s: Sys, capBytes: nat, maxEntries: nat, x: Act)
    requires x.Tombstones? ==> x.i >= |s.pending|
    ensures Next(s, capBytes, maxEntries, x).dict.tombstones == s.dict.tombstones
  {
  }

  /** Every id any insert of the run evicted. */
  function EverEvicted(capBytes: nat, maxEntries: nat, acts: seq<Act>): set<nat> {
    if acts == [] then {}
    else
      var init, x := acts[..|acts| - 1], acts[|acts| - 1];
      EverEvicted(capBytes, maxEntries, init)
      + if x.Images? then
          (set id | id in EvictedBy(After(capBytes, maxEntries, init).dict, capBytes, maxEntries, x.id, x.pixels))
        else {}
  }

  ghost predicate AllIn(ids: seq<nat>, all: set<nat>) {
    forall id :: id in ids ==> id in all
  }

  /** What waits or is tombstoned was evicted. */
  lemma {:induction false} EvictedSomeTime(capBytes: nat, maxEntries: nat, acts: seq<Act>)
    ensures var s, all := After(capBytes, maxEntries, acts), EverEvicted(capBytes, maxEntries, acts);
            && AllIn(s.dict.tombstones, all)
            && forall i :: 0 <= i < |s.pending| ==> AllIn(s.pending[i].evicted, all)
  {
    if acts != [] {
      hide BuryAll, DropId, ImagesHalf, EvictedBy;
      var init, x := acts[..|acts| - 1], acts[|acts| - 1];
      EvictedSomeTime(capBytes, maxEntries, init);
      var s := After(capBytes, maxEntries, init);
      if x.Tombstones? && x.i < |s.pending| {
        var p, ids := s.pending[x.i], s.dict.tombstones;
        OnlyBuriedAreTombstoned(capBytes, maxEntries, init);
        BuryAllKeeps(ids, p.evicted);
        DropIdMeans(BuryAll(ids, p.evicted), p.id);
      } else {
        SameIds(s, capBytes, maxEntries, x);
      }
    }
  }

  lemma {:induction false} DistinctFits(ids: seq<nat>, all: set<nat>)
    requires Distinct(ids) && AllIn(ids, all)
    ensures |ids| <= |all|
  {
    if ids != [] {
      var n := |ids| - 1;
      DistinctFits(ids[..n], all - {ids[n]});
    }
  }

  /** With few ids in play nothing falls off the tombstones. */
  lemma {:induction false} BuryIff(ids: seq<nat>, id: nat, all: set<nat>)
    requires Distinct(ids) && AllIn(ids, all) && id in all && |all| <= EVICTED_ID_TOMBSTONES
    ensures forall x :: x in Bury(ids, id) <==> x in ids || x == id
  {
    hide DropId;
    DropIdDistinct(ids, id);
    DropIdMeans(ids, id);
    var front := [id] + DropId(ids, id);
    forall i | 1 <= i < |front| ensures front[i] != id {
      assert front[i] in DropId(ids, id);
    }
    DistinctFits(front, all);
  }

  lemma {:induction false} BuryAllIff(ids: seq<nat>, evicted: seq<nat>, all: set<nat>)
    requires Distinct(ids) && |ids| <= EVICTED_ID_TOMBSTONES
    requires AllIn(ids, all) && AllIn(evicted, all) && |all| <= EVICTED_ID_TOMBSTONES
    ensures forall x :: x in BuryAll(ids, evicted) <==> x in ids || x in evicted
  {
    if evicted != [] {
      hide Bury;
      var init, id := evicted[..|evicted| - 1], evicted[|evicted| - 1];
      BuryAllIff(ids, init, all);
      BuryAllKeeps(ids, init);
      BuryIff(BuryAll(ids, init), id, all);
      assert evicted == init + [id];
    }
  }

  /** If no more ids were ever evicted than there are tombstones, an id is tombstoned exactly if the
      last second half that names it buried it. */
  lemma {:induction false} TombstonedIff(capBytes: nat, maxEntries: nat, acts: seq<Act>, id: nat)
    requires |EverEvicted(capBytes, maxEntries, acts)| <= EVICTED_ID_TOMBSTONES
    ensures id in After(capBytes, maxEntries, acts).dict.tombstones <==> Buried(capBytes, maxEntries, acts, id)
  {
    if acts != [] {
      hide BuryAll, DropId, ImagesHalf, EvictedBy;
      var init, x := acts[..|acts| - 1], acts[|acts| - 1];
      var all := EverEvicted(capBytes, maxEntries, init);
      Smaller(all, EverEvicted(capBytes, maxEntries, acts));
      TombstonedIff(capBytes, maxEntries, init, id);
      EvictedSomeTime(capBytes, maxEntries, init);
      OnlyBuriedAreTombstoned(capBytes, maxEntries, init);
      var s := After(capBytes, maxEntries, init);
      if x.Tombstones? && x.i < |s.pending| {
        var p, ids := s.pending[x.i], s.dict.tombstones;
        BuryAllIff(ids, p.evicted, all);
        DropIdMeans(BuryAll(ids, p.evicted), p.id);
      } else {
        SameIds(s, capBytes, maxEntries, x);
      }
    }
  }

  lemma {:induction false} Smaller(a: set<nat>, b: set<nat>)
    requires a <= b
    ensures |a| <= |b|
  {
    var rest := b - a;
    assert b == a + rest && a !! rest;
  }

  /** Some id was stored by the last first half that names it and buried by the last second half. */
  ghost predicate Crossed(capBytes: nat, maxEntries: nat, acts: seq<Act>) {
    exists id: nat :: Live(capBytes, maxEntries, acts, id) && Buried(capBytes, maxEntries, acts, id)
  }

  /** In every interleaving: no live id is tombstoned unless its image was stored by the last first
      half that names it and the id buried by the last second half that does; and, as long as nothing
      falls off the tombstones, if and only if there is no such id. */
  lemma {:induction false} OverlapExact(capBytes: nat, maxEntries: nat, acts: seq<Act>)
    requires 0 < maxEntries
    ensures var clear := NoLiveTombstone(After(capBytes, maxEntries, acts).dict);
            var crossed := Crossed(capBytes, maxEntries, acts);
            && (!crossed ==> clear)
            && (|EverEvicted(capBytes, maxEntries, acts)| <= EVICTED_ID_TOMBSTONES ==> (clear <==> !crossed))
  {
    hide After, Live, Buried, Has, EverEvicted;
    var d := After(capBytes, maxEntries, acts).dict;
    OnlyBuriedAreTombstoned(capBytes, maxEntries, acts);
    if !Crossed(capBytes, maxEntries, acts) {
      forall id | id in d.tombstones ensures !Has(d.entries, id) {
        LiveIff(capBytes, maxEntries, acts, id);
        assert Buried(capBytes, maxEntries, acts, id);
      }
    } else if |EverEvicted(capBytes, maxEntries, acts)| <= EVICTED_ID_TOMBSTONES {
      var id: nat :| Live(capBytes, maxEntries, acts, id) && Buried(capBytes, maxEntries, acts, id);
      LiveIff(capBytes, maxEntries, acts, id);
      TombstonedIff(capBytes, maxEntries, acts, id);
      assert id in d.tombstones && Has(d.entries, id);
    }
  }

  // ----- A live id tombstoned

  lemma {:induction false} RoomForOne(a: Item, b: Item)
    requires |a.value| == 1 && |b.value| == 1
    ensures Trim([a], 1, 1) == [a] && Trimmed([a], 1, 1) == []
    ensures Trim([a, b], 1, 1) == [a] && Trimmed([a, b], 1, 1) == [b.key]
  {
    assert [a][..0] == [] && [a, b][..1] == [a];
    assert PayloadBytes([a]) == PayloadBytes([]) + 1;
    assert Fits([a], 1, 1) && !Fits([a, b], 1, 1);
  }

  const ONE := Item(1, [7])
  const TWO := Item(2, [8])

  /** With room for one image: 1 is stored, 2 evicts it, and 1 is stored again, both halves, before
      the second half of 2. */
  const CROSSED: seq<Act> := [Images(1, [7]), Tombstones(0), Images(2, [8]), Images(1, [7]), Tombstones(1),
                              Tombstones(0)]

  lemma {:induction false} PutOver(a: Item, b: Item)
    requires a.key != b.key
    ensures Put([], a.key, a.value) == [a] && Put([b], a.key, a.value) == [a, b]
  {
    assert [b][..0] == [];
  }

  lemma {:induction false} BuryOne(id: nat)
    ensures DropId([], id) == [] && BuryAll([], [id]) == [id] && DropId([id], id) == []
    ensures forall other :: other != id ==> DropId([other], id) == [other]
  {
    assert [id][..0] == [];
    assert BuryAll([], []) == [];
    forall other | other != id ensures DropId([other], id) == [other] {
      assert [other][..0] == [];
    }
  }

  lemma {:induction false} BuryOnTop(id: nat, other: nat)
    requires id != other
    ensures DropId(BuryAll([other], [id]), other) == [id]
  {
    BuryOne(id);
    BuryOne(other);
    var one := [id];
    assert one[..0] == [] && BuryAll([other], one) == Bury(BuryAll([other], []), id);
    assert DropId([other], id) == [other] && Bury([other], id) == [id, other];
    var both := [id, other];
    assert both[..1] == [id] && DropId(both, other) == DropId([id], other) + [];
  }

  /** An image that is live and tombstoned. */
  lemma {:induction false} CrossedTombstonesLive()
    ensures var d := After(1, 1, CROSSED).dict; Has(d.entries, 1) && 1 in d.tombstones
  {
    hide After, Next;
    var s3 := StoreTwice();
    var s4, s5, s6 := Next(s3, 1, 1, CROSSED[3]), Next(Next(s3, 1, 1, CROSSED[3]), 1, 1, CROSSED[4]),
                      Next(Next(Next(s3, 1, 1, CROSSED[3]), 1, 1, CROSSED[4]), 1, 1, CROSSED[5]);
    StoreAgain(s3);
    StepsTo(3, s3);
    StepsTo(4, s4);
    StepsTo(5, s5);
    assert CROSSED[..6] == CROSSED;
    assert s6.dict.entries[0] == ONE;
  }

  /** 1 is stored, and 2 evicts it. */
  lemma {:induction false} StoreTwice() returns (s3: Sys)
    ensures After(1, 1, CROSSED[..3]) == s3
    ensures s3.pending == [Pending(2, [1])] && s3.dict.entries == [TWO] && s3.dict.tombstones == []
  {
    hide Trim, Trimmed, Put, DropId, BuryAll, After;
    RoomForOne(ONE, TWO);
    RoomForOne(TWO, ONE);
    PutOver(ONE, TWO);
    PutOver(TWO, ONE);
    BuryOne(1);
    NothingBuried([]);
    var s1 := Next(START, 1, 1, CROSSED[0]);
    assert s1.pending == [Pending(1, [])] && s1.dict.entries == [ONE] && s1.dict.tombstones == [];
    var s2 := Next(s1, 1, 1, CROSSED[1]);
    assert s2.pending == [] && s2.dict.entries == [ONE] && s2.dict.tombstones == [];
    s3 := Next(s2, 1, 1, CROSSED[2]);
    NoSteps();
    StepsTo(0, START);
    StepsTo(1, s1);
    StepsTo(2, s2);
  }

  /** 1 is stored again with both halves, and then 2 has its second. */
  lemma {:induction false} StoreAgain(s3: Sys)
    requires s3.pending == [Pending(2, [1])] && s3.dict.entries == [TWO] && s3.dict.tombstones == []
    ensures var s6 := Next(Next(Next(s3, 1, 1, CROSSED[3]), 1, 1, CROSSED[4]), 1, 1, CROSSED[5]);
            s6.dict.entries == [ONE] && s6.dict.tombstones == [1]
  {
    hide Trim, Trimmed, Put, DropId, BuryAll;
    RoomForOne(ONE, TWO);
    PutOver(ONE, TWO);
    BuryOne(2);
    BuryOne(1);
    BuryOnTop(1, 2);
    var s4 := Next(s3, 1, 1, CROSSED[3]);
    assert s4.pending == [Pending(2, [1]), Pending(1, [2])] && s4.dict.entries == [ONE] && s4.dict.tombstones == [];
    var s5 := Next(s4, 1, 1, CROSSED[4]);
    assert s5.pending == [Pending(2, [1])] && s5.dict.entries == [ONE] && s5.dict.tombstones == [2];
  }

  lemma {:induction false} NoSteps()
    ensures After(1, 1, CROSSED[..0]) == START
  {
  }

  lemma {:induction false} StepsTo(n: nat, s: Sys)
    requires n < |CROSSED| && After(1, 1, CROSSED[..n]) == s
    ensures After(1, 1, CROSSED[..n + 1]) == Next(s, 1, 1, CROSSED[n])
  {
    hide Next;
    assert CROSSED[..n + 1][..n] == CROSSED[..n];
  }
}
