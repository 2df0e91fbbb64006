/** The shared image dictionary: a byte-bounded LRU of images, and tombstones for the ids its cap
    evicted. Each operation is one step here; inserts that overlap are in `GlzInserts`. */
module GlzDictionary {
  import opened Options
  import opened Bytes
  import opened Lru

  const EVICTED_ID_TOMBSTONES: nat := 4096

  // ----- Tombstones, most recent first

  function DropId(ids: seq<nat>, id: nat): seq<nat> {
    if ids == [] then []
    else DropId(ids[..|ids| - 1], id) + (if ids[|ids| - 1] == id then [] else [ids[|ids| - 1]])
  }

  function Newest(ids: seq<nat>): seq<nat> {
    if |ids| <= EVICTED_ID_TOMBSTONES then ids else ids[..EVICTED_ID_TOMBSTONES]
  }

  function Bury(ids: seq<nat>, id: nat): seq<nat> {
    Newest([id] + DropId(ids, id))
  }

  function BuryAll(ids: seq<nat>, evicted: seq<nat>): seq<nat> {
    if evicted == [] then ids else Bury(BuryAll(ids, evicted[..|evicted| - 1]), evicted[|evicted| - 1])
  }

  // ----- The dictionary on values

  /** The last thing that happened to an id: its image was stored, the cap evicted it, or the
      server removed it. */
  datatype Fate = Stored | CapEvicted | Removed

  datatype Dict = Dict(entries: seq<Item>, tombstones: seq<nat>, fate: map<nat, Fate>)

  const EMPTY := Dict([], [], map[])

  datatype Op =
    | Insert(id: nat, pixels: seq<byte>)
    | Remove(id: nat)
    | EvictOlderThan(oldest: nat)
    | Clear
    | Get(id: nat)

  function AtLeast(oldest: nat): nat -> bool {
    (id: nat) => id >= oldest
  }

  function FateAfterInsert(fate: map<nat, Fate>, id: nat, evicted: seq<nat>): map<nat, Fate> {
    map k | k in fate.Keys + {id} + (set x | x in evicted) ::
      if k in evicted then CapEvicted else if k == id then Stored else fate[k]
  }

  /** Ids that were live and are not any more count as removed. */
  function FateAfterRemoval(fate: map<nat, Fate>, before: seq<Item>, after: seq<Item>): map<nat, Fate> {
    map k | k in fate :: if Has(before, k) && !Has(after, k) then Removed else fate[k]
  }

  function Apply(d: Dict, capBytes: nat, maxEntries: nat, op: Op): Dict {
    match op
    case Insert(id, pixels) =>
      if |pixels| > capBytes then d.(tombstones := DropId(d.tombstones, id))
      else
        var put := Put(d.entries, id, pixels);
        var evicted := Trimmed(put, capBytes, maxEntries);
        Dict(Trim(put, capBytes, maxEntries), DropId(BuryAll(d.tombstones, evicted), id),
             FateAfterInsert(d.fate, id, evicted))
    case Remove(id) => Removing(d, Without(d.entries, id))
    case EvictOlderThan(oldest) => Removing(d, Retain(d.entries, AtLeast(oldest)))
    case Clear => Removing(d, [])
    case Get(id) =>
      var found := Lookup(d.entries, id);
      if found.Some? then d.(entries := Put(d.entries, id, found.value)) else d
  }

  function Removing(d: Dict, after: seq<Item>): Dict {
    Dict(after, d.tombstones, FateAfterRemoval(d.fate, d.entries, after))
  }

  // ----- The invariant

  ghost predicate Distinct(ids: seq<nat>) {
    forall i, j :: 0 <= i < j < |ids| ==> ids[i] != ids[j]
  }

  ghost predicate Sound(d: Dict) {
    && Distinct(d.tombstones) && |d.tombstones| <= EVICTED_ID_TOMBSTONES
    && (forall id :: id in d.tombstones ==> !Has(d.entries, id) && id in d.fate && d.fate[id] == CapEvicted)
    && (forall x :: x in d.entries ==> x.key in d.fate && d.fate[x.key] == Stored)
  }

  lemma {:induction false} DropIdMeans(ids: seq<nat>, id: nat)
    ensures forall x :: x in DropId(ids, id) <==> x in ids && x != id
    ensures |DropId(ids, id)| <= |ids|
  {
    if ids != [] {
      DropIdMeans(ids[..|ids| - 1], id);
      assert ids == ids[..|ids| - 1] + [ids[|ids| - 1]];
    }
  }

  lemma {:induction false} DropIdDistinct(ids: seq<nat>, id: nat)
    requires Distinct(ids)
    ensures Distinct(DropId(ids, id))
  {
    if ids != [] {
      var init := ids[..|ids| - 1];
      DropIdDistinct(init, id);
      DropIdMeans(init, id);
      var d := DropId(init, id);
      forall i | 0 <= i < |d| ensures d[i] != ids[|ids| - 1] {
        assert d[i] in init;
      }
    }
  }

  lemma {:induction false} BuryKeeps(ids: seq<nat>, id: nat)
    requires Distinct(ids)
    ensures Distinct(Bury(ids, id)) && |Bury(ids, id)| <= EVICTED_ID_TOMBSTONES
    ensures id in Bury(ids, id)
    ensures forall x :: x in Bury(ids, id) ==> x in ids || x == id
  {
    DropIdDistinct(ids, id);
    DropIdMeans(ids, id);
    var all := [id] + DropId(ids, id);
    forall i | 1 <= i < |all| ensures all[i] != id {
      assert all[i] in DropId(ids, id);
    }
    assert Bury(ids, id)[0] == id;
  }

  lemma {:induction false} BuryAllKeeps(ids: seq<nat>, evicted: seq<nat>)
    requires Distinct(ids) && |ids| <= EVICTED_ID_TOMBSTONES
    ensures var t := BuryAll(ids, evicted);
            && Distinct(t) && |t| <= EVICTED_ID_TOMBSTONES
            && (forall x :: x in t ==> x in ids || x in evicted)
  {
    if evicted != [] {
      var n := |evicted| - 1;
      BuryAllKeeps(ids, evicted[..n]);
      BuryKeeps(BuryAll(ids, evicted[..n]), evicted[n]);
      assert evicted == evicted[..n] + [evicted[n]];
    }
  }

  lemma {:induction false} HasMember(s: seq<Item>, key: nat)
    ensures Has(s, key) <==> exists x :: x in s && x.key == key
  {
    if x :| x in s && x.key == key {
      var i :| 0 <= i < |s| && s[i] == x;
      assert s[i].key == key;
    }
  }

  /** After an insert the kept and the evicted ids are apart, and both come from what was put. */
  lemma {:induction false} KeptAndEvicted(put: seq<Item>, capBytes: nat, maxEntries: nat)
    requires DistinctKeys(put)
    ensures var kept, evicted := Trim(put, capBytes, maxEntries), Trimmed(put, capBytes, maxEntries);
            && (forall x :: x in kept ==> x in put && x.key !in evicted)
            && (forall k :: k in evicted ==> !Has(kept, k))
  {
    TrimmedKeys(put, capBytes, maxEntries);
    var kept, evicted := Trim(put, capBytes, maxEntries), Trimmed(put, capBytes, maxEntries);
    forall k | k in evicted ensures !Has(kept, k) {
      var i :| 0 <= i < |evicted| && evicted[i] == k;
      assert put[|put| - 1 - i].key == k;
    }
    forall x | x in kept ensures x in put && x.key !in evicted {
      HasMember(kept, x.key);
    }
  }

  lemma {:induction false} InsertSound(d: Dict, capBytes: nat, maxEntries: nat, id: nat, pixels: seq<byte>)
    requires Sound(d) && DistinctKeys(d.entries) && |pixels| <= capBytes && 0 < maxEntries
    ensures Sound(Apply(d, capBytes, maxEntries, Insert(id, pixels)))
  {
    hide Trim, Trimmed, Put, Has, Without, BuryAll, DropId;
    var put := Put(d.entries, id, pixels);
    var kept, evicted := Trim(put, capBytes, maxEntries), Trimmed(put, capBytes, maxEntries);
    var buried := BuryAll(d.tombstones, evicted);
    var after := Apply(d, capBytes, maxEntries, Insert(id, pixels));
    PutDistinct(d.entries, id, pixels);
    KeptAndEvicted(put, capBytes, maxEntries);
    EvictionSpares(d.entries, id, pixels, capBytes, maxEntries);
    PutMembers(d.entries, id, pixels);
    BuryAllKeeps(d.tombstones, evicted);
    DropIdMeans(buried, id);
    DropIdDistinct(buried, id);
    forall t | t in after.tombstones ensures !Has(kept, t) && t in after.fate && after.fate[t] == CapEvicted {
      HasMember(kept, t);
      HasMember(d.entries, t);
    }
    forall x | x in kept ensures x.key in after.fate && after.fate[x.key] == Stored {
    }
  }

  lemma {:induction false} PutMembers(s: seq<Item>, key: nat, value: seq<byte>)
    ensures forall x :: x in Put(s, key, value) ==> x == Item(key, value) || (x in s && x.key != key)
  {
    WithoutMeans(s, key);
  }

  lemma {:induction false} RemovingSound(d: Dict, after: seq<Item>)
    requires Sound(d) && forall x :: x in after ==> x in d.entries
    ensures Sound(Removing(d, after))
  {
    hide Has;
    var e := Removing(d, after);
    forall t | t in e.tombstones ensures !Has(after, t) && t in e.fate && e.fate[t] == CapEvicted {
      HasMember(after, t);
      HasMember(d.entries, t);
    }
    forall x | x in after ensures x.key in e.fate && e.fate[x.key] == Stored {
      HasMember(after, x.key);
    }
  }

  lemma {:induction false} GetSound(d: Dict, id: nat, value: seq<byte>)
    requires Sound(d) && Lookup(d.entries, id) == Some(value)
    ensures Sound(d.(entries := Put(d.entries, id, value)))
  {
    hide Has, Put, Lookup;
    var after := Put(d.entries, id, value);
    LookupMeans(d.entries, id);
    PutMembers(d.entries, id, value);
    forall t | t in d.tombstones ensures !Has(after, t) {
      HasMember(after, t);
      HasMember(d.entries, t);
    }
  }

  /** Every operation keeps the LRU within its caps and the tombstones sound. */
  lemma {:induction false} ApplySound(d: Dict, capBytes: nat, maxEntries: nat, op: Op)
    requires Sound(d) && DistinctKeys(d.entries) && Fits(d.entries, capBytes, maxEntries) && 0 < maxEntries
    ensures var e := Apply(d, capBytes, maxEntries, op);
            Sound(e) && DistinctKeys(e.entries) && Fits(e.entries, capBytes, maxEntries)
  {
    hide Sound, Fits, DistinctKeys;
    match op
    case Insert(id, pixels) =>
      if |pixels| > capBytes {
        RefusedSound(d, id);
      } else {
        InsertSound(d, capBytes, maxEntries, id, pixels);
        EvictionSpares(d.entries, id, pixels, capBytes, maxEntries);
      }
    case Remove(id) =>
      WithoutMeans(d.entries, id);
      WithoutFits(d.entries, id, capBytes, maxEntries);
      RemovingSound(d, Without(d.entries, id));
    case EvictOlderThan(oldest) =>
      RetainMeans(d.entries, AtLeast(oldest));
      RetainFits(d.entries, AtLeast(oldest), capBytes, maxEntries);
      RemovingSound(d, Retain(d.entries, AtLeast(oldest)));
    case Clear =>
      NothingFits(capBytes, maxEntries);
      RemovingSound(d, []);
    case Get(id) =>
      var found := Lookup(d.entries, id);
      if found.Some? {
        GetSound(d, id, found.value);
        TouchFits(d.entries, id, found.value, capBytes, maxEntries);
      }
  }

  lemma {:induction false} RefusedSound(d: Dict, id: nat)
    requires Sound(d)
    ensures Sound(d.(tombstones := DropId(d.tombstones, id)))
  {
    DropIdMeans(d.tombstones, id);
    DropIdDistinct(d.tombstones, id);
  }

  lemma {:induction false} NothingFits(capBytes: nat, maxEntries: nat)
    ensures DistinctKeys([]) && Fits([], capBytes, maxEntries)
  {
  }

  lemma {:induction false} WithoutFits(s: seq<Item>, id: nat, capBytes: nat, maxEntries: nat)
    requires DistinctKeys(s) && Fits(s, capBytes, maxEntries)
    ensures DistinctKeys(Without(s, id)) && Fits(Without(s, id), capBytes, maxEntries)
  {
    WithoutBytes(s, id);
    WithoutDistinct(s, id);
  }

  lemma {:induction false} TouchFits(s: seq<Item>, id: nat, value: seq<byte>, capBytes: nat, maxEntries: nat)
    requires DistinctKeys(s) && Fits(s, capBytes, maxEntries) && Lookup(s, id) == Some(value)
    ensures DistinctKeys(Put(s, id, value)) && Fits(Put(s, id, value), capBytes, maxEntries)
  {
    PutDistinct(s, id, value);
    PutBytes(s, id, value);
    WithoutBytes(s, id);
  }

  lemma {:induction false} RetainFits(s: seq<Item>, keep: nat -> bool, capBytes: nat, maxEntries: nat)
    requires DistinctKeys(s) && Fits(s, capBytes, maxEntries)
    ensures DistinctKeys(Retain(s, keep)) && Fits(Retain(s, keep), capBytes, maxEntries)
  {
    RetainShrinks(s, keep);
  }

  lemma {:induction false} RetainShrinks(s: seq<Item>, keep: nat -> bool)
    requires DistinctKeys(s)
    ensures var r := Retain(s, keep);
            DistinctKeys(r) && |r| <= |s| && PayloadBytes(r) <= PayloadBytes(s)
  {
    if s != [] {
      var init, last := s[..|s| - 1], s[|s| - 1];
      InitDistinct(s);
      RetainShrinks(init, keep);
      RetainMeans(init, keep);
      hide DistinctKeys;
      var r := Retain(init, keep);
      SnocDistinct(r, last);
      assert r + [] == r;
    }
  }

  lemma {:induction false} InitDistinct(s: seq<Item>)
    requires DistinctKeys(s) && s != []
    ensures DistinctKeys(s[..|s| - 1]) && forall x :: x in s[..|s| - 1] ==> x.key != s[|s| - 1].key
  {
  }

  lemma {:induction false} SnocDistinct(r: seq<Item>, x: Item)
    requires DistinctKeys(r) && forall y :: y in r ==> y.key != x.key
    ensures DistinctKeys(r + [x]) && PayloadBytes(r + [x]) == PayloadBytes(r) + |x.value|
  {
    assert (r + [x])[..|r|] == r;
    assert forall i :: 0 <= i < |r| ==> r[i] in r;
  }

  // ----- What the cap evicts is tombstoned

  lemma {:induction false} DropIdKeepsFront(ids: seq<nat>, id: nat, n: nat)
    requires n <= |ids| && id !in ids[..n]
    ensures n <= |DropId(ids, id)| && DropId(ids, id)[..n] == ids[..n]
    decreases |ids|
  {
    if n < |ids| {
      var init := ids[..|ids| - 1];
      assert init[..n] == ids[..n];
      DropIdKeepsFront(init, id, n);
    } else {
      assert ids[..n] == ids;
      DropIdAbsent(ids, id);
    }
  }

  lemma {:induction false} DropIdAbsent(ids: seq<nat>, id: nat)
    requires id !in ids
    ensures DropId(ids, id) == ids
  {
    if ids != [] { DropIdAbsent(ids[..|ids| - 1], id); }
  }

  lemma {:induction false} BuryPushesFront(ids: seq<nat>, id: nat, n: nat)
    requires n <= |ids| && n < EVICTED_ID_TOMBSTONES && forall i :: 0 <= i < n ==> ids[i] != id
    ensures var b := Bury(ids, id);
            n < |b| && b[0] == id && forall i :: 1 <= i <= n ==> b[i] == ids[i - 1]
  {
    hide DropId;
    DropIdKeepsFront(ids, id, n);
    var d := DropId(ids, id);
    assert forall i :: 0 <= i < n ==> d[..n][i] == d[i] && ids[..n][i] == ids[i];
  }

  /** The buried ids are the front of the tombstones, last buried first. */
  lemma {:induction false} BuriedComeFirst(ids: seq<nat>, evicted: seq<nat>)
    requires Distinct(evicted) && |evicted| <= EVICTED_ID_TOMBSTONES
    ensures var t := BuryAll(ids, evicted);
            |evicted| <= |t| && forall i :: 0 <= i < |evicted| ==> t[i] == evicted[|evicted| - 1 - i]
  {
    if evicted != [] {
      var n := |evicted| - 1;
      BuriedComeFirst(ids, evicted[..n]);
      hide Bury;
      var t := BuryAll(ids, evicted[..n]);
      assert forall i :: 0 <= i < n ==> t[i] == evicted[n - 1 - i];
      BuryPushesFront(t, evicted[n], n);
    }
  }

  /** Every id an insert evicts is tombstoned afterwards, as far as the tombstones reach. */
  lemma {:induction false} EvictedAreTombstoned(d: Dict, capBytes: nat, maxEntries: nat, id: nat, pixels: seq<byte>)
    requires DistinctKeys(d.entries) && |pixels| <= capBytes && 0 < maxEntries
    requires |Trimmed(Put(d.entries, id, pixels), capBytes, maxEntries)| <= 4096
    ensures var evicted := Trimmed(Put(d.entries, id, pixels), capBytes, maxEntries);
            forall k :: k in evicted ==> k in Apply(d, capBytes, maxEntries, Insert(id, pixels)).tombstones
  {
    hide Trim, Trimmed, Put, BuryAll, DropId;
    var put := Put(d.entries, id, pixels);
    var evicted := Trimmed(put, capBytes, maxEntries);
    PutDistinct(d.entries, id, pixels);
    TrimmedKeys(put, capBytes, maxEntries);
    EvictionSpares(d.entries, id, pixels, capBytes, maxEntries);
    BuriedComeFirst(d.tombstones, evicted);
    var t := BuryAll(d.tombstones, evicted);
    DropIdMeans(t, id);
    forall k | k in evicted ensures k in t {
      var i :| 0 <= i < |evicted| && evicted[i] == k;
      assert t[|evicted| - 1 - i] == k;
    }
  }

  // ----- Overlapping inserts

  /** An insert takes two locks in turn: first the images, then the tombstones. */
  function ImagesStep(d: Dict, capBytes: nat, maxEntries: nat, id: nat, pixels: seq<byte>): Dict {
    d.(entries := Trim(Put(d.entries, id, pixels), capBytes, maxEntries))
  }

  function Evicts(d: Dict, capBytes: nat, maxEntries: nat, id: nat, pixels: seq<byte>): seq<nat> {
    Trimmed(Put(d.entries, id, pixels), capBytes, maxEntries)
  }

  function TombstonesStep(d: Dict, id: nat, evicted: seq<nat>): Dict {
    d.(tombstones := DropId(BuryAll(d.tombstones, evicted), id))
  }

  ghost predicate NoLiveTombstone(d: Dict) {
    forall id :: id in d.tombstones ==> !Has(d.entries, id)
  }

  lemma {:induction false} InsertIsTwoSteps(d: Dict, capBytes: nat, maxEntries: nat, id: nat, pixels: seq<byte>)
    requires |pixels| <= capBytes
    ensures var whole := Apply(d, capBytes, maxEntries, Insert(id, pixels));
            var steps := TombstonesStep(ImagesStep(d, capBytes, maxEntries, id, pixels), id,
                                        Evicts(d, capBytes, maxEntries, id, pixels));
            whole.entries == steps.entries && whole.tombstones == steps.tombstones
  {
  }

  /** What one insert does to liveness: only its own id comes to life, and what it evicts dies. */
  lemma {:induction false} InsertLiveness(d: Dict, capBytes: nat, maxEntries: nat, id: nat, pixels: seq<byte>)
    requires DistinctKeys(d.entries) && |pixels| <= capBytes && 0 < maxEntries
    ensures var e := ImagesStep(d, capBytes, maxEntries, id, pixels);
            var evicted := Evicts(d, capBytes, maxEntries, id, pixels);
            && Has(e.entries, id) && id !in evicted && DistinctKeys(e.entries) && Distinct(evicted)
            && (forall k :: Has(e.entries, k) ==> k == id || Has(d.entries, k))
            && (forall k :: k in evicted ==> !Has(e.entries, k))
  {
    hide Trim, Trimmed, Put, Has, DistinctKeys;
    var put := Put(d.entries, id, pixels);
    var kept, evicted := Trim(put, capBytes, maxEntries), Trimmed(put, capBytes, maxEntries);
    PutDistinct(d.entries, id, pixels);
    KeptAndEvicted(put, capBytes, maxEntries);
    EvictionSpares(d.entries, id, pixels, capBytes, maxEntries);
    PutMembers(d.entries, id, pixels);
    HasMember(kept, id);
    assert kept[0] in kept;
    EvictedDistinct(put, capBytes, maxEntries);
    forall k | Has(kept, k) ensures k == id || Has(d.entries, k) {
      HasMember(kept, k);
      HasMember(d.entries, k);
    }
  }

  lemma {:induction false} EvictedDistinct(put: seq<Item>, capBytes: nat, maxEntries: nat)
    requires DistinctKeys(put)
    ensures Distinct(Trimmed(put, capBytes, maxEntries))
  {
    hide Trim, Trimmed;
    TrimmedKeys(put, capBytes, maxEntries);
  }

  /** An insert of `b` that falls between the two locks of an insert of `a`: afterwards no live id is
      tombstoned if and only if the insert of `a` did not evict `b`. */
  lemma {:induction false} OverlapSoundIff(d: Dict, capBytes: nat, maxEntries: nat, a: nat, pa: seq<byte>,
                                           b: nat, pb: seq<byte>)
    requires Sound(d) && DistinctKeys(d.entries) && 0 < maxEntries && a != b && |pa| <= capBytes && |pb| <= capBytes
    requires |Evicts(d, capBytes, maxEntries, a, pa)| <= EVICTED_ID_TOMBSTONES
    ensures var evicted := Evicts(d, capBytes, maxEntries, a, pa);
            var d1 := ImagesStep(d, capBytes, maxEntries, a, pa);
            var d2 := Apply(d1, capBytes, maxEntries, Insert(b, pb));
            NoLiveTombstone(TombstonesStep(d2, a, evicted)) <==> b !in evicted
  {
    hide Trim, Trimmed, Put, Has, DistinctKeys, BuryAll, DropId, ImagesStep, Evicts, Apply;
    var ea := Evicts(d, capBytes, maxEntries, a, pa);
    var d1 := ImagesStep(d, capBytes, maxEntries, a, pa);
    var eb, d2 := Evicts(d1, capBytes, maxEntries, b, pb), Apply(d1, capBytes, maxEntries, Insert(b, pb));
    InsertLiveness(d, capBytes, maxEntries, a, pa);
    InsertLiveness(d1, capBytes, maxEntries, b, pb);
    InsertIsTwoSteps(d1, capBytes, maxEntries, b, pb);
    SameTombstones(d, capBytes, maxEntries, a, pa);
    SameTombstones(d1, capBytes, maxEntries, b, pb);
    var after := TombstonesStep(d2, a, ea);
    BuryAllKeeps(d.tombstones, eb);
    DropIdMeans(BuryAll(d.tombstones, eb), b);
    DropIdDistinct(BuryAll(d.tombstones, eb), b);
    BuryAllKeeps(d2.tombstones, ea);
    DropIdMeans(BuryAll(d2.tombstones, ea), a);
    if b in ea {
      BuriedComeFirst(d2.tombstones, ea);
      var i :| 0 <= i < |ea| && ea[i] == b;
      assert BuryAll(d2.tombstones, ea)[|ea| - 1 - i] == b;
      assert b in after.tombstones && Has(after.entries, b);
    } else {
      forall t | t in after.tombstones ensures !Has(after.entries, t) {
      }
    }
  }

  lemma {:induction false} SameTombstones(d: Dict, capBytes: nat, maxEntries: nat, id: nat, pixels: seq<byte>)
    ensures ImagesStep(d, capBytes, maxEntries, id, pixels).tombstones == d.tombstones
  {
  }

  // ----- Whole runs

  function After(capBytes: nat, maxEntries: nat, ops: seq<Op>): Dict {
    if ops == [] then EMPTY
    else Apply(After(capBytes, maxEntries, ops[..|ops| - 1]), capBytes, maxEntries, ops[|ops| - 1])
  }

  /** In every reachable state no live id is tombstoned, every tombstoned id was evicted by a cap
      and not stored since, and at most 4096 are kept. */
  lemma {:induction false} TombstonesSound(capBytes: nat, maxEntries: nat, ops: seq<Op>)
    requires 0 < maxEntries
    ensures var d := After(capBytes, maxEntries, ops);
            && Sound(d) && |d.tombstones| <= 4096
            && DistinctKeys(d.entries) && PayloadBytes(d.entries) <= capBytes && |d.entries| <= maxEntries
  {
    if ops != [] {
      TombstonesSound(capBytes, maxEntries, ops[..|ops| - 1]);
      ApplySound(After(capBytes, maxEntries, ops[..|ops| - 1]), capBytes, maxEntries, ops[|ops| - 1]);
    }
  }

  // ----- The shared object

  class SharedDictionary {
    const images: ByteBoundedLru
    var evictedIds: seq<nat>
    ghost var fate: map<nat, Fate>

    ghost function State(): Dict
      reads this, images
    {
      Dict(images.inner, evictedIds, fate)
    }

    ghost predicate Valid()
      reads this, images
    {
      images.Valid() && Sound(State())
    }

    constructor (capBytes: nat)
      requires 0 < capBytes
      ensures Valid() && State() == EMPTY && images.capBytes == capBytes && fresh(images)
    {
      images := new ByteBoundedLru(capBytes);
      evictedIds, fate := [], map[];
    }

    /** The first half of an insert, under the images' lock. */
    method StoreImage(id: nat, pixels: seq<byte>) returns (evictedKeys: seq<nat>)
      requires images.Valid()
      modifies this`fate, images
      ensures images.Valid()
      ensures |pixels| > images.capBytes ==> State() == old(State()) && evictedKeys == []
      ensures |pixels| <= images.capBytes ==>
                && evictedKeys == Evicts(old(State()), images.capBytes, images.maxEntries, id, pixels)
                && State() == ImagesStep(old(State()), images.capBytes, images.maxEntries, id, pixels).(
                     fate := FateAfterInsert(old(fate), id, evictedKeys))
    {
      hide Fits, DistinctKeys, Put, Trim, Trimmed, PayloadBytes;
      var outcome;
      outcome, evictedKeys := images.InsertRecordingEvicted(id, pixels);
      if |pixels| <= images.capBytes {
        fate := FateAfterInsert(fate, id, evictedKeys);
      }
    }

    /** The second half, under the tombstones' lock. */
    method SettleTombstones(id: nat, evictedKeys: seq<nat>)
      modifies this`evictedIds
      ensures State() == TombstonesStep(old(State()), id, evictedKeys)
    {
      hide DropId, BuryAll;
      BuryEach(evictedKeys);
      evictedIds := DropId(evictedIds, id);
    }

    /** Insert an image; ids its arrival evicted are tombstoned, its own tombstone is cleared. */
    method InsertImage(id: nat, pixels: seq<byte>)
      requires Valid()
      modifies this, images
      ensures Valid()
      ensures State() == Apply(old(State()), images.capBytes, images.maxEntries, Insert(id, pixels))
    {
      hide Sound, Fits, DistinctKeys, Put, Trim, Trimmed, DropId, PayloadBytes;
      ApplySound(State(), images.capBytes, images.maxEntries, Insert(id, pixels));
      var evictedKeys := StoreImage(id, pixels);
      SettleTombstones(id, evictedKeys);
    }

    method BuryEach(evictedKeys: seq<nat>)
      modifies this`evictedIds
      ensures evictedIds == BuryAll(old(evictedIds), evictedKeys)
    {
      for i := 0 to |evictedKeys|
        invariant evictedIds == BuryAll(old(evictedIds), evictedKeys[..i])
      {
        assert evictedKeys[..i + 1][..i] == evictedKeys[..i];
        evictedIds := Bury(evictedIds, evictedKeys[i]);
      }
      assert evictedKeys[..|evictedKeys|] == evictedKeys;
    }

    method WasEvicted(id: nat) returns (evicted: bool)
      requires Valid()
      ensures evicted <==> id in evictedIds
      ensures evicted ==> !Has(images.inner, id) && id in fate && fate[id] == CapEvicted
    {
      evicted := id in evictedIds;
    }

    method GetImage(id: nat) returns (pixels: Option<seq<byte>>)
      requires Valid()
      modifies images
      ensures Valid() && pixels == Lookup(old(images.inner), id)
      ensures State() == Apply(old(State()), images.capBytes, images.maxEntries, Get(id))
    {
      hide Sound, Fits, DistinctKeys, Put, Lookup, PayloadBytes;
      ApplySound(State(), images.capBytes, images.maxEntries, Get(id));
      pixels := images.Get(id);
    }

    method RemoveImage(id: nat) returns (present: bool)
      requires Valid()
      modifies this, images
      ensures Valid() && present == Lookup(old(images.inner), id).Some?
      ensures forall x :: x in images.inner <==> x in old(images.inner) && x.key != id
      ensures State() == Apply(old(State()), images.capBytes, images.maxEntries, Remove(id))
    {
      hide Sound, Fits, DistinctKeys, Without, Lookup, PayloadBytes;
      ApplySound(State(), images.capBytes, images.maxEntries, Remove(id));
      ghost var before := images.inner;
      present := images.Remove(id);
      WithoutMeans(before, id);
      fate := FateAfterRemoval(fate, before, images.inner);
    }

    method EvictOlder(oldest: nat) returns (count: nat)
      requires Valid()
      modifies this, images
      ensures Valid() && count == |old(images.inner)| - |images.inner|
      ensures forall x :: x in images.inner <==> x in old(images.inner) && x.key >= oldest
      ensures State() == Apply(old(State()), images.capBytes, images.maxEntries, EvictOlderThan(oldest))
    {
      hide Sound, Fits, DistinctKeys, Retain, PayloadBytes;
      ApplySound(State(), images.capBytes, images.maxEntries, EvictOlderThan(oldest));
      ghost var before := images.inner;
      count := images.RetainKeys(AtLeast(oldest));
      RetainMeans(before, AtLeast(oldest));
      fate := FateAfterRemoval(fate, before, images.inner);
    }

    method ClearImages()
      requires Valid()
      modifies this, images
      ensures Valid() && images.inner == [] && evictedIds == old(evictedIds)
      ensures State() == Apply(old(State()), images.capBytes, images.maxEntries, Clear)
    {
      hide Sound, Fits, DistinctKeys, PayloadBytes;
      ApplySound(State(), images.capBytes, images.maxEntries, Clear);
      ghost var before := images.inner;
      images.Clear();
      fate := FateAfterRemoval(fate, before, images.inner);
    }
  }
}
