/** A least-recently-used map bounded both in payload bytes and in entries. */
module Lru {
  import opened Arithmetic
  import opened Options
  import opened Bytes

  datatype Item = Item(key: nat, value: seq<byte>)

  const PER_ENTRY_OVERHEAD_BYTES: nat := 96

  // ----- Recency-ordered sequences, most recently used first

  ghost predicate DistinctKeys(s: seq<Item>) {
    forall i, j :: 0 <= i < j < |s| ==> s[i].key != s[j].key
  }

  predicate Has(s: seq<Item>, key: nat) {
    exists i :: 0 <= i < |s| && s[i].key == key
  }

  function PayloadBytes(s: seq<Item>): nat {
    if s == [] then 0 else PayloadBytes(s[..|s| - 1]) + |s[|s| - 1].value|
  }

  function Without(s: seq<Item>, key: nat): seq<Item> {
    if s == [] then []
    else Without(s[..|s| - 1], key) + (if s[|s| - 1].key == key then [] else [s[|s| - 1]])
  }

  function Lookup(s: seq<Item>, key: nat): Option<seq<byte>> {
    if s == [] then None
    else if s[0].key == key then Some(s[0].value)
    else Lookup(s[1..], key)
  }

  function Put(s: seq<Item>, key: nat, value: seq<byte>): seq<Item> {
    [Item(key, value)] + Without(s, key)
  }

  predicate Fits(s: seq<Item>, capBytes: nat, maxEntries: nat) {
    PayloadBytes(s) <= capBytes && |s| <= maxEntries
  }

  /** Drop entries from the least recently used end until both caps hold. */
  function Trim(s: seq<Item>, capBytes: nat, maxEntries: nat): seq<Item> {
    if s == [] || Fits(s, capBytes, maxEntries) then s else Trim(s[..|s| - 1], capBytes, maxEntries)
  }

  /** The keys `Trim` drops, least recently used first. */
  function Trimmed(s: seq<Item>, capBytes: nat, maxEntries: nat): seq<nat> {
    if s == [] || Fits(s, capBytes, maxEntries) then []
    else [s[|s| - 1].key] + Trimmed(s[..|s| - 1], capBytes, maxEntries)
  }

  function Retain(s: seq<Item>, keep: nat -> bool): seq<Item> {
    if s == [] then []
    else Retain(s[..|s| - 1], keep) + (if keep(s[|s| - 1].key) then [s[|s| - 1]] else [])
  }

  // ----- What trimming leaves

  lemma {:induction false} PayloadBytesPrefix(s: seq<Item>, j: nat)
    requires j <= |s|
    ensures PayloadBytes(s[..j]) <= PayloadBytes(s)
  {
    if j < |s| {
      PayloadBytesPrefix(s[..|s| - 1], j);
      assert s[..|s| - 1][..j] == s[..j];
    } else {
      assert s[..j] == s;
    }
  }

  /** What is kept is the longest most-recently-used-first prefix that fits both caps. */
  lemma {:induction false} TrimIsLongestPrefix(s: seq<Item>, capBytes: nat, maxEntries: nat)
    ensures var r := Trim(s, capBytes, maxEntries);
            && r <= s && PayloadBytes(r) <= capBytes && |r| <= maxEntries
            && (forall j :: |r| < j <= |s| ==> PayloadBytes(s[..j]) > capBytes || j > maxEntries)
  {
    if s != [] && !Fits(s, capBytes, maxEntries) {
      var init := s[..|s| - 1];
      TrimIsLongestPrefix(init, capBytes, maxEntries);
      var r := Trim(s, capBytes, maxEntries);
      forall j | |r| < j <= |s| ensures PayloadBytes(s[..j]) > capBytes || j > maxEntries {
        if j < |s| {
          assert init[..j] == s[..j];
        } else {
          assert s[..j] == s;
        }
      }
    }
  }

  /** Trimming never drops the front entry when that entry fits on its own. */
  lemma {:induction false} TrimKeepsFront(s: seq<Item>, capBytes: nat, maxEntries: nat)
    requires s != [] && |s[0].value| <= capBytes && 1 <= maxEntries
    ensures var r := Trim(s, capBytes, maxEntries); r != [] && r[0] == s[0]
  {
    TrimIsLongestPrefix(s, capBytes, maxEntries);
    var one := s[..1];
    assert one[..0] == [] && PayloadBytes(one) == PayloadBytes(one[..0]) + |s[0].value|;
    assert Fits(s[..1], capBytes, maxEntries);
  }

  /** The dropped keys are those past the kept prefix, from the back. */
  lemma {:induction false} TrimmedKeys(s: seq<Item>, capBytes: nat, maxEntries: nat)
    ensures var r, d := Trim(s, capBytes, maxEntries), Trimmed(s, capBytes, maxEntries);
            && |r| + |d| == |s| && r <= s
            && (forall i :: 0 <= i < |d| ==> d[i] == s[|s| - 1 - i].key)
  {
    hide Fits;
    if s != [] && !Fits(s, capBytes, maxEntries) {
      var init := s[..|s| - 1];
      TrimmedKeys(init, capBytes, maxEntries);
      assert forall i :: 0 <= i < |init| ==> init[i] == s[i];
    }
  }

  // ----- Membership and distinctness

  lemma {:induction false} WithoutMeans(s: seq<Item>, key: nat)
    ensures forall x :: x in Without(s, key) <==> x in s && x.key != key
  {
    if s != [] {
      WithoutMeans(s[..|s| - 1], key);
      assert s == s[..|s| - 1] + [s[|s| - 1]];
    }
  }

  /** Taking an entry out leaves the others in their order. */
  lemma {:induction false} WithoutKeepsOrder(a: seq<Item>, x: Item, b: seq<Item>)
    requires !Has(a, x.key) && !Has(b, x.key)
    ensures Without(a + [x] + b, x.key) == a + b
  {
    hide Without, Has;
    WithoutAbsent(a, x.key);
    WithoutSnoc(a, x, x.key);
    if b == [] {
      assert a + [x] + b == a + [x];
    } else {
      var init, last := b[..|b| - 1], b[|b| - 1];
      InitLacks(b, x.key);
      WithoutKeepsOrder(a, x, init);
      WithoutSnoc(a + [x] + init, last, x.key);
      assert a + [x] + b == a + [x] + init + [last];
    }
  }

  lemma {:induction false} WithoutSnoc(s: seq<Item>, x: Item, key: nat)
    ensures Without(s + [x], key) == Without(s, key) + (if x.key == key then [] else [x])
  {
    assert (s + [x])[..|s|] == s;
  }

  lemma {:induction false} InitLacks(s: seq<Item>, key: nat)
    requires s != [] && !Has(s, key)
    ensures !Has(s[..|s| - 1], key) && s[|s| - 1].key != key
  {
    assert forall i :: 0 <= i < |s| - 1 ==> s[..|s| - 1][i] == s[i];
  }

  lemma {:induction false} WithoutAbsent(s: seq<Item>, key: nat)
    requires !Has(s, key)
    ensures Without(s, key) == s
  {
    if s != [] {
      InitLacks(s, key);
      WithoutAbsent(s[..|s| - 1], key);
    }
  }

  /** A stored entry comes first; the others, less the one it replaces, keep their order. */
  lemma {:induction false} PutKeepsOrder(a: seq<Item>, x: Item, b: seq<Item>, value: seq<byte>)
    requires !Has(a, x.key) && !Has(b, x.key)
    ensures Put(a + [x] + b, x.key, value) == [Item(x.key, value)] + a + b
    ensures Put(a, x.key, value) == [Item(x.key, value)] + a
  {
    hide Without, Has;
    WithoutKeepsOrder(a, x, b);
    WithoutAbsent(a, x.key);
  }

  /** Keeping some entries keeps their order. */
  lemma {:induction false} RetainKeepsOrder(a: seq<Item>, x: Item, b: seq<Item>, keep: nat -> bool)
    ensures Retain(a + [x] + b, keep) == Retain(a, keep) + (if keep(x.key) then [x] else []) + Retain(b, keep)
  {
    if b == [] {
      assert (a + [x])[..|a|] == a && a + [x] + b == a + [x];
    } else {
      var init := b[..|b| - 1];
      RetainKeepsOrder(a, x, init, keep);
      assert (a + [x] + b)[..|a| + |b|] == a + [x] + init;
    }
  }

  lemma {:induction false} WithoutDistinct(s: seq<Item>, key: nat)
    requires DistinctKeys(s)
    ensures DistinctKeys(Without(s, key))
  {
    if s != [] {
      var init := s[..|s| - 1];
      WithoutDistinct(init, key);
      WithoutMeans(init, key);
      var w := Without(init, key);
      forall i | 0 <= i < |w| ensures w[i].key != s[|s| - 1].key {
        assert w[i] in init;
      }
    }
  }

  lemma {:induction false} PutDistinct(s: seq<Item>, key: nat, value: seq<byte>)
    requires DistinctKeys(s)
    ensures DistinctKeys(Put(s, key, value))
  {
    WithoutDistinct(s, key);
    WithoutMeans(s, key);
    var w := Without(s, key);
    forall i | 0 <= i < |w| ensures w[i].key != key {
      assert w[i] in w;
    }
  }

  lemma {:induction false} LookupMeans(s: seq<Item>, key: nat)
    ensures Lookup(s, key).Some? <==> Has(s, key)
    ensures Lookup(s, key).Some? ==> Item(key, Lookup(s, key).value) in s
  {
    if s != [] && s[0].key != key {
      LookupMeans(s[1..], key);
      assert forall i :: 1 <= i < |s| ==> s[i] == s[1..][i - 1];
      if Has(s, key) {
        var i :| 0 <= i < |s| && s[i].key == key;
        assert s[1..][i - 1].key == key;
      }
    }
  }

  /** Removing a key frees exactly its value's bytes. */
  lemma {:induction false} WithoutBytes(s: seq<Item>, key: nat)
    requires DistinctKeys(s)
    ensures PayloadBytes(Without(s, key))
            == PayloadBytes(s) - (if Lookup(s, key).Some? then |Lookup(s, key).value| else 0)
    ensures |Without(s, key)| == |s| - (if Lookup(s, key).Some? then 1 else 0)
  {
    if s != [] {
      var init, last := s[..|s| - 1], s[|s| - 1];
      WithoutBytes(init, key);
      LookupLast(s, key);
      LookupMeans(init, key);
      if last.key == key {
        LastKeyIsNew(s);
        assert Without(init, key) + [] == Without(init, key);
      } else {
        var w := Without(init, key);
        assert (w + [last])[..|w|] == w;
      }
    }
  }

  lemma {:induction false} LastKeyIsNew(s: seq<Item>)
    requires DistinctKeys(s) && s != []
    ensures !Has(s[..|s| - 1], s[|s| - 1].key)
  {
    var init := s[..|s| - 1];
    forall i | 0 <= i < |init| ensures init[i].key != s[|s| - 1].key {
      assert init[i] == s[i];
    }
  }

  lemma {:induction false} LookupLast(s: seq<Item>, key: nat)
    requires s != []
    ensures var init, last := s[..|s| - 1], s[|s| - 1];
            Lookup(s, key) == if Lookup(init, key).Some? then Lookup(init, key)
                              else if last.key == key then Some(last.value) else None
  {
    if |s| > 1 && s[0].key != key {
      LookupLast(s[1..], key);
      assert s[1..][..|s| - 2] == s[..|s| - 1][1..];
    }
  }

  lemma {:induction false} PayloadBytesPush(x: Item, s: seq<Item>)
    ensures PayloadBytes([x] + s) == |x.value| + PayloadBytes(s)
  {
    if s == [] {
      assert [x] + s == [x] && [x][..0] == [];
      assert PayloadBytes([x]) == PayloadBytes([x][..0]) + |x.value|;
    } else {
      PayloadBytesPush(x, s[..|s| - 1]);
      assert ([x] + s)[..|s|] == [x] + s[..|s| - 1];
    }
  }

  lemma {:induction false} PutBytes(s: seq<Item>, key: nat, value: seq<byte>)
    requires DistinctKeys(s)
    ensures PayloadBytes(Put(s, key, value))
            == PayloadBytes(s) - (if Lookup(s, key).Some? then |Lookup(s, key).value| else 0) + |value|
  {
    WithoutBytes(s, key);
    PayloadBytesPush(Item(key, value), Without(s, key));
  }

  lemma {:induction false} PrefixDistinct(s: seq<Item>, r: seq<Item>)
    requires DistinctKeys(s) && r <= s
    ensures DistinctKeys(r)
  {
  }

  lemma {:induction false} RetainMeans(s: seq<Item>, keep: nat -> bool)
    ensures forall x :: x in Retain(s, keep) <==> x in s && keep(x.key)
  {
    if s != [] {
      RetainMeans(s[..|s| - 1], keep);
      assert s == s[..|s| - 1] + [s[|s| - 1]];
    }
  }

  datatype InsertOutcome =
    | Inserted
    | InsertedAfterEviction(evicted: nat, freedBytes: nat)
    | Refused

  class ByteBoundedLru {
    var inner: seq<Item>
    var bytes: nat
    const capBytes: nat
    const maxEntries: nat
    var evictionsTotal: nat
    var evictedBytesTotal: nat
    ghost var accepted: nat   // bytes of every accepted insert
    ghost var displaced: nat  // bytes of values replaced under their key
    ghost var removed: nat    // bytes of explicit removals

    /** Distinct keys within both caps, exact byte accounting, and no byte unaccounted for. */
    ghost predicate Valid()
      reads this
    {
      && 0 < capBytes && 0 < maxEntries
      && DistinctKeys(inner) && Fits(inner, capBytes, maxEntries)
      && bytes == PayloadBytes(inner)
      && accepted == bytes + evictedBytesTotal + displaced + removed
    }

    constructor WithCaps(capBytes: nat, maxEntries: nat)
      requires 0 < capBytes && 0 < maxEntries
      ensures Valid() && inner == [] && evictionsTotal == 0
      ensures this.capBytes == capBytes && this.maxEntries == maxEntries
    {
      this.capBytes := capBytes;
      this.maxEntries := maxEntries;
      inner, bytes, evictionsTotal, evictedBytesTotal := [], 0, 0, 0;
      accepted, displaced, removed := 0, 0, 0;
    }

    constructor (capBytes: nat)
      requires 0 < capBytes
      ensures Valid() && inner == [] && evictionsTotal == 0 && this.capBytes == capBytes
      ensures this.maxEntries == if capBytes < 192 then 1 else capBytes / 96
    {
      this.capBytes := capBytes;
      var derived := capBytes / PER_ENTRY_OVERHEAD_BYTES;
      this.maxEntries := if derived < 1 then 1 else derived;
      inner, bytes, evictionsTotal, evictedBytesTotal := [], 0, 0, 0;
      accepted, displaced, removed := 0, 0, 0;
    }

    /** Insert or replace an entry, reporting the evicted keys in eviction order. */
    method InsertRecordingEvicted(key: nat, value: seq<byte>) returns (outcome: InsertOutcome, evictedKeys: seq<nat>)
      requires Valid()
      modifies this
      ensures Valid()
      ensures |value| > capBytes ==>
                outcome == Refused && evictedKeys == [] && unchanged(this)
      ensures |value| <= capBytes ==>
                var put := Put(old(inner), key, value);
                && inner == Trim(put, capBytes, maxEntries)
                && inner != [] && inner[0] == Item(key, value)
                && evictedKeys == Trimmed(put, capBytes, maxEntries) && key !in evictedKeys
                && evictionsTotal == old(evictionsTotal) + |evictedKeys|
                && (evictedKeys == [] ==> outcome == Inserted)
                && (evictedKeys != [] ==>
                      && outcome.InsertedAfterEviction? && outcome.evicted == |evictedKeys|
                      && outcome.freedBytes + PayloadBytes(inner) == PayloadBytes(put))
                && accepted == old(accepted) + |value| && removed == old(removed)
                && displaced
                   == old(displaced) + (if Lookup(old(inner), key).Some? then |Lookup(old(inner), key).value| else 0)
    {
      evictedKeys := [];
      if |value| > capBytes {
        return Refused, [];
      }
      hide Put, Trim, Trimmed, Without, PayloadBytes, DistinctKeys, Fits, Lookup;
      PutAccounted(key, value);
      var evicted, freedBytes;
      evicted, freedBytes, evictedKeys := EvictToCaps();
      EvictionSpares(old(inner), key, value, capBytes, maxEntries);
      outcome := if evicted > 0 then InsertedAfterEviction(evicted, freedBytes) else Inserted;
    }

    /** Store the value in front, replacing any under its key, with exact accounting. */
    method PutAccounted(key: nat, value: seq<byte>)
      requires DistinctKeys(inner) && bytes == PayloadBytes(inner)
      modifies this`inner, this`bytes, this`accepted, this`displaced
      ensures inner == Put(old(inner), key, value) && bytes == PayloadBytes(inner)
      ensures accepted == old(accepted) + |value|
      ensures displaced
              == old(displaced) + (if Lookup(old(inner), key).Some? then |Lookup(old(inner), key).value| else 0)
      ensures accepted - bytes - displaced == old(accepted) - old(bytes) - old(displaced)
    {
      hide Put, Without, DistinctKeys, Lookup;
      var replaced := Lookup(inner, key);
      WithoutBytes(inner, key);
      PutBytes(inner, key, value);
      inner := Put(inner, key, value);
      if replaced.Some? {
        assert |replaced.value| <= bytes;  // the subtraction does not saturate
        bytes := SaturatingSub(bytes, |replaced.value|);
        displaced := displaced + |replaced.value|;
      }
      bytes := bytes + |value|;
      accepted := accepted + |value|;
    }

    /** Evict from the least recently used end until both caps hold. */
    method EvictToCaps() returns (evicted: nat, freedBytes: nat, evictedKeys: seq<nat>)
      requires 0 < capBytes && 0 < maxEntries && bytes == PayloadBytes(inner)
      modifies this`inner, this`bytes, this`evictionsTotal, this`evictedBytesTotal
      ensures inner == Trim(old(inner), capBytes, maxEntries)
      ensures evictedKeys == Trimmed(old(inner), capBytes, maxEntries) && evicted == |evictedKeys|
      ensures bytes == PayloadBytes(inner) && freedBytes == old(bytes) - bytes
      ensures evictionsTotal == old(evictionsTotal) + evicted
      ensures evictedBytesTotal == old(evictedBytesTotal) + freedBytes
    {
      evicted, freedBytes, evictedKeys := 0, 0, [];
      while bytes > capBytes || |inner| > maxEntries
        invariant bytes == PayloadBytes(inner) && bytes + freedBytes == old(bytes)
        invariant Trim(inner, capBytes, maxEntries) == Trim(old(inner), capBytes, maxEntries)
        invariant evictedKeys + Trimmed(inner, capBytes, maxEntries) == Trimmed(old(inner), capBytes, maxEntries)
        invariant evicted == |evictedKeys|
        invariant evictionsTotal == old(evictionsTotal) + evicted
        invariant evictedBytesTotal == old(evictedBytesTotal) + freedBytes
        decreases |inner|
      {
        if inner == [] {
          assert false;  // the accounting has not drifted
        } else {
          var last := inner[|inner| - 1];
          var n := |last.value|;
          assert n <= bytes;  // the subtraction does not saturate
          inner := inner[..|inner| - 1];
          bytes := SaturatingSub(bytes, n);
          evicted := evicted + 1;
          freedBytes := freedBytes + n;
          evictedKeys := evictedKeys + [last.key];
          evictionsTotal := evictionsTotal + 1;
          evictedBytesTotal := evictedBytesTotal + n;
        }
      }
    }

    /** Look a key up, making it the most recently used. */
    method Get(key: nat) returns (value: Option<seq<byte>>)
      requires Valid()
      modifies this`inner
      ensures Valid() && value == Lookup(old(inner), key)
      ensures inner == if value.Some? then Put(old(inner), key, value.value) else old(inner)
    {
      value := Lookup(inner, key);
      if value.Some? {
        PutDistinct(inner, key, value.value);
        PutBytes(inner, key, value.value);
        WithoutBytes(inner, key);
        inner := Put(inner, key, value.value);
      }
    }

    method Remove(key: nat) returns (present: bool)
      requires Valid()
      modifies this`inner, this`bytes, this`removed
      ensures Valid() && inner == Without(old(inner), key)
      ensures present == Lookup(old(inner), key).Some?
    {
      var found := Lookup(inner, key);
      WithoutBytes(inner, key);
      WithoutDistinct(inner, key);
      inner := Without(inner, key);
      if found.None? {
        return false;
      }
      assert |found.value| <= bytes;
      bytes := SaturatingSub(bytes, |found.value|);
      removed := removed + |found.value|;
      return true;
    }

    method Clear()
      requires Valid()
      modifies this`inner, this`bytes, this`removed
      ensures Valid() && inner == []
    {
      removed := removed + bytes;
      inner := [];
      bytes := 0;
    }

    /** Keep only the entries whose key passes `keep`, and count the others. */
    method RetainKeys(keep: nat -> bool) returns (count: nat)
      requires Valid()
      modifies this`inner, this`bytes, this`removed
      ensures Valid() && inner == Retain(old(inner), keep)
      ensures count == |old(inner)| - |inner|
    {
      var victims := Victims(inner, keep);
      count := 0;
      RetainAll(inner);
      for i := 0 to |victims|
        invariant Valid() && inner == Retain(old(inner), NotIn(victims[..i]))
        invariant count + |inner| == |old(inner)|
      {
        var k := victims[i];
        WithoutRetain(old(inner), victims[..i], k);
        assert victims[..i] + [k] == victims[..i + 1];
        WithoutBytes(inner, k);
        var popped := Remove(k);
        if popped {
          count := count + 1;
        }
      }
      assert victims[..|victims|] == victims;
      VictimsMean(old(inner), keep);
      RetainCongruent(old(inner), NotIn(victims), keep);
    }
  }

  function Victims(s: seq<Item>, keep: nat -> bool): seq<nat> {
    if s == [] then [] else Victims(s[..|s| - 1], keep) + (if keep(s[|s| - 1].key) then [] else [s[|s| - 1].key])
  }

  function NotIn(keys: seq<nat>): nat -> bool {
    (k: nat) => k !in keys
  }

  lemma {:induction false} VictimsMean(s: seq<Item>, keep: nat -> bool)
    ensures forall x :: x in s ==> (x.key in Victims(s, keep) <==> !keep(x.key))
    ensures forall k :: k in Victims(s, keep) ==> !keep(k)
  {
    if s != [] {
      VictimsMean(s[..|s| - 1], keep);
      assert s == s[..|s| - 1] + [s[|s| - 1]];
    }
  }

  lemma {:induction false} RetainCongruent(s: seq<Item>, p: nat -> bool, q: nat -> bool)
    requires forall x :: x in s ==> p(x.key) == q(x.key)
    ensures Retain(s, p) == Retain(s, q)
  {
    if s != [] { RetainCongruent(s[..|s| - 1], p, q); }
  }

  lemma {:induction false} RetainAll(s: seq<Item>)
    ensures Retain(s, NotIn([])) == s
  {
    if s != [] {
      RetainAll(s[..|s| - 1]);
      assert s == s[..|s| - 1] + [s[|s| - 1]];
    }
  }

  lemma {:induction false} WithoutRetain(s: seq<Item>, keys: seq<nat>, k: nat)
    ensures Without(Retain(s, NotIn(keys)), k) == Retain(s, NotIn(keys + [k]))
  {
    if s != [] {
      var init, last := s[..|s| - 1], s[|s| - 1];
      WithoutRetain(init, keys, k);
      var r := Retain(init, NotIn(keys));
      assert (r + [last])[..|r|] == r;
      assert r + [] == r;
    }
  }

  lemma {:induction false} EvictionSpares(s: seq<Item>, key: nat, value: seq<byte>, capBytes: nat, maxEntries: nat)
    requires DistinctKeys(s) && |value| <= capBytes && 0 < maxEntries
    ensures var put := Put(s, key, value);
            var r := Trim(put, capBytes, maxEntries);
            && r != [] && r[0] == Item(key, value) && key !in Trimmed(put, capBytes, maxEntries)
            && DistinctKeys(r) && Fits(r, capBytes, maxEntries)
  {
    hide Without, PayloadBytes;
    var put := Put(s, key, value);
    PutDistinct(s, key, value);
    TrimKeepsFront(put, capBytes, maxEntries);
    TrimIsLongestPrefix(put, capBytes, maxEntries);
    TrimmedKeys(put, capBytes, maxEntries);
    PrefixDistinct(put, Trim(put, capBytes, maxEntries));
  }
}
