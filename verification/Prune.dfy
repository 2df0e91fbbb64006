/** Rolling cap on the auto-snapshot directory. */
module Prune {
  import opened Arithmetic
  import opened Calendar
  import opened Sorting
  import opened Timestamp

  datatype File = File(name: string, bytes: nat)

  const PREFIX := "ryll-auto-snapshot-"

  predicate IsSnapshot(f: File) {
    && |f.name| >= |PREFIX| && f.name[..|PREFIX|] == PREFIX
    && |f.name| >= 4 && f.name[|f.name| - 4..] == ".zip"
  }

  /** The order `files.sort()` uses: by name, then by size. */
  predicate FileLe(a: File, b: File) {
    LexLess(a.name, b.name) || (a.name == b.name && a.bytes <= b.bytes)
  }

  function TotalBytes(s: seq<File>): nat {
    if s == [] then 0 else s[0].bytes + TotalBytes(s[1..])
  }

  predicate Fits(s: seq<File>, cap: nat, byteCap: nat) {
    |s| <= cap && TotalBytes(s) <= byteCap
  }

  /** Choose the files to delete: the shortest oldest-first run of the directory's snapshots
      that brings the rest within both budgets. */
  method PruneToCap(listing: seq<File>, cap: nat, byteCap: nat) returns (deleted: seq<File>, kept: seq<File>)
    ensures deleted + kept == StableSort(Filter(listing, IsSnapshot), FileLe)
    ensures |kept| <= cap && TotalBytes(kept) <= byteCap
    ensures forall j :: 0 <= j < |deleted| ==>
                          |deleted| + |kept| - j > cap || TotalBytes((deleted + kept)[j..]) > byteCap
  {
    hide StableSort, Filter;
    var files := StableSort(Filter(listing, IsSnapshot), FileLe);
    var remainingCount := |files|;
    var remainingBytes := TotalBytes(files);
    var toDelete := 0;
    while toDelete < |files| && (remainingCount > cap || remainingBytes > byteCap)
      invariant 0 <= toDelete <= |files|
      invariant remainingCount == |files[toDelete..]|
      invariant remainingBytes == TotalBytes(files[toDelete..])
      invariant forall j :: 0 <= j < toDelete ==> !Fits(files[j..], cap, byteCap)
    {
      assert files[toDelete..][1..] == files[toDelete + 1..];
      assert files[toDelete].bytes <= remainingBytes;  // the subtraction does not saturate
      remainingCount := remainingCount - 1;
      remainingBytes := SaturatingSub(remainingBytes, files[toDelete].bytes);
      toDelete := toDelete + 1;
    }
    deleted, kept := files[..toDelete], files[toDelete..];
    assert deleted + kept == files;
  }

  lemma {:induction false} FileLeTotalPreorder()
    ensures TotalPreorder(FileLe)
  {
    forall x: File, y: File ensures FileLe(x, y) || FileLe(y, x) {
      LexLessTotal(x.name, y.name);
    }
    forall x: File, y: File, z: File | FileLe(x, y) && FileLe(y, z) ensures FileLe(x, z) {
      if LexLess(x.name, y.name) && LexLess(y.name, z.name) {
        LexLessTransitive(x.name, y.name, z.name);
      }
    }
  }

  /** A snapshot: when it was taken, and after how many tenths of a second of the session. */
  datatype Snapshot = Snapshot(time: nat, uptime: nat, bytes: nat)

  /** An uptime in seconds with one decimal. */
  function UptimeText(tenths: nat): string {
    Padded(tenths / 10, 1) + ("." + [DigitChar(tenths % 10)])
  }

  function FileOf(s: Snapshot): File {
    File(PREFIX + (FormatUtcIsoSafe(s.time) + ("-T+" + UptimeText(s.uptime) + "s.zip")), s.bytes)
  }

  lemma {:induction false} LexLessExtend(a: string, b: string, x: string, y: string)
    requires |a| == |b| && LexLess(a, b)
    ensures LexLess(a + x, b + y)
  {
    if a[0] == b[0] {
      LexLessExtend(a[1..], b[1..], x, y);
      assert (a + x)[1..] == a[1..] + x && (b + y)[1..] == b[1..] + y;
    }
  }

  lemma {:induction false} FormatLength(t: nat)
    requires t <= LAST_FOUR_DIGIT_SECOND
    ensures |FormatUtcIsoSafe(t)| == 20
  {
    hide DaysToYmd;
    var m := MomentOf(t);
    FourDigitYears(t);
    YearWidthBounds(m.date.year);
    TwoDigits(m.date.month);
    TwoDigits(m.date.day);
    TwoDigits(m.hour);
    TwoDigits(m.minute);
    TwoDigits(m.second);
  }

  lemma {:induction false} NamesFollowTime(s: Snapshot, t: Snapshot)
    requires s.time <= LAST_FOUR_DIGIT_SECOND && t.time <= LAST_FOUR_DIGIT_SECOND && s.time < t.time
    ensures !FileLe(FileOf(t), FileOf(s))
  {
    var a, b := FormatUtcIsoSafe(s.time), FormatUtcIsoSafe(t.time);
    ChronologyIsLexicographic(s.time, t.time);
    FormatLength(s.time);
    FormatLength(t.time);
    var x, y := "-T+" + UptimeText(s.uptime) + "s.zip", "-T+" + UptimeText(t.uptime) + "s.zip";
    LexLessExtend(a, b, x, y);
    LexLessAppend(PREFIX, a + x, b + y);
    LexLessAsymmetric(FileOf(s).name, FileOf(t).name);
  }

  /** Of two uptimes, the shorter sorts first exactly when its whole seconds are at most the leading
      digits of the longer's. */
  lemma {:induction false} UptimeOrder(a: nat, b: nat, rest: string)
    requires a < b
    ensures DigitCount(a / 10) <= DigitCount(b / 10)
    ensures LexLess(UptimeText(a) + rest, UptimeText(b) + rest)
            <==> a / 10 <= DropDigits(b / 10, DigitCount(b / 10) - DigitCount(a / 10))
  {
    hide DigitCount, Fixed, LexLess;
    var n, m := a / 10, b / 10;
    DigitCountMonotonic(n, m);
    DigitCountBounds(n);
    DigitCountBounds(m);
    var w, k := DigitCount(n), DigitCount(m) - DigitCount(n);
    var x, y := "." + ([DigitChar(a % 10)] + rest), "." + ([DigitChar(b % 10)] + rest);
    assert UptimeText(a) + rest == Fixed(n, w) + x && UptimeText(b) + rest == Fixed(m, w + k) + y;
    if k == 0 {
      FixedOrder(n, m, w, x, y);
      LexLessAppend(".", [DigitChar(a % 10)] + rest, [DigitChar(b % 10)] + rest);
      DigitCharOrder(a % 10, b % 10, rest, rest);
    } else {
      ShorterOrder(n, m, w, k, x, y);
    }
  }

  /** Names of one second: the earlier snapshot's sorts first exactly when its whole seconds of uptime
      are at most the leading digits of the later's, as for uptimes of equally many digits. */
  lemma {:induction false} SameSecondByUptime(s: Snapshot, t: Snapshot)
    requires s.time == t.time && s.uptime < t.uptime
    ensures DigitCount(s.uptime / 10) <= DigitCount(t.uptime / 10)
    ensures LexLess(FileOf(s).name, FileOf(t).name)
            <==> s.uptime / 10 <= DropDigits(t.uptime / 10, DigitCount(t.uptime / 10) - DigitCount(s.uptime / 10))
  {
    hide FormatUtcIsoSafe, UptimeText, LexLess, DigitCount;
    var a, x, y := FormatUtcIsoSafe(s.time), UptimeText(s.uptime) + "s.zip", UptimeText(t.uptime) + "s.zip";
    assert "-T+" + UptimeText(s.uptime) + "s.zip" == "-T+" + x && "-T+" + UptimeText(t.uptime) + "s.zip" == "-T+" + y;
    LexLessAppend("-T+", x, y);
    LexLessAppend(a, "-T+" + x, "-T+" + y);
    LexLessAppend(PREFIX, a + ("-T+" + x), a + ("-T+" + y));
    UptimeOrder(s.uptime, t.uptime, "s.zip");
  }

  /** So of two snapshots in one second the later may come first: uptimes 9.9 and 10.0. */
  lemma {:induction false} LaterFirstInOneSecond(time: nat, a: nat, b: nat)
    ensures !FileLe(FileOf(Snapshot(time, 99, a)), FileOf(Snapshot(time, 100, b)))
  {
    hide FormatUtcIsoSafe, UptimeText, LexLess;
    var early, late := Snapshot(time, 99, a), Snapshot(time, 100, b);
    SameSecondByUptime(early, late);
    assert DigitCount(9) == 1 && DigitCount(10) == 2 && DropDigits(10, 1) == 1;
    NamesDiffer(early, late);
  }

  lemma {:induction false} NamesDiffer(s: Snapshot, t: Snapshot)
    requires s.time == t.time && DigitCount(s.uptime / 10) != DigitCount(t.uptime / 10)
    ensures FileOf(s).name != FileOf(t).name
  {
    hide FormatUtcIsoSafe, Fixed, DigitCount;
    DigitCountBounds(s.uptime / 10);
    DigitCountBounds(t.uptime / 10);
    assert |FileOf(s).name| != |FileOf(t).name|;
  }

  /** Pruning never deletes a snapshot of a later second than one it keeps, up to year 9999. */
  lemma {:induction false} PruneIsChronological(listing: seq<File>, deleted: seq<File>, kept: seq<File>,
                                                s: Snapshot, t: Snapshot)
    requires deleted + kept == StableSort(Filter(listing, IsSnapshot), FileLe)
    requires s.time <= LAST_FOUR_DIGIT_SECOND && t.time <= LAST_FOUR_DIGIT_SECOND
    requires FileOf(s) in deleted && FileOf(t) in kept
    ensures s.time <= t.time
  {
    FileLeTotalPreorder();
    StableSortSorts(Filter(listing, IsSnapshot), FileLe);
    var i :| 0 <= i < |deleted| && deleted[i] == FileOf(s);
    var j :| 0 <= j < |kept| && kept[j] == FileOf(t);
    var all := deleted + kept;
    assert all[i] == FileOf(s) && all[|deleted| + j] == FileOf(t);
    if t.time < s.time { NamesFollowTime(t, s); }
  }

  /** What a snapshot is called. */
  predicate SnapshotName(name: string) {
    "ryll-auto-snapshot-" <= name && |name| >= 4 && name[|name| - 4..] == ".zip"
  }

  /** Every name made for a snapshot is one. */
  lemma {:induction false} SnapshotsAreNamed(s: Snapshot)
    ensures SnapshotName(FileOf(s).name) && IsSnapshot(FileOf(s))
  {
    hide FormatUtcIsoSafe, UptimeText;
    var a, u := PREFIX + (FormatUtcIsoSafe(s.time) + ("-T+" + UptimeText(s.uptime) + "s")), "s.zip";
    assert FileOf(s).name == a + ".zip";
  }

  /** A whole name, letter by letter: 473 tenths of a second into a session, on 18 May 2026. */
  lemma {:induction false} NameOfSnapshot(bytes: nat)
    ensures FileOf(Snapshot(1779136662, 473, bytes)).name
            == "ryll-auto-snapshot-"
               + (("2026" + ("-" + ("05" + ("-" + ("18" + ("T" + ("20" + ("-" + ("37" + ("-" + ("42" + "Z")))))))))))
                  + ("-T+" + "47.3" + "s.zip"))
  {
    hide FormatUtcIsoSafe, UptimeText;
    StampOfExample();
    UptimeOfExample();
  }

  lemma {:induction false} UptimeOfExample()
    ensures UptimeText(473) == "47.3"
  {
    assert Fixed(4, 1) == Fixed(0, 0) + ['4'];
    assert Fixed(47, 2) == Fixed(4, 1) + ['7'];
    assert DigitCount(47) == 1 + DigitCount(4);
  }

  /** Deleting and keeping lose no snapshot and touch no other file. */
  lemma {:induction false} PruneConserves(listing: seq<File>, deleted: seq<File>, kept: seq<File>)
    requires deleted + kept == StableSort(Filter(listing, IsSnapshot), FileLe)
    ensures forall f: File :: multiset(deleted)[f] + multiset(kept)[f]
                              == if SnapshotName(f.name) then multiset(listing)[f] else 0
    ensures forall f :: f in deleted || f in kept ==>
                          f in listing && "ryll-auto-snapshot-" <= f.name && f.name[|f.name| - 4..] == ".zip"
  {
    hide StableSort, Filter;
    FileLeTotalPreorder();
    StableSortSorts(Filter(listing, IsSnapshot), FileLe);
    assert multiset(deleted + kept) == multiset(deleted) + multiset(kept);
    forall f: File
      ensures multiset(deleted)[f] + multiset(kept)[f] == if SnapshotName(f.name) then multiset(listing)[f] else 0
    {
      FilterMultiset(listing, IsSnapshot, f);
      assert multiset(deleted + kept)[f] == multiset(deleted)[f] + multiset(kept)[f];
    }
    forall f | f in deleted || f in kept ensures f in listing && SnapshotName(f.name) {
      assert f in multiset(deleted) || f in multiset(kept);
      assert f in multiset(listing);
    }
  }
}
