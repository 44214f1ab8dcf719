/** The storage collector (mod-storage): reading the mount table, turning
    statvfs figures into byte counts and a usage ratio, and the saturating
    totals. Reading /proc/mounts and calling statvfs are I/O; their results
    arrive as parameters. */
module Storage {
  import opened Wrappers
  import opened Text
  import Seqs
  import Sdk
  import Health

  /** An unsigned 64-bit quantity, as statvfs reports it. */
  type U64 = x: nat | x <= U64_MAX

  // ---------------------------------------------------------------------
  // parse_proc_mounts

  /** A mount point and its filesystem type. */
  datatype MountEntry = MountEntry(mountPoint: string, fsType: string)

  /** Pseudo filesystems the collector ignores, by plain prefix test (so
      "/devices" and "/system" are ignored too). */
  predicate IsVirtual(mountPoint: string) {
    StartsWith(mountPoint, "/proc") || StartsWith(mountPoint, "/sys")
    || StartsWith(mountPoint, "/run") || StartsWith(mountPoint, "/dev")
  }

  /** The `n`th whitespace-separated token, or "" when the line is shorter. */
  function Token(line: string, n: nat): string {
    var tokens := SplitWhitespace(line);
    if n < |tokens| then tokens[n] else ""
  }

  /** One line of the mount table: blank lines and pseudo filesystems give
      nothing; otherwise the second and third tokens are the mount point
      and the filesystem type. */
  function ParseMountLine(line: string): (r: Option<MountEntry>)
    ensures AllWhitespace(line) ==> r.None?
    ensures r.Some? ==> !IsVirtual(r.value.mountPoint) && NoWhitespace(r.value.mountPoint)
  {
    if Trim(line) == "" then None
    else
      var entry := MountEntry(Token(line, 1), Token(line, 2));
      if IsVirtual(entry.mountPoint) then None else Some(entry)
  }

  /** Parsing a line written as "device mount-point type options...": the
      entry comes back whenever its mount point is not a pseudo filesystem. */
  lemma ParseMountLineRoundTrip(device: string, entry: MountEntry, options: seq<string>)
    requires forall w :: w in [device, entry.mountPoint, entry.fsType] + options ==> |w| > 0 && NoWhitespace(w)
    ensures ParseMountLine(Join([device, entry.mountPoint, entry.fsType] + options, " "))
         == if IsVirtual(entry.mountPoint) then None else Some(entry)
  {
    var words := [device, entry.mountPoint, entry.fsType] + options;
    assert forall i :: 0 <= i < |words| ==> words[i] in words;
    SplitJoinWords(words);
    var line := Join(words, " ");
    SplitWhitespaceEmpty(line);
    assert Token(line, 1) == entry.mountPoint && Token(line, 2) == entry.fsType;
  }

  /** Mount-table entries in line order, before sorting. */
  function ParsedEntries(contents: string): seq<MountEntry> {
    Seqs.FilterMap(ParseMountLine, Lines(contents))
  }

  // Sorting: `sort_by` on the mount point is a stable sort, modelled as an
  // insertion sort that places each entry after the ones with an equal or
  // smaller mount point. String order is `Text.Less` (code points, which
  // is the byte order of UTF-8).

  /** Non-decreasing by mount point. */
  predicate SortedByMount(t: seq<MountEntry>) {
    forall i, j :: 0 <= i < j < |t| ==> !Less(t[j].mountPoint, t[i].mountPoint)
  }

  /** Strictly increasing by mount point: sorted and duplicate-free. */
  predicate StrictlySortedByMount(t: seq<MountEntry>) {
    forall i, j :: 0 <= i < j < |t| ==> Less(t[i].mountPoint, t[j].mountPoint)
  }

  function InsertAfterEquals(x: MountEntry, t: seq<MountEntry>): (r: seq<MountEntry>)
    requires SortedByMount(t)
    ensures SortedByMount(r)
    ensures multiset(r) == multiset(t) + multiset{x}
    decreases |t|
  {
    if |t| == 0 then [x]
    else if Less(x.mountPoint, t[0].mountPoint) then
      assert forall j :: 0 <= j < |t| ==> !Less(t[j].mountPoint, x.mountPoint) by {
        forall j | 0 <= j < |t| ensures !Less(t[j].mountPoint, x.mountPoint) {
          if Less(t[j].mountPoint, x.mountPoint) {
            LessTransitive(t[j].mountPoint, x.mountPoint, t[0].mountPoint);
            if j == 0 { LessIrreflexive(t[0].mountPoint); }
          }
        }
      }
      [x] + t
    else
      var tail := InsertAfterEquals(x, t[1..]);
      TailNotBelow(x, t, tail);
      [t[0]] + tail
  }

  /** The entries after the head of an insertion are all at least the head. */
  lemma TailNotBelow(x: MountEntry, t: seq<MountEntry>, tail: seq<MountEntry>)
    requires SortedByMount(t) && |t| > 0 && !Less(x.mountPoint, t[0].mountPoint)
    requires SortedByMount(tail) && multiset(tail) == multiset(t[1..]) + multiset{x}
    ensures SortedByMount([t[0]] + tail)
    ensures multiset([t[0]] + tail) == multiset(t) + multiset{x}
  {
    assert t == [t[0]] + t[1..];
    forall j | 0 <= j < |tail| ensures !Less(tail[j].mountPoint, t[0].mountPoint) {
      assert tail[j] in multiset(tail);
      if tail[j] != x {
        assert tail[j] in t[1..];
        var k :| 0 <= k < |t[1..]| && t[1..][k] == tail[j];
        assert t[k + 1] == tail[j];
      }
    }
    var u := [t[0]] + tail;
    forall i, j | 0 <= i < j < |u| ensures !Less(u[j].mountPoint, u[i].mountPoint) {
      assert u[j] == tail[j - 1];
      if i > 0 { assert u[i] == tail[i - 1]; }
    }
  }

  /** `entries.sort_by(|a, b| a.mount_point.cmp(&b.mount_point))`. */
  function SortByMount(s: seq<MountEntry>): (r: seq<MountEntry>)
    ensures SortedByMount(r)
    ensures multiset(r) == multiset(s)
    decreases |s|
  {
    if |s| == 0 then []
    else
      assert s == s[..|s| - 1] + [s[|s| - 1]];
      InsertAfterEquals(s[|s| - 1], SortByMount(s[..|s| - 1]))
  }

  /** `entries.dedup_by(|a, b| a.mount_point == b.mount_point)`: an entry is
      dropped when its mount point equals that of the last entry kept. */
  function DedupByMount(t: seq<MountEntry>): (r: seq<MountEntry>)
    ensures |t| == 0 <==> |r| == 0
    ensures |r| > 0 ==> r[|r| - 1].mountPoint == t[|t| - 1].mountPoint
    ensures forall i :: 0 <= i < |r| ==> r[i] in t
    decreases |t|
  {
    if |t| == 0 then []
    else
      var rest := DedupByMount(t[..|t| - 1]);
      var x := t[|t| - 1];
      if |rest| > 0 && rest[|rest| - 1].mountPoint == x.mountPoint then rest else rest + [x]
  }

  /** `parse_proc_mounts`. */
  function ParseProcMounts(contents: string): seq<MountEntry> {
    DedupByMount(SortByMount(ParsedEntries(contents)))
  }

  // ---------------------------------------------------------------------
  // Properties of parse_proc_mounts

  /** The first entry with mount point `m`, in sequence order. */
  function FirstWithMount(t: seq<MountEntry>, m: string): (r: Option<MountEntry>)
    ensures r.Some? ==> r.value in t && r.value.mountPoint == m
    ensures r.None? ==> forall i :: 0 <= i < |t| ==> t[i].mountPoint != m
    decreases |t|
  {
    if |t| == 0 then None
    else if t[0].mountPoint == m then Some(t[0])
    else FirstWithMount(t[1..], m)
  }

  ghost function MountPoints(t: seq<MountEntry>): set<string> {
    set i | 0 <= i < |t| :: t[i].mountPoint
  }

  lemma {:induction false} FirstWithMountSnoc(t: seq<MountEntry>, x: MountEntry, m: string)
    ensures FirstWithMount(t + [x], m)
         == if FirstWithMount(t, m).Some? then FirstWithMount(t, m) else if x.mountPoint == m then Some(x) else None
    decreases |t|
  {
    if |t| > 0 {
      assert (t + [x])[1..] == t[1..] + [x];
      FirstWithMountSnoc(t[1..], x, m);
    }
  }

  /** Inserting after equals never changes which entry comes first for a
      mount point already present. */
  lemma {:induction false} InsertAfterEqualsFirst(x: MountEntry, t: seq<MountEntry>, m: string)
    requires SortedByMount(t)
    ensures FirstWithMount(InsertAfterEquals(x, t), m)
         == if FirstWithMount(t, m).Some? then FirstWithMount(t, m) else if x.mountPoint == m then Some(x) else None
    decreases |t|
  {
    if |t| == 0 {
    } else if Less(x.mountPoint, t[0].mountPoint) {
      if x.mountPoint == m {
        forall j | 0 <= j < |t| ensures t[j].mountPoint != m {
          if j == 0 {
            LessIrreflexive(m);
          } else {
            assert !Less(t[j].mountPoint, t[0].mountPoint);
          }
        }
      }
    } else {
      InsertAfterEqualsFirst(x, t[1..], m);
    }
  }

  /** The stable sort keeps, for every mount point, the same entry first. */
  lemma {:induction false} SortByMountFirst(s: seq<MountEntry>, m: string)
    ensures FirstWithMount(SortByMount(s), m) == FirstWithMount(s, m)
    decreases |s|
  {
    if |s| > 0 {
      var init, x := s[..|s| - 1], s[|s| - 1];
      SortByMountFirst(init, m);
      InsertAfterEqualsFirst(x, SortByMount(init), m);
      FirstWithMountLast(s, m);
    }
  }

  lemma FirstWithMountLast(s: seq<MountEntry>, m: string)
    requires |s| > 0
    ensures var init, x := s[..|s| - 1], s[|s| - 1];
              FirstWithMount(s, m)
              == if FirstWithMount(init, m).Some? then FirstWithMount(init, m) else if x.mountPoint == m then Some(x) else None
  {
    assert s == s[..|s| - 1] + [s[|s| - 1]];
    FirstWithMountSnoc(s[..|s| - 1], s[|s| - 1], m);
  }

  /** In a sorted sequence whose last two mount points differ, every
      mount point before the last is strictly smaller than it. */
  lemma BeforeLastSmaller(t: seq<MountEntry>)
    requires SortedByMount(t) && |t| >= 2 && t[|t| - 2].mountPoint != t[|t| - 1].mountPoint
    ensures forall k :: 0 <= k < |t| - 1 ==> Less(t[k].mountPoint, t[|t| - 1].mountPoint)
  {
    var x := t[|t| - 1].mountPoint;
    var last := t[|t| - 2].mountPoint;
    LessTotal(last, x);
    forall k | 0 <= k < |t| - 1 ensures Less(t[k].mountPoint, x) {
      if k < |t| - 2 && t[k].mountPoint != last {
        LessTotal(t[k].mountPoint, last);
        LessTransitive(t[k].mountPoint, last, x);
      }
    }
  }

  /** Dedup of a sorted sequence is strictly increasing. */
  lemma {:induction false} DedupStrict(t: seq<MountEntry>)
    requires SortedByMount(t)
    ensures StrictlySortedByMount(DedupByMount(t))
    decreases |t|
  {
    if |t| > 0 {
      var init := t[..|t| - 1];
      var x := t[|t| - 1];
      var rest := DedupByMount(init);
      DedupStrict(init);
      if !(|rest| > 0 && rest[|rest| - 1].mountPoint == x.mountPoint) {
        if |rest| > 0 {
          BeforeLastSmaller(t);
          forall i | 0 <= i < |rest| ensures Less(rest[i].mountPoint, x.mountPoint) {
            var k :| 0 <= k < |init| && init[k] == rest[i];
          }
        }
        StrictSnoc(rest, x);
      }
    }
  }

  lemma StrictSnoc(t: seq<MountEntry>, x: MountEntry)
    requires StrictlySortedByMount(t)
    requires forall i :: 0 <= i < |t| ==> Less(t[i].mountPoint, x.mountPoint)
    ensures StrictlySortedByMount(t + [x])
  {
    var u := t + [x];
    forall i, j | 0 <= i < j < |u| ensures Less(u[i].mountPoint, u[j].mountPoint) {
      assert u[i] == t[i];
    }
  }

  /** When dedup keeps the last entry of a sorted sequence, no earlier
      entry shares its mount point. */
  lemma LastMountFresh(t: seq<MountEntry>)
    requires SortedByMount(t) && |t| > 0
    requires var rest := DedupByMount(t[..|t| - 1]);
             |rest| == 0 || rest[|rest| - 1].mountPoint != t[|t| - 1].mountPoint
    ensures forall k :: 0 <= k < |t| - 1 ==> t[k].mountPoint != t[|t| - 1].mountPoint
  {
    if |t| > 1 {
      BeforeLastSmaller(t);
      forall k | 0 <= k < |t| - 1 ensures t[k].mountPoint != t[|t| - 1].mountPoint {
        LessIrreflexive(t[|t| - 1].mountPoint);
      }
    }
  }

  lemma MountPointsSnoc(t: seq<MountEntry>, x: MountEntry)
    ensures MountPoints(t + [x]) == MountPoints(t) + {x.mountPoint}
  {
    var u := t + [x];
    forall m | m in MountPoints(u) ensures m in MountPoints(t) + {x.mountPoint} {
      var i :| 0 <= i < |u| && u[i].mountPoint == m;
      if i < |t| { assert u[i] == t[i]; }
    }
    forall m | m in MountPoints(t) + {x.mountPoint} ensures m in MountPoints(u) {
      if m in MountPoints(t) {
        var i :| 0 <= i < |t| && t[i].mountPoint == m;
        assert u[i] == t[i];
      } else {
        assert u[|t|] == x;
      }
    }
  }

  /** Reordering keeps the mount points. */
  lemma MountPointsPermutation(a: seq<MountEntry>, b: seq<MountEntry>)
    requires multiset(a) == multiset(b)
    ensures MountPoints(a) == MountPoints(b)
  {
    forall m | m in MountPoints(a) ensures m in MountPoints(b) {
      var i :| 0 <= i < |a| && a[i].mountPoint == m;
      assert a[i] in multiset(b);
    }
    forall m | m in MountPoints(b) ensures m in MountPoints(a) {
      var i :| 0 <= i < |b| && b[i].mountPoint == m;
      assert b[i] in multiset(a);
    }
  }

  /** Dedup keeps every mount point. */
  lemma {:induction false} DedupMountPoints(t: seq<MountEntry>)
    ensures MountPoints(DedupByMount(t)) == MountPoints(t)
    decreases |t|
  {
    if |t| > 0 {
      var init := t[..|t| - 1];
      var x := t[|t| - 1];
      var rest := DedupByMount(init);
      DedupMountPoints(init);
      assert t == init + [x];
      MountPointsSnoc(init, x);
      if |rest| > 0 && rest[|rest| - 1].mountPoint == x.mountPoint {
        assert x.mountPoint in MountPoints(rest);
      } else {
        MountPointsSnoc(rest, x);
      }
    }
  }

  /** Dedup of a sorted sequence keeps, for each mount point, the first
      entry that has it. */
  lemma {:induction false} DedupFirst(t: seq<MountEntry>)
    requires SortedByMount(t)
    ensures forall i :: 0 <= i < |DedupByMount(t)| ==>
              FirstWithMount(t, DedupByMount(t)[i].mountPoint) == Some(DedupByMount(t)[i])
    decreases |t|
  {
    if |t| > 0 {
      var init := t[..|t| - 1];
      var x := t[|t| - 1];
      var rest := DedupByMount(init);
      DedupFirst(init);
      var r := DedupByMount(t);
      forall i | 0 <= i < |r| ensures FirstWithMount(t, r[i].mountPoint) == Some(r[i]) {
        FirstWithMountLast(t, r[i].mountPoint);
        if i == |rest| {
          assert r[i] == x;
          LastMountFresh(t);
        } else {
          assert r[i] == rest[i];
        }
      }
    }
  }

  /** `parse_proc_mounts` yields mount points in strictly increasing order
      and exactly the mount points of the accepted lines. */
  lemma ParseProcMountsOrdered(contents: string)
    ensures StrictlySortedByMount(ParseProcMounts(contents))
    ensures MountPoints(ParseProcMounts(contents)) == MountPoints(ParsedEntries(contents))
  {
    var parsed := ParsedEntries(contents);
    var sorted := SortByMount(parsed);
    DedupStrict(sorted);
    DedupMountPoints(sorted);
    MountPointsPermutation(sorted, parsed);
  }

  /** For each mount point, `parse_proc_mounts` keeps the first accepted
      line that named it, and that mount point is no pseudo filesystem. */
  lemma ParseProcMountsFirst(contents: string)
    ensures forall i :: 0 <= i < |ParseProcMounts(contents)| ==>
              FirstWithMount(ParsedEntries(contents), ParseProcMounts(contents)[i].mountPoint) == Some(ParseProcMounts(contents)[i])
    ensures forall i :: 0 <= i < |ParseProcMounts(contents)| ==> !IsVirtual(ParseProcMounts(contents)[i].mountPoint)
  {
    var parsed := ParsedEntries(contents);
    var sorted := SortByMount(parsed);
    DedupFirst(sorted);
    var r := ParseProcMounts(contents);
    forall i | 0 <= i < |r|
      ensures FirstWithMount(parsed, r[i].mountPoint) == Some(r[i])
      ensures !IsVirtual(r[i].mountPoint)
    {
      SortByMountFirst(parsed, r[i].mountPoint);
      var k :| 0 <= k < |parsed| && parsed[k] == r[i];
      var ix := Seqs.SomeIndices(ParseMountLine, Lines(contents));
      assert ParseMountLine(Lines(contents)[ix[k]]) == Some(parsed[k]);
    }
  }

  // ---------------------------------------------------------------------
  // stat_for_mount and aggregate_usage

  /** u64 arithmetic that sticks at the bounds instead of wrapping. */
  function SaturatingMul(a: U64, b: U64): (r: U64)
    ensures a * b <= U64_MAX ==> r == a * b
    ensures a * b > U64_MAX ==> r == U64_MAX
  {
    if a * b <= U64_MAX then a * b else U64_MAX
  }

  function SaturatingSub(a: U64, b: U64): (r: U64)
    ensures r <= a
    ensures b <= a ==> r + b == a
    ensures a < b ==> r == 0
  {
    if b <= a then a - b else 0
  }

  function SaturatingAdd(a: U64, b: U64): (r: U64)
    ensures a + b <= U64_MAX ==> r == a + b
    ensures a + b > U64_MAX ==> r == U64_MAX
  {
    if a + b <= U64_MAX then a + b else U64_MAX
  }

  /** The statvfs fields the collector reads. */
  datatype StatVfs = StatVfs(frsize: U64, bsize: U64, blocks: U64, bfree: U64, bavail: U64)

  /** Byte figures and usage ratio of one mount. */
  datatype MountStat = MountStat(totalBytes: U64, usedBytes: U64, availableBytes: U64, usageRatio: real)

  /** The fragment size when the filesystem reports one, else the block size. */
  function BlockSize(v: StatVfs): (b: U64)
    ensures v.frsize > 0 ==> b == v.frsize
    ensures v.frsize == 0 ==> b == v.bsize
  {
    if v.frsize > 0 then v.frsize else v.bsize
  }

  /** The arithmetic of `stat_for_mount` on the statvfs fields. */
  function StatForMount(v: StatVfs): (m: MountStat)
    ensures m.usedBytes <= m.totalBytes
    ensures 0.0 <= m.usageRatio <= 1.0
    ensures m.totalBytes == 0 ==> m.usageRatio == 0.0
    ensures m.totalBytes > 0 ==> m.usageRatio * (m.totalBytes as real) == m.usedBytes as real
  {
    var bs := BlockSize(v);
    var total := SaturatingMul(v.blocks, bs);
    var available := SaturatingMul(v.bavail, bs);
    var free := SaturatingMul(v.bfree, bs);
    var used := SaturatingSub(total, free);
    MountStat(total, used, available, UsageRatio(used, total))
  }

  /** used / total as a ratio, 0 for an empty filesystem. */
  function UsageRatio(used: nat, total: nat): (r: real)
    requires used <= total
    ensures 0.0 <= r <= 1.0
    ensures total == 0 ==> r == 0.0
    ensures total > 0 ==> r * (total as real) == used as real
  {
    if total == 0 then 0.0
    else
      var r := used as real / total as real;
      assert r * (total as real) == used as real;
      assert r <= 1.0 by {
        assert used as real <= total as real;
        assert (total as real) / (total as real) == 1.0;
      }
      r
  }

  /** Without overflow the byte figures are the exact products, and the
      used bytes are the blocks not free. */
  lemma StatForMountExact(v: StatVfs)
    requires v.blocks * BlockSize(v) <= U64_MAX && v.bavail * BlockSize(v) <= U64_MAX
    requires v.bfree <= v.blocks
    ensures StatForMount(v).totalBytes == v.blocks * BlockSize(v)
    ensures StatForMount(v).availableBytes == v.bavail * BlockSize(v)
    ensures StatForMount(v).usedBytes == (v.blocks - v.bfree) * BlockSize(v)
  {
    var bs := BlockSize(v);
    assert v.bfree * bs <= v.blocks * bs by {
      MulMonotone(v.bfree, v.blocks, bs);
    }
    assert (v.blocks - v.bfree) * bs == v.blocks * bs - v.bfree * bs;
  }

  lemma MulMonotone(a: nat, b: nat, c: nat)
    requires a <= b
    ensures a * c <= b * c
  {
  }

  /** One measured mount, as reported in the snapshot. */
  datatype MountUsage = MountUsage(
    mountPoint: string,
    fsType: string,
    totalBytes: U64,
    usedBytes: U64,
    availableBytes: U64,
    usageRatio: real)

  datatype AggregateUsage = AggregateUsage(totalBytes: U64, usedBytes: U64, availableBytes: U64)

  function TotalOf(m: MountUsage): nat { m.totalBytes }
  function UsedOf(m: MountUsage): nat { m.usedBytes }
  function AvailableOf(m: MountUsage): nat { m.availableBytes }

  /** A number capped at the u64 maximum. */
  function Capped(n: nat): U64 {
    if n <= U64_MAX then n else U64_MAX
  }

  /** The left fold of saturating additions, as the loop computes it. */
  function SaturatingSum(key: MountUsage -> nat, s: seq<MountUsage>): U64
    decreases |s|
  {
    if |s| == 0 then 0 else Capped(SaturatingSum(key, s[..|s| - 1]) + key(s[|s| - 1]))
  }

  /** Once saturated the fold stays saturated, so it is the exact sum
      capped: exact whenever the sum fits in a u64. */
  lemma {:induction false} SaturatingSumIsCappedSum(key: MountUsage -> nat, s: seq<MountUsage>)
    ensures SaturatingSum(key, s) == Capped(Seqs.SumBy(key, s))
    decreases |s|
  {
    if |s| > 0 {
      SaturatingSumIsCappedSum(key, s[..|s| - 1]);
    }
  }

  /** `aggregate_usage`: the field-wise saturating sums over the mounts. */
  method AggregateUsageOf(mounts: seq<MountUsage>) returns (agg: AggregateUsage)
    ensures agg.totalBytes == Capped(Seqs.SumBy(TotalOf, mounts))
    ensures agg.usedBytes == Capped(Seqs.SumBy(UsedOf, mounts))
    ensures agg.availableBytes == Capped(Seqs.SumBy(AvailableOf, mounts))
  {
    var total: U64, used: U64, available: U64 := 0, 0, 0;
    for i := 0 to |mounts|
      invariant total == SaturatingSum(TotalOf, mounts[..i])
      invariant used == SaturatingSum(UsedOf, mounts[..i])
      invariant available == SaturatingSum(AvailableOf, mounts[..i])
    {
      assert mounts[..i + 1][..i] == mounts[..i];
      total := SaturatingAdd(total, mounts[i].totalBytes);
      used := SaturatingAdd(used, mounts[i].usedBytes);
      available := SaturatingAdd(available, mounts[i].availableBytes);
    }
    assert mounts[..|mounts|] == mounts;
    SaturatingSumIsCappedSum(TotalOf, mounts);
    SaturatingSumIsCappedSum(UsedOf, mounts);
    SaturatingSumIsCappedSum(AvailableOf, mounts);
    agg := AggregateUsage(total, used, available);
  }

  /** Two mounts of 100 and 50 bytes, 40 and 10 used: the totals are 150,
      50 and 100. */
  lemma AggregateExample()
    ensures var mounts := [MountUsage("/", "ext4", 100, 40, 60, 0.4), MountUsage("/var", "ext4", 50, 10, 40, 0.2)];
            Capped(Seqs.SumBy(TotalOf, mounts)) == 150
            && Capped(Seqs.SumBy(UsedOf, mounts)) == 50
            && Capped(Seqs.SumBy(AvailableOf, mounts)) == 100
  {
    var mounts := [MountUsage("/", "ext4", 100, 40, 60, 0.4), MountUsage("/var", "ext4", 50, 10, 40, 0.2)];
    assert mounts[..1] == [mounts[0]];
    assert mounts[..1][..0] == [];
  }

  // ---------------------------------------------------------------------
  // build_snapshot and collect

  datatype StorageSnapshot = StorageSnapshot(mounts: seq<MountUsage>, aggregate: AggregateUsage)

  const NO_USAGE := "no filesystem usage information available"

  /** The note for a mount whose statvfs call failed. The error shown is
      the context attached to the failure, whatever the system error was. */
  function UsageNote(mountPoint: string): string {
    "Failed to read usage for " + mountPoint + ": statvfs failed"
  }

  /** A mount's usage record when its statvfs call succeeded. */
  function UsageOf(e: MountEntry, stat: Option<StatVfs>): (r: Option<MountUsage>)
    ensures r.Some? <==> stat.Some?
    ensures r.Some? ==> r.value.mountPoint == e.mountPoint && r.value.fsType == e.fsType
  {
    match stat
    case None => None
    case Some(v) =>
      var m := StatForMount(v);
      Some(MountUsage(e.mountPoint, e.fsType, m.totalBytes, m.usedBytes, m.availableBytes, m.usageRatio))
  }

  /** A mount's note when its statvfs call failed. */
  function NoteOf(e: MountEntry, stat: Option<StatVfs>): (r: Option<string>)
    ensures r.Some? <==> stat.None?
  {
    if stat.None? then Some(UsageNote(e.mountPoint)) else None
  }

  /** Measuring a mount with the given statvfs calls. */
  function Measure(statvfs: string -> Option<StatVfs>): MountEntry -> Option<MountUsage> {
    (e: MountEntry) => UsageOf(e, statvfs(e.mountPoint))
  }

  /** Noting a mount whose statvfs call failed. */
  function Note(statvfs: string -> Option<StatVfs>): MountEntry -> Option<string> {
    (e: MountEntry) => NoteOf(e, statvfs(e.mountPoint))
  }

  /** The usage records of the mounts whose statvfs call succeeded, in
      table order. */
  function Usages(mounts: seq<MountEntry>, statvfs: string -> Option<StatVfs>): seq<MountUsage> {
    Seqs.FilterMap(Measure(statvfs), mounts)
  }

  /** The notes of the mounts whose statvfs call failed, in table order. */
  function UsageNotes(mounts: seq<MountEntry>, statvfs: string -> Option<StatVfs>): seq<string> {
    Seqs.FilterMap(Note(statvfs), mounts)
  }

  /** Every mount is measured or noted, never both. */
  lemma UsagesAndNotesPartition(mounts: seq<MountEntry>, statvfs: string -> Option<StatVfs>)
    ensures |Usages(mounts, statvfs)| + |UsageNotes(mounts, statvfs)| == |mounts|
  {
    forall i | 0 <= i < |mounts|
      ensures Measure(statvfs)(mounts[i]).Some? <==> Note(statvfs)(mounts[i]).None?
    {
      var stat := statvfs(mounts[i].mountPoint);
      assert Measure(statvfs)(mounts[i]) == UsageOf(mounts[i], stat);
      assert Note(statvfs)(mounts[i]) == NoteOf(mounts[i], stat);
    }
    Seqs.FilterMapPartition(Measure(statvfs), Note(statvfs), mounts);
  }

  /** No usage record at all exactly when every statvfs call failed. */
  lemma UsagesEmpty(mounts: seq<MountEntry>, statvfs: string -> Option<StatVfs>)
    ensures |Usages(mounts, statvfs)| == 0 <==> forall i :: 0 <= i < |mounts| ==> statvfs(mounts[i].mountPoint).None?
  {
    var measure := Measure(statvfs);
    var ix := Seqs.SomeIndices(measure, mounts);
    if |Usages(mounts, statvfs)| == 0 {
      forall i | 0 <= i < |mounts| ensures statvfs(mounts[i].mountPoint).None? {
        assert measure(mounts[i]).Some? <==> statvfs(mounts[i].mountPoint).Some?;
      }
    } else {
      assert measure(mounts[ix[0]]).Some?;
    }
  }

  /** Every usage record is measured on a mount of the table, in table
      order, and uses no more than its total. */
  lemma UsagesWellFormed(mounts: seq<MountEntry>, statvfs: string -> Option<StatVfs>)
    ensures forall k :: 0 <= k < |Usages(mounts, statvfs)| ==>
              Usages(mounts, statvfs)[k].usedBytes <= Usages(mounts, statvfs)[k].totalBytes
    ensures forall k :: 0 <= k < |Usages(mounts, statvfs)| ==>
              exists j :: 0 <= j < |mounts| && statvfs(mounts[j].mountPoint).Some?
                && mounts[j].mountPoint == Usages(mounts, statvfs)[k].mountPoint
                && mounts[j].fsType == Usages(mounts, statvfs)[k].fsType
  {
    var measure := Measure(statvfs);
    var usages := Usages(mounts, statvfs);
    var ix := Seqs.SomeIndices(measure, mounts);
    forall k | 0 <= k < |usages|
      ensures usages[k].usedBytes <= usages[k].totalBytes
      ensures exists j :: 0 <= j < |mounts| && statvfs(mounts[j].mountPoint).Some?
                && mounts[j].mountPoint == usages[k].mountPoint && mounts[j].fsType == usages[k].fsType
    {
      var j := ix[k];
      assert UsageOf(mounts[j], statvfs(mounts[j].mountPoint)) == Some(usages[k]);
    }
    assert usages == Usages(mounts, statvfs);
  }

  /** `build_snapshot`: every mount of the table is either measured or
      noted; with no measured mount at all the snapshot fails. The file
      read and statvfs are parameters (`None`: the call failed). */
  method BuildSnapshot(mountsFile: Result<string, string>, statvfs: string -> Option<StatVfs>)
    returns (r: Result<(StorageSnapshot, seq<string>), string>)
    ensures mountsFile.Err? ==> r == Err(mountsFile.error)
    ensures mountsFile.Ok? ==>
              var mounts := ParseProcMounts(mountsFile.value);
              (r.Err? <==> forall i :: 0 <= i < |mounts| ==> statvfs(mounts[i].mountPoint).None?)
              && (r.Err? ==> r.error == NO_USAGE)
              && (r.Ok? ==> r.value.0.mounts == Usages(mounts, statvfs) && r.value.1 == UsageNotes(mounts, statvfs))
              && (r.Ok? ==> |r.value.0.mounts| > 0 && |r.value.0.mounts| + |r.value.1| == |mounts|)
    ensures r.Ok? ==>
              var snapshot := r.value.0;
              snapshot.aggregate.totalBytes == Capped(Seqs.SumBy(TotalOf, snapshot.mounts))
              && snapshot.aggregate.usedBytes == Capped(Seqs.SumBy(UsedOf, snapshot.mounts))
              && snapshot.aggregate.availableBytes == Capped(Seqs.SumBy(AvailableOf, snapshot.mounts))
  {
    if mountsFile.Err? {
      return Err(mountsFile.error);
    }
    var mounts := ParseProcMounts(mountsFile.value);
    var usages := Usages(mounts, statvfs);
    var notes := UsageNotes(mounts, statvfs);
    UsagesAndNotesPartition(mounts, statvfs);
    UsagesEmpty(mounts, statvfs);
    if |usages| == 0 {
      return Err(NO_USAGE);
    }
    var aggregate := AggregateUsageOf(usages);
    return Ok((StorageSnapshot(usages, aggregate), notes));
  }

  /** `collect`: a successful snapshot gives a Success section with the
      mount count in its summary and the notes attached; a failure gives a
      Degraded section whose summary is the error. The average usage is
      formatted from floating point and arrives as text. */
  method StorageSection(mountsFile: Result<string, string>, statvfs: string -> Option<StatVfs>, averageText: string)
    returns (section: Sdk.Section)
    ensures section.id == "storage" && section.title == "Storage Overview"
    ensures Sdk.Explained(section)
    ensures mountsFile.Err? ==> section.status == Sdk.Degraded && section.summary == Some(mountsFile.error)
    ensures mountsFile.Ok? ==>
              var mounts := ParseProcMounts(mountsFile.value);
              (section.status == Sdk.Degraded <==> forall i :: 0 <= i < |mounts| ==> statvfs(mounts[i].mountPoint).None?)
              && (section.status == Sdk.Degraded ==> section.summary == Some(NO_USAGE))
              && (section.status == Sdk.Success ==> |section.notes| < |mounts|)
              && (section.status == Sdk.Success ==> section.notes == UsageNotes(mounts, statvfs))
    ensures section.status != Sdk.Error
    ensures section.body == Sdk.OpaqueBody
  {
    var built := BuildSnapshot(mountsFile, statvfs);
    match built {
      case Ok((snapshot, notes)) =>
        section := Sdk.SuccessSection("storage", "Storage Overview", Sdk.OpaqueBody);
        section := section.(summary := Some(NatToString(|snapshot.mounts|) + " mounts, " + averageText + "% average usage"),
                            notes := notes);
      case Err(error) =>
        section := Sdk.DegradedSection("storage", "Storage Overview", error, Sdk.OpaqueBody);
    }
  }

  /** The storage section carries its mounts under "mounts", not the
      "operating_mounts" key the health digest reads, so the digest's
      storage rule never fires on it. */
  lemma StorageSectionHasNoMountAlerts(section: Sdk.Section, t: Health.Thresholds)
    requires section.body == Sdk.OpaqueBody
    ensures Health.StorageAlerts(section, t) == []
  {
  }
}
