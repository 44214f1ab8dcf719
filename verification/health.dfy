/** The health digest: a rule-based second pass over finished sections that
    turns degraded or failed sections, nearly-full mounts and low memory into
    prioritised findings (`mod health` in vmic-core/src/lib.rs). */
module Health {
  import opened Wrappers
  import opened Sdk
  import Seqs

  // ---------------------------------------------------------------------
  // Severity

  /** Ordered Info < Warning < Critical (the derived `Ord`). */
  datatype Severity = Info | Warning | Critical

  function Rank(s: Severity): nat {
    match s
    case Info => 0
    case Warning => 1
    case Critical => 2
  }

  predicate AtMost(a: Severity, b: Severity) {
    Rank(a) <= Rank(b)
  }

  /** `Ord::max` on severities. */
  function Max(a: Severity, b: Severity): (m: Severity)
    ensures AtMost(a, m) && AtMost(b, m)
    ensures m == a || m == b
  {
    if Rank(b) > Rank(a) then b else a
  }

  /** `Severity::as_str` (also the serialised form). */
  function SeverityText(s: Severity): string {
    match s
    case Info => "info"
    case Warning => "warning"
    case Critical => "critical"
  }

  /** `Severity::display_label`. */
  function SeverityLabel(s: Severity): string {
    match s
    case Info => "Info"
    case Warning => "Warning"
    case Critical => "Critical"
  }

  function ParseSeverity(text: string): Option<Severity> {
    if text == "info" then Some(Info)
    else if text == "warning" then Some(Warning)
    else if text == "critical" then Some(Critical)
    else None
  }

  /** The serialised severity reads back as itself, and only its own text does. */
  lemma SeverityTextRoundTrip(s: Severity, text: string)
    ensures ParseSeverity(SeverityText(s)) == Some(s)
    ensures ParseSeverity(text) == Some(s) ==> text == SeverityText(s)
  {
  }

  // ---------------------------------------------------------------------
  // Findings

  /** Why a mount was flagged; the numbers the message would print. */
  datatype Reason =
    | HighUsage(usageRatio: real)
    | LowFreeSpace(availableBytes: nat)
    | HighInodeUsage(inodesRatio: real)
    | BootNearlyFull
    | BootLowFreeSpace

  /** A finding's message, kept as the facts it is formatted from. */
  datatype Message =
    | Text(text: string)
    | MountMessage(mountPoint: string, fsType: string, usageRatio: real, reasons: seq<Reason>)
    | HostMemoryMessage(availableRatio: real, availableBytes: nat)
    | CgroupMemoryMessage(remainingRatio: real, remainingBytes: nat)

  datatype Finding = Finding(sourceId: string, sourceTitle: string, severity: Severity, message: Message)

  datatype HealthDigest = HealthDigest(overall: Severity, findings: seq<Finding>)

  /** `CriticalFinding::new`: attributes a concern to the section it came from. */
  function FindingFor(section: Section, severity: Severity, message: Message): (f: Finding)
    ensures f.sourceId == section.id && f.sourceTitle == section.title
    ensures f.severity == severity && f.message == message
  {
    Finding(section.id, section.title, severity, message)
  }

  // ---------------------------------------------------------------------
  // Thresholds

  datatype Thresholds = Thresholds(
    diskWarning: real,
    diskCritical: real,
    memoryWarning: real,
    memoryCritical: real)

  /** `DigestThresholds::default`. */
  const DefaultThresholds := Thresholds(0.90, 0.95, 0.10, 0.05)

  datatype ThresholdName = DiskWarningName | DiskCriticalName | MemoryWarningName | MemoryCriticalName

  datatype ThresholdError =
    | OutOfRange(name: ThresholdName)
    | DiskWarningAboveCritical
    | MemoryWarningBelowCritical

  predicate InUnitRange(x: real) {
    0.0 <= x <= 1.0
  }

  /** All four thresholds are ratios in [0, 1]. */
  ghost predicate AllInUnitRange(t: Thresholds) {
    InUnitRange(t.diskWarning) && InUnitRange(t.diskCritical)
    && InUnitRange(t.memoryWarning) && InUnitRange(t.memoryCritical)
  }

  /** What a usable configuration is: four ratios in [0, 1], the disk warning
      level not above the critical one, and the memory warning floor not
      below the critical floor (memory thresholds bound the remaining share). */
  ghost predicate Sensible(t: Thresholds) {
    AllInUnitRange(t)
    && t.diskWarning <= t.diskCritical
    && t.memoryWarning >= t.memoryCritical
  }

  /** `DigestThresholds::validate`: range checks in field order, then the two
      ordering checks. */
  function Validate(t: Thresholds): (r: Result<(), ThresholdError>)
    ensures r.Ok? <==> Sensible(t)
    ensures r == Err(OutOfRange(DiskWarningName)) <==> !InUnitRange(t.diskWarning)
    ensures r == Err(OutOfRange(DiskCriticalName)) <==>
              InUnitRange(t.diskWarning) && !InUnitRange(t.diskCritical)
    ensures r == Err(OutOfRange(MemoryWarningName)) <==>
              InUnitRange(t.diskWarning) && InUnitRange(t.diskCritical) && !InUnitRange(t.memoryWarning)
    ensures r == Err(OutOfRange(MemoryCriticalName)) <==>
              InUnitRange(t.diskWarning) && InUnitRange(t.diskCritical) && InUnitRange(t.memoryWarning)
              && !InUnitRange(t.memoryCritical)
    ensures r == Err(DiskWarningAboveCritical) <==>
              AllInUnitRange(t) && t.diskWarning > t.diskCritical
    ensures r == Err(MemoryWarningBelowCritical) <==>
              AllInUnitRange(t) && t.diskWarning <= t.diskCritical && t.memoryWarning < t.memoryCritical
  {
    if !InUnitRange(t.diskWarning) then Err(OutOfRange(DiskWarningName))
    else if !InUnitRange(t.diskCritical) then Err(OutOfRange(DiskCriticalName))
    else if !InUnitRange(t.memoryWarning) then Err(OutOfRange(MemoryWarningName))
    else if !InUnitRange(t.memoryCritical) then Err(OutOfRange(MemoryCriticalName))
    else if t.diskWarning > t.diskCritical then Err(DiskWarningAboveCritical)
    else if t.memoryWarning < t.memoryCritical then Err(MemoryWarningBelowCritical)
    else Ok(())
  }

  /** The shipped defaults 0.90 / 0.95 / 0.10 / 0.05 pass validation. */
  lemma DefaultThresholdsValid()
    ensures Validate(DefaultThresholds) == Ok(())
  {
  }

  // ---------------------------------------------------------------------
  // Base rule

  const DegradedFallback := "Collector reported a degraded state"
  const ErrorFallback := "Collector failed"

  /** A degraded section is a warning and a failed one is critical, quoting
      the section's summary or a fixed fallback; a successful one adds nothing. */
  function BaseFinding(section: Section): (r: Option<Finding>)
    ensures r.Some? <==> section.status != Success
    ensures r.Some? ==> r.value.sourceId == section.id && r.value.sourceTitle == section.title
    ensures section.status == Degraded ==> r.value.severity == Warning
    ensures section.status == Error ==> r.value.severity == Critical
    ensures r.Some? && section.summary.Some? ==> r.value.message == Text(section.summary.value)
    ensures section.status == Degraded && section.summary.None? ==> r.value.message == Text(DegradedFallback)
    ensures section.status == Error && section.summary.None? ==> r.value.message == Text(ErrorFallback)
  {
    match section.status
    case Success => None
    case Degraded => Some(FindingFor(section, Warning, Text(section.summary.GetOr(DegradedFallback))))
    case Error => Some(FindingFor(section, Critical, Text(section.summary.GetOr(ErrorFallback))))
  }

  // ---------------------------------------------------------------------
  // Storage rule

  /** 2^30 bytes. Free space is compared in GiB against exact binary
      fractions, so each floor is an exact byte count. */
  const GIB: nat := 0x4000_0000
  const FREE_CRITICAL_BYTES: nat := 2 * GIB
  const FREE_WARNING_BYTES: nat := 5 * GIB
  const BOOT_CRITICAL_BYTES: nat := GIB / 4
  const BOOT_WARNING_BYTES: nat := GIB / 2
  const INODE_CRITICAL: real := 0.90
  const INODE_WARNING: real := 0.80

  predicate IsBootMount(point: string) {
    point == "/boot" || point == "/boot/efi"
  }

  datatype Signal = Signal(severity: Severity, reason: Reason)

  function UsageSignal(ratio: real, t: Thresholds): Option<Signal> {
    if ratio >= t.diskCritical then Some(Signal(Critical, HighUsage(ratio)))
    else if ratio >= t.diskWarning then Some(Signal(Warning, HighUsage(ratio)))
    else None
  }

  function FreeSpaceSignal(available: nat): Option<Signal> {
    if available <= FREE_CRITICAL_BYTES then Some(Signal(Critical, LowFreeSpace(available)))
    else if available <= FREE_WARNING_BYTES then Some(Signal(Warning, LowFreeSpace(available)))
    else None
  }

  function InodeSignal(ratio: real): Option<Signal> {
    if ratio >= INODE_CRITICAL then Some(Signal(Critical, HighInodeUsage(ratio)))
    else if ratio >= INODE_WARNING then Some(Signal(Warning, HighInodeUsage(ratio)))
    else None
  }

  function BootSignal(point: string, available: nat): Option<Signal> {
    if !IsBootMount(point) then None
    else if available <= BOOT_CRITICAL_BYTES then Some(Signal(Critical, BootNearlyFull))
    else if available <= BOOT_WARNING_BYTES then Some(Signal(Warning, BootLowFreeSpace))
    else None
  }

  /** The source's `escalate`: raise `current` to `signal`'s severity, never lower it. */
  function Escalate(current: Severity, signal: Option<Signal>): (r: Severity)
    ensures AtMost(current, r)
    ensures signal.Some? ==> AtMost(signal.value.severity, r)
    ensures r == current || (signal.Some? && r == signal.value.severity)
  {
    match signal
    case None => current
    case Some(s) => if Rank(s.severity) > Rank(current) then s.severity else current
  }

  function ReasonOf(signal: Option<Signal>): seq<Reason> {
    match signal
    case None => []
    case Some(s) => [s.reason]
  }

  /** The storage rule for one entry of "operating_mounts". Entries without a
      mount point or usage ratio, not operational, or read-only are skipped;
      a missing free-space count reads as 0 bytes and a missing inode ratio as
      0. The finding's severity is the highest of the triggered signals. */
  function MountFinding(section: Section, mount: MountDoc, t: Thresholds): (r: Option<Finding>)
    ensures mount.mountPoint.None? || mount.usageRatio.None? ==> r.None?
    ensures mount.operational != Some(true) || mount.readOnly == Some(true) ==> r.None?
    ensures r.Some? ==> r.value.sourceId == section.id && r.value.severity != Info
    ensures mount.mountPoint.Some? && mount.usageRatio.Some?
            && mount.operational == Some(true) && mount.readOnly != Some(true) ==>
              var point, ratio := mount.mountPoint.value, mount.usageRatio.value;
              var available := mount.availableBytes.GetOr(0);
              var inodes := mount.inodesUsageRatio.GetOr(0.0);
              && (r.Some? <==>
                    ratio >= t.diskWarning || ratio >= t.diskCritical
                    || available <= FREE_WARNING_BYTES
                    || inodes >= INODE_WARNING
                    || (IsBootMount(point) && available <= BOOT_WARNING_BYTES))
              && (r.Some? && r.value.severity == Critical <==>
                    ratio >= t.diskCritical
                    || available <= FREE_CRITICAL_BYTES
                    || inodes >= INODE_CRITICAL
                    || (IsBootMount(point) && available <= BOOT_CRITICAL_BYTES))
  {
    if mount.mountPoint.None? then None
    else if !mount.operational.GetOr(false) then None
    else if mount.usageRatio.None? then None
    else if mount.readOnly.GetOr(false) then None
    else
      var point, ratio := mount.mountPoint.value, mount.usageRatio.value;
      var fsType := mount.fsType.GetOr("");
      var available := mount.availableBytes.GetOr(0);
      var inodes := mount.inodesUsageRatio.GetOr(0.0);
      var usage, free, inode, boot :=
        UsageSignal(ratio, t), FreeSpaceSignal(available), InodeSignal(inodes), BootSignal(point, available);
      var severity := Escalate(Escalate(Escalate(Escalate(Info, usage), free), inode), boot);
      var reasons := ReasonOf(usage) + ReasonOf(free) + ReasonOf(inode) + ReasonOf(boot);
      if severity == Info then None
      else Some(FindingFor(section, severity, MountMessage(point, fsType, ratio, reasons)))
  }

  /** The boot-volume floors (0.25 and 0.5 GiB) lie below the general
      free-space floors (2 and 5 GiB), so they add a reason but never change
      a mount's severity. */
  lemma BootFloorNeverEscalates(point: string, available: nat, s: Severity)
    requires AtMost(Escalate(Info, FreeSpaceSignal(available)), s)
    ensures Escalate(s, BootSignal(point, available)) == s
  {
  }

  /** `collect_storage_alerts`: only for the section with id "storage", one
      finding per flagged entry of "operating_mounts", in entry order. */
  function StorageAlerts(section: Section, t: Thresholds): (r: seq<Finding>)
    ensures section.id != "storage" || section.body.operatingMounts.None? ==> r == []
    ensures forall k :: 0 <= k < |r| ==> r[k].sourceId == "storage" && r[k].severity != Info
    ensures section.id == "storage" && section.body.operatingMounts.Some? ==>
              var mounts := section.body.operatingMounts.value;
              var ix := Seqs.SomeIndices((m: MountDoc) => MountFinding(section, m, t), mounts);
              |r| == |ix| <= |mounts|
              && forall k :: 0 <= k < |r| ==> MountFinding(section, mounts[ix[k]], t) == Some(r[k])
  {
    if section.id != "storage" then []
    else
      var mounts := section.body.operatingMounts.GetOr([]);
      Seqs.FilterMap((m: MountDoc) => MountFinding(section, m, t), mounts)
  }

  // ---------------------------------------------------------------------
  // Memory rule

  /** Severity for a remaining-memory share: at or below the critical floor
      is critical, else at or below the warning floor is a warning. */
  function MemorySeverity(ratio: real, t: Thresholds): Option<Severity> {
    if ratio <= t.memoryCritical then Some(Critical)
    else if ratio <= t.memoryWarning then Some(Warning)
    else None
  }

  /** Host memory: flagged when total > 0 and available/total is at or below
      a floor; missing counts read as 0. */
  function HostMemoryFinding(section: Section, host: HostMemoryDoc, t: Thresholds): (r: Option<Finding>)
    ensures r.Some? ==> host.totalBytes.GetOr(0) > 0
    ensures host.totalBytes.GetOr(0) > 0 ==>
              var ratio := host.availableBytes.GetOr(0) as real / host.totalBytes.GetOr(0) as real;
              && (r.Some? <==> ratio <= t.memoryWarning || ratio <= t.memoryCritical)
              && (r.Some? ==> (r.value.severity == Critical <==> ratio <= t.memoryCritical))
              && (r.Some? ==> r.value.severity != Info && r.value.sourceId == section.id)
  {
    var total := host.totalBytes.GetOr(0);
    var available := host.availableBytes.GetOr(0);
    if total == 0 then None
    else
      var ratio := available as real / total as real;
      match MemorySeverity(ratio, t)
      case None => None
      case Some(s) => Some(FindingFor(section, s, HostMemoryMessage(ratio, available)))
  }

  /** Share of a cgroup limit still unused; 0 once usage reaches the limit. */
  function RemainingRatio(limit: nat, usage: nat): (r: real)
    requires limit > 0
    ensures 0.0 <= r <= 1.0
    ensures r == 0.0 <==> usage >= limit
  {
    if usage >= limit then 0.0 else (limit - usage) as real / limit as real
  }

  /** Cgroup memory: flagged when the limit is positive and the remaining
      headroom is at or below a floor; missing counts read as 0. */
  function CgroupMemoryFinding(section: Section, cgroup: CgroupMemoryDoc, t: Thresholds): (r: Option<Finding>)
    ensures r.Some? ==> cgroup.limitBytes.GetOr(0) > 0
    ensures cgroup.limitBytes.GetOr(0) > 0 ==>
              var ratio := RemainingRatio(cgroup.limitBytes.GetOr(0), cgroup.usageBytes.GetOr(0));
              && (r.Some? <==> ratio <= t.memoryWarning || ratio <= t.memoryCritical)
              && (r.Some? ==> (r.value.severity == Critical <==> ratio <= t.memoryCritical))
              && (r.Some? ==> r.value.severity != Info && r.value.sourceId == section.id)
  {
    var limit := cgroup.limitBytes.GetOr(0);
    var usage := cgroup.usageBytes.GetOr(0);
    if limit == 0 then None
    else
      var ratio := RemainingRatio(limit, usage);
      var remaining := if usage >= limit then 0 else limit - usage;
      match MemorySeverity(ratio, t)
      case None => None
      case Some(s) => Some(FindingFor(section, s, CgroupMemoryMessage(ratio, remaining)))
  }

  function OptionToSeq<T>(o: Option<T>): (r: seq<T>)
    ensures |r| <= 1 && (r == [] <==> o.None?)
    ensures o.Some? ==> r == [o.value]
  {
    match o
    case None => []
    case Some(v) => [v]
  }

  /** `collect_proc_alerts`: only for the section with id "proc" that has a
      "memory" object; the host and cgroup findings are independent, host first. */
  function ProcAlerts(section: Section, t: Thresholds): (r: seq<Finding>)
    ensures section.id != "proc" || section.body.memory.None? ==> r == []
    ensures |r| <= 2
    ensures forall k :: 0 <= k < |r| ==> r[k].sourceId == "proc" && r[k].severity != Info
    ensures section.id == "proc" && section.body.memory.Some? ==>
              var memory := section.body.memory.value;
              var host := if memory.host.Some? then HostMemoryFinding(section, memory.host.value, t) else None;
              var cgroup := if memory.cgroup.Some? then CgroupMemoryFinding(section, memory.cgroup.value, t) else None;
              r == OptionToSeq(host) + OptionToSeq(cgroup)
  {
    if section.id != "proc" then []
    else
      match section.body.memory
      case None => []
      case Some(memory) =>
        var host := match memory.host
          case Some(h) => HostMemoryFinding(section, h, t)
          case None => None;
        var cgroup := match memory.cgroup
          case Some(c) => CgroupMemoryFinding(section, c, t)
          case None => None;
        OptionToSeq(host) + OptionToSeq(cgroup)
  }

  // ---------------------------------------------------------------------
  // The digest

  /** Everything one section contributes: its base finding, then storage
      alerts, then memory alerts. */
  function SectionFindings(section: Section, t: Thresholds): (r: seq<Finding>)
    ensures |r| > 0 && r[0] == BaseFinding(section).value <== section.status != Success
    ensures forall k :: 0 <= k < |r| ==> r[k].sourceId == section.id
    ensures |r| == (if section.status != Success then 1 else 0) + |StorageAlerts(section, t)| + |ProcAlerts(section, t)|
    ensures forall f :: f in StorageAlerts(section, t) ==> f in r
    ensures forall f :: f in ProcAlerts(section, t) ==> f in r
    ensures forall f :: f in r ==>
              (BaseFinding(section) == Some(f)) || f in StorageAlerts(section, t) || f in ProcAlerts(section, t)
  {
    OptionToSeq(BaseFinding(section)) + StorageAlerts(section, t) + ProcAlerts(section, t)
  }

  /** All findings, section by section in section order. */
  function AllFindings(sections: seq<Section>, t: Thresholds): seq<Finding> {
    Seqs.FlatMap((s: Section) => SectionFindings(s, t), sections)
  }

  /** The highest severity among `findings`, or Info when there are none. */
  function Overall(findings: seq<Finding>): (s: Severity)
    ensures forall k :: 0 <= k < |findings| ==> AtMost(findings[k].severity, s)
    ensures |findings| == 0 ==> s == Info
    ensures |findings| > 0 ==> exists k :: 0 <= k < |findings| && findings[k].severity == s
    decreases |findings|
  {
    if |findings| == 0 then Info
    else
      var init := findings[..|findings| - 1];
      var s := Max(Overall(init), findings[|findings| - 1].severity);
      assert |init| > 0 ==> exists k :: 0 <= k < |init| && init[k].severity == Overall(init);
      s
  }

  /** `build_health_digest`. */
  function BuildHealthDigest(sections: seq<Section>, t: Thresholds): (d: HealthDigest)
    ensures d.findings == AllFindings(sections, t)
    ensures forall k :: 0 <= k < |d.findings| ==> AtMost(d.findings[k].severity, d.overall)
    ensures d.findings == [] ==> d.overall == Info
    ensures d.findings != [] ==> exists k :: 0 <= k < |d.findings| && d.findings[k].severity == d.overall
  {
    var findings := AllFindings(sections, t);
    HealthDigest(Overall(findings), findings)
  }

  /** Adding a section appends exactly its findings. */
  lemma AllFindingsSnoc(sections: seq<Section>, section: Section, t: Thresholds)
    ensures AllFindings(sections + [section], t) == AllFindings(sections, t) + SectionFindings(section, t)
  {
    assert (sections + [section])[..|sections|] == sections;
  }

  /** A section's findings all appear in the digest. */
  lemma SectionFindingsIncluded(sections: seq<Section>, t: Thresholds, i: nat, k: nat)
    requires i < |sections| && k < |SectionFindings(sections[i], t)|
    ensures SectionFindings(sections[i], t)[k] in AllFindings(sections, t)
  {
    Seqs.FlatMapIncludes((s: Section) => SectionFindings(s, t), sections, i, k);
  }

  /** Every storage or memory alert of a section is among the digest's
      findings, so the overall severity is at least the alert's. */
  lemma AlertReachesDigest(sections: seq<Section>, t: Thresholds, i: nat, f: Finding)
    requires i < |sections|
    requires f in StorageAlerts(sections[i], t) || f in ProcAlerts(sections[i], t)
    ensures f in BuildHealthDigest(sections, t).findings
    ensures AtMost(f.severity, BuildHealthDigest(sections, t).overall)
  {
    var r := SectionFindings(sections[i], t);
    var k :| 0 <= k < |r| && r[k] == f;
    SectionFindingsIncluded(sections, t, i, k);
    var d := BuildHealthDigest(sections, t);
    var m :| 0 <= m < |d.findings| && d.findings[m] == f;
  }

  /** A failed collector makes the whole digest critical. */
  lemma ErrorSectionMakesCritical(sections: seq<Section>, t: Thresholds, i: nat)
    requires i < |sections| && sections[i].status == Error
    ensures BuildHealthDigest(sections, t).overall == Critical
  {
    SectionFindingsIncluded(sections, t, i, 0);
  }

  /** A degraded (or failed) section makes the digest at least a warning. */
  lemma NonSuccessSectionAtLeastWarning(sections: seq<Section>, t: Thresholds, i: nat)
    requires i < |sections| && sections[i].status != Success
    ensures AtMost(Warning, BuildHealthDigest(sections, t).overall)
  {
    var f := SectionFindings(sections[i], t)[0];
    assert AtMost(Warning, f.severity);
    SectionFindingsIncluded(sections, t, i, 0);
    var d := BuildHealthDigest(sections, t);
    var k :| 0 <= k < |d.findings| && d.findings[k] == f;
    assert AtMost(f.severity, d.overall);
  }

  /** Successful sections that no domain rule reads produce no findings, so
      the digest is Info. */
  lemma {:induction false} QuietSectionsGiveInfo(sections: seq<Section>, t: Thresholds)
    requires forall i :: 0 <= i < |sections| ==>
               sections[i].status == Success && sections[i].id != "storage" && sections[i].id != "proc"
    ensures BuildHealthDigest(sections, t) == HealthDigest(Info, [])
    decreases |sections|
  {
    if |sections| > 0 {
      QuietSectionsGiveInfo(sections[..|sections| - 1], t);
    }
  }

  /** A degraded section with summary "something off" and nothing else gives
      one warning that quotes the summary. */
  lemma DegradedSectionDigest()
    ensures
      var s := DegradedSection("demo", "Demo", "something off", OpaqueBody);
      var d := BuildHealthDigest([s], DefaultThresholds);
      d.overall == Warning && |d.findings| == 1 && d.findings[0].message == Text("something off")
  {
    var s := DegradedSection("demo", "Demo", "something off", OpaqueBody);
    var f := FindingFor(s, Warning, Text("something off"));
    assert BaseFinding(s) == Some(f);
    assert StorageAlerts(s, DefaultThresholds) == [] && ProcAlerts(s, DefaultThresholds) == [];
    assert SectionFindings(s, DefaultThresholds) == [f];
    AllFindingsSnoc([], s, DefaultThresholds);
    assert [] + [s] == [s];
  }

  /** The operating mount used by the digest examples: "/data", ext4,
      operational and writable, half its inodes used. */
  function DataMount(ratio: real, available: nat): MountDoc {
    MountDoc(Some("/data"), Some("ext4"), Some(true), Some(false), Some(ratio), Some(available), Some(0.5))
  }

  /** 95% usage with 5 GB free is critical under the default thresholds. */
  lemma HighDiskUsageIsCritical()
    ensures
      var s := SuccessSection("storage", "Storage Overview", Body(Some([DataMount(0.95, 5_000_000_000)]), None, None));
      BuildHealthDigest([s], DefaultThresholds).overall == Critical
  {
    var s := SuccessSection("storage", "Storage Overview", Body(Some([DataMount(0.95, 5_000_000_000)]), None, None));
    var f := MountFinding(s, DataMount(0.95, 5_000_000_000), DefaultThresholds);
    assert f.Some? && f.value.severity == Critical;
    assert StorageAlerts(s, DefaultThresholds) == [f.value];
    assert [s][..0] == [];
  }

  /** 85% usage with 15 GB free and disk thresholds 0.80 / 0.90 is a warning, not critical. */
  lemma CustomThresholdsGiveWarning()
    ensures
      var s := SuccessSection("storage", "Storage Overview", Body(Some([DataMount(0.85, 15_000_000_000)]), None, None));
      var t := DefaultThresholds.(diskWarning := 0.80, diskCritical := 0.90);
      BuildHealthDigest([s], t).overall == Warning
  {
    var s := SuccessSection("storage", "Storage Overview", Body(Some([DataMount(0.85, 15_000_000_000)]), None, None));
    var t := DefaultThresholds.(diskWarning := 0.80, diskCritical := 0.90);
    var f := MountFinding(s, DataMount(0.85, 15_000_000_000), t);
    assert f.Some? && f.value.severity == Warning;
    assert StorageAlerts(s, t) == [f.value];
    assert [s][..0] == [];
  }
}
