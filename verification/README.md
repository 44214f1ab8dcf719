# vmic — a verified model of the report core

vmic collects a diagnostics report about a Linux host. Each registered
collector produces a `Section`: an id, a title, a status (success,
degraded, error), an optional summary, notes and a JSON body. The core
runs every collector behind a failure boundary. It then bundles the
sections with a *health digest*: a list of findings and an overall
severity, derived from the section statuses and from a few id-keyed
rules over the section bodies.

This project models, in Dafny, the pure decisions behind the host reads:

- **Sdk** (`sdk.dfy`): sections, their constructors and statuses, and the
  collection context.
- **Health** (`health.dfy`): severities, threshold validation, the base
  rule, the storage rule, the memory rule and the max-fold that gives the
  overall severity.
- **Report** (`report.dfy`): the per-collector failure boundary and the
  report's section count.
- **Network**, **Listeners**, **ListenerGroups** (`network.dfy`,
  `listeners.dfy`, `listener_groups.dfy`). These cover:
  - service classification, port extraction and the wildcard test;
  - the container heuristic on cgroup paths;
  - the capped listener sampling over the four socket tables;
  - the two-level process and container aggregation;
  - the insight buckets.
- **Storage** (`storage.dfy`): parsing the mount table, the statvfs
  arithmetic in saturating u64, the aggregate and the "no usable mounts"
  failure.
- **Security** (`security.dfy`): the sshd_config and sudoers analyses and
  the section's status choice.
- **Users** (`users.dfy`): passwd and group parsing, sudo marking and the
  summary.
- **Cron**, **Services**, **Containers** (`cron.dfy`, `services.dfy`,
  `containers.dfy`): crontab lines, `systemctl list-units` lines and
  runtime version detection.
- Support modules that model the Rust library behaviour the parsers rely
  on:
  - `Text` (`text.dfy`): `trim`, `split_whitespace`, `split`, `lines`,
    `to_ascii_lowercase`, `str::parse::<uN>`, decimal formatting and
    `String`'s ordering.
  - `Seqs` (`seqs.dfy`): `filter_map`, `take`, sums and a stable
    descending sort.
  - `Wrappers` (`wrappers.dfy`): `Option` and `Result`.
  - `Process` (`process.dfy`): the outcome of running a command.

Everything that reads the host is a parameter. This covers procfs tables,
the statvfs results, file contents (`None` or an error when unreadable),
command outcomes, the clock and the collector registry. Integers are
unbounded; u64 saturation, the u16 and u32 parse limits and the 20-sample
cap are written out.

Design decisions, where the code and the intent differ or the code is
subtle:

- The digest reads `operating_mounts` and `memory.host`. The storage
  collector emits its mounts under `mounts`, so its sections never trigger
  the storage rule (`Storage.StorageSectionHasNoMountAlerts`). The rules
  are modelled against the keys the digest reads, over typed records with
  `Option` fields.
- Free space is compared in GiB in the code. The floors 2, 5, 0.25 and 0.5
  GiB are exact binary fractions, so the model compares byte counts
  against k·2^30. The boot floors lie below the general floors, so they
  add a reason but never change a severity (`Health.BootFloorNeverEscalates`).
- Ratios are `real`. The digest only compares them; the statvfs ratio
  `used / total` is exact in the model.
- Findings carry an abstract message (`Health.Message`): the section
  summary text, or the facts a formatted message is built from.
- `classify_service` looks up the protocol text itself. The table knows
  only "tcp" and "udp", so tcp6 and udp6 samples are never classified
  (`Listeners.Ipv6SamplesUnclassified`).
- The container heuristic: a "docker/" path names the text between the
  first "docker/" and the next "docker/", cut at the first '/'. For a
  plain `docker/<id>` path that is the id.
- `HashMap` iteration order is not modelled. Grouping uses
  first-appearance order, followed by a stable non-increasing sort. The
  ordering facts proved are "sorted non-increasing" plus exact contents,
  which hold for any order the map could produce.
- Sudo marking collects the names of users with a privileged primary gid
  into the same set as the listed members. A later user of the same name
  is therefore also marked. `Users.SudoAt` states this as written;
  `Users.SudoWithUniqueNames` gives the intended reading when names are
  unique.
- `str::parse::<u16>` and `::<u32>` accept a leading '+'; `Text.ParseUnsigned`
  does too.
- An error with context (`anyhow`) displays as its outermost context only.
  So an unreadable sshd_config gives the note "sshd_config check failed:
  read /etc/ssh/sshd_config".
- In `parse_cron_line`, the macro branch's "missing user" error is
  reachable for a line holding only a macro word. The model rejects it the
  same way.
- The containers collector never fails: a runtime whose command did not
  run, or exited unsuccessfully, is simply absent.

## Model

| member | source | states |
|---|---|---|
| Sdk.NewContext | vmic-sdk/src/lib.rs:11-14 | a new context has no `since` filter |
| Sdk.WithSince | vmic-sdk/src/lib.rs:16-20 | a context built with a filter reports exactly that filter |
| Sdk.SetSince | vmic-sdk/src/lib.rs:22-28 | after `set_since`, `since()` returns the value set; `None` clears it |
| Sdk.SetSinceOverrides | vmic-sdk/src/lib.rs:22-24 | a second `set_since` replaces the first entirely |
| Sdk.StatusTextRoundTrip | vmic-sdk/src/lib.rs:48-57 | each status displays as "success", "degraded" or "error"; the text identifies the status uniquely |
| Sdk.SuccessSection | vmic-sdk/src/lib.rs:71-80 | status Success, no summary, no notes, the given id, title and body |
| Sdk.DegradedSection | vmic-sdk/src/lib.rs:82-96 | status Degraded with the given text as summary and no notes, so a degraded section is always explained |
| Sdk.ErrorSection | vmic-sdk/src/lib.rs:98-107 | status Error, summary and body `error` both the error text, so an error section is always explained |
| Sdk.HasNotes | vmic-sdk/src/lib.rs:109-111 | true exactly when the section has at least one note |
| Report.RunCollector | vmic-core/src/lib.rs:88-101 | a failing collector yields an Error section under its own id and title with the error as summary; a successful one keeps its section; either way the elapsed time is recorded |
| Report.CollectSections | vmic-core/src/lib.rs:85-104 | one section per collector in registry order, each with a duration; every failure becomes an Error section under the collector's id and title, with the error as summary, and none escapes |
| Report.CollectedSectionsExplained | vmic-core/src/lib.rs:85-104 | every collected section whose collector kept the constructor invariant is explained (non-success implies a summary) |
| Report.GeneratedAt | vmic-core/src/lib.rs:46-49 | the timestamp is "0" without a clock reading, else decimal seconds that parse back to the reading |
| Report.WithDigestConfig | vmic-core/src/lib.rs:45-63 | the report keeps the sections, counts them in its metadata and carries their health digest |
| Report.NewReport | vmic-core/src/lib.rs:41-43 | a plain report keeps the sections, records their number, takes the generation time from the clock and digests the sections under the default thresholds |
| Report.CollectReport | vmic-core/src/lib.rs:110-112 | the report holds one section per registered collector, in order, and its digest is taken under the given thresholds |
| Report.CollectDefaultReport | vmic-core/src/lib.rs:106-108 | the report holds one section per registered collector, and its digest is taken under the default thresholds |
| Report.DefaultReportIsDefaultDigest | vmic-core/src/lib.rs:106-112 | collecting with the defaults equals collecting with explicit default thresholds |
| Report.FailedCollectorMakesReportCritical | vmic-core/src/lib.rs:85-104 | one failing collector makes the report's overall severity Critical |
| Health.Max | vmic-core/src/lib.rs:120-127 | the larger of two severities under Info < Warning < Critical |
| Health.SeverityTextRoundTrip | vmic-core/src/lib.rs:129-135 | the lowercase severity names identify the severity uniquely |
| Health.FindingFor | vmic-core/src/lib.rs:166-175 | a finding names the section it came from, with the given severity and message |
| Health.Validate | vmic-core/src/lib.rs:196-227 | succeeds exactly when all four thresholds lie in [0, 1], disk warning <= disk critical and memory warning >= memory critical; each of the six errors is returned exactly when its check is the first to fail, in the order: the four ranges in field order, then disk ordering, then memory ordering |
| Health.DefaultThresholdsValid | vmic-core/src/lib.rs:185-194 | the defaults 0.90, 0.95, 0.10, 0.05 pass validation |
| Health.BaseFinding | vmic-core/src/lib.rs:236-251 | success adds nothing; degraded adds a Warning and error a Critical, quoting the summary or the fixed fallback text |
| Health.Escalate | vmic-core/src/lib.rs:323-327 | escalation never lowers a severity and reaches at least the signal's |
| Health.MountFinding | vmic-core/src/lib.rs:283-373 | skipped mounts give nothing; otherwise a finding exists exactly when some signal fires and is Critical exactly when some critical floor is crossed |
| Health.BootFloorNeverEscalates | vmic-core/src/lib.rs:337-361 | the boot-volume floors never raise the severity the free-space floors already gave |
| Health.StorageAlerts | vmic-core/src/lib.rs:267-375 | only the "storage" section with operating mounts yields findings: one per flagged mount, in mount order, never Info |
| Health.RemainingRatio | vmic-core/src/lib.rs:430-434 | the cgroup headroom lies in [0, 1] and is 0 exactly when usage reaches the limit |
| Health.HostMemoryFinding | vmic-core/src/lib.rs:390-417 | flagged exactly when total > 0 and available/total is at or below a floor; Critical exactly at or below the critical floor |
| Health.CgroupMemoryFinding | vmic-core/src/lib.rs:419-458 | flagged exactly when the limit is positive and the headroom is at or below a floor; Critical exactly at or below the critical floor |
| Health.ProcAlerts | vmic-core/src/lib.rs:377-459 | only the "proc" section with a memory object yields findings: the host finding, then the cgroup finding, independently |
| Health.SectionFindings | vmic-core/src/lib.rs:235-255 | a non-success section's base finding comes first; the findings are exactly the base finding, the storage alerts and the memory alerts, counted one for one; every finding is attributed to the section |
| Health.AlertReachesDigest | vmic-core/src/lib.rs:229-265 | every storage or memory alert of any section is among the digest's findings, and the overall severity is at least the alert's |
| Health.Overall | vmic-core/src/lib.rs:258-262 | the overall severity bounds every finding and is attained by one, or is Info without findings |
| Health.BuildHealthDigest | vmic-core/src/lib.rs:229-265 | the digest's findings are all sections' findings in order, and its overall severity is their maximum |
| Health.AllFindingsSnoc | vmic-core/src/lib.rs:235-256 | a further section appends exactly its own findings |
| Health.SectionFindingsIncluded | vmic-core/src/lib.rs:235-256 | every finding of every section reaches the digest |
| Health.ErrorSectionMakesCritical | vmic-core/src/lib.rs:245-250 | any Error section makes the overall severity Critical |
| Health.NonSuccessSectionAtLeastWarning | vmic-core/src/lib.rs:238-251 | any non-success section makes the overall severity at least Warning |
| Health.QuietSectionsGiveInfo | vmic-core/src/lib.rs:229-265 | successful sections without storage or memory data give an empty Info digest |
| Health.DegradedSectionDigest | vmic-core/src/lib.rs:1759-1769 | one degraded section gives a Warning digest with one finding quoting its summary |
| Health.HighDiskUsageIsCritical | vmic-core/src/lib.rs:1772-1806 | a mount 95 % full makes the digest Critical under the defaults |
| Health.CustomThresholdsGiveWarning | vmic-core/src/lib.rs:1808-1848 | with 0.80/0.90 disk thresholds a mount 85 % full with 15 GB free gives Warning |
| Network.InsecureServiceIff | modules/mod-network/src/lib.rs:515-527 | the insecure test holds exactly for the listed service names |
| Network.ExtractPort | modules/mod-network/src/lib.rs:469-473 | a port exists only after a ':' and is below 65536 |
| Network.ExtractPortRoundTrip | modules/mod-network/src/lib.rs:469-473 | "host:port" gives back the port for any host and any u16 |
| Network.ClassifyService | modules/mod-network/src/lib.rs:463-467 | a service name needs a parsable port and a lowercased protocol of "tcp" or "udp", and is the table entry for them |
| Network.ClassifyServiceProtocol | modules/mod-network/src/lib.rs:463-467 | classification ignores the protocol's case, and a protocol that is not three letters long never classifies |
| Network.ClassifyAt | modules/mod-network/src/lib.rs:463-513 | "host:port" classifies as the table entry for the lowercased protocol and the port |
| Network.ClassifySsh | modules/mod-network/src/lib.rs:482-513 | tcp port 22 is "ssh" on any host |
| Network.ClassifyTelnet | modules/mod-network/src/lib.rs:482-527 | "TCP" port 23 is "telnet", which is insecure |
| Network.WildcardExamples | modules/mod-network/src/lib.rs:475-480 | IPv4 and IPv6 any-addresses are wildcards and loopback is not |
| Network.ContainerFromPath | modules/mod-network/src/lib.rs:341-351 | a cgroup path names a container exactly when its trimmed form mentions docker/ or kubepods/; docker/ takes precedence and names the first '/'-segment of the text between the first docker/ and the next; otherwise kubepods/ names the path's last '/'-segment |
| Network.SecondPiece | modules/mod-network/src/lib.rs:343 | the second piece of a split on a pattern runs from the end of its first occurrence to the start of the next, or to the end, and holds no occurrence |
| Network.DockerPathNamesId | modules/mod-network/src/lib.rs:342-345 | "/docker/<id>" names the id |
| Network.KubepodsPathNamesLastSegment | modules/mod-network/src/lib.rs:347-350 | "kubepods/<pod>/<id>" names the last segment |
| Network.ExtractContainer | modules/mod-network/src/lib.rs:339-354 | the first cgroup that names a container wins; none otherwise |
| Network.Reference | modules/mod-network/src/lib.rs:447-460 | a reference copies the socket, takes the first process's pid and the first non-empty container |
| Network.Matching | modules/mod-network/src/lib.rs:447-460 | a bucket lists a reference for every matching sample, in sample order, and nothing else |
| Network.InsightFor | modules/mod-network/src/lib.rs:393-430 | a rule yields one insight exactly when some sample matches it |
| Network.DeriveListenerInsights | modules/mod-network/src/lib.rs:393-430 | at most two insights, each a non-empty warning, ordered by rule name |
| Network.InsightLayout | modules/mod-network/src/lib.rs:421-429 | the legacy-protocol bucket comes before the wildcard bucket |
| Network.InsightPresence | modules/mod-network/src/lib.rs:393-430 | an insight for a rule is present exactly when some sample matches the rule |
| Network.InsightContents | modules/mod-network/src/lib.rs:393-460 | the insight for a rule lists exactly the matching samples' references |
| Network.InsightsExample | modules/mod-network/src/lib.rs:689-732 | a wildcard telnet listener gives both insights, and a loopback app socket gives none |
| Network.ExampleRules | modules/mod-network/src/lib.rs:396-419 | the legacy and wildcard rules apply to the telnet listener and not to the loopback one |
| Listeners.ProcessesOf | modules/mod-network/src/lib.rs:206 | a socket unknown to the process map has no processes |
| Listeners.SampleOf | modules/mod-network/src/lib.rs:206-215 | a sample records the protocol, the address, the state, the socket's processes and its service |
| Listeners.ListeningSamples | modules/mod-network/src/lib.rs:203-204 | one TCP sample per row in the Listen state |
| Listeners.GatherTcp | modules/mod-network/src/lib.rs:201-220 | the count is the number of listening rows, and the buffer is extended by their samples up to 20 |
| Listeners.GatherUdp | modules/mod-network/src/lib.rs:243-263 | the count is the number of rows, and the buffer is extended by their samples up to 20 |
| Listeners.ReadTcpTable | modules/mod-network/src/lib.rs:201-220 | an unreadable TCP table adds one note and nothing else |
| Listeners.ReadUdpTable | modules/mod-network/src/lib.rs:243-263 | an unreadable UDP table adds one note and nothing else |
| Listeners.ReadTables | modules/mod-network/src/lib.rs:195-286 | the four reads give the exact counts, the first 20 candidates in table order and one note per unreadable table |
| Listeners.GatherListeners | modules/mod-network/src/lib.rs:195-299 | the snapshot holds the counts, min(20, total) samples, and the groups and insights of those samples |
| Listeners.Counts | modules/mod-network/src/lib.rs:203-204 | TCP tables count listening rows only; UDP tables count every row |
| Listeners.Notes | modules/mod-network/src/lib.rs:219 | one note per unreadable table, naming its path |
| Listeners.CandidatesMatchCounts | modules/mod-network/src/lib.rs:88-91 | the candidates are exactly as many as the total count |
| Listeners.SampleCount | modules/mod-network/src/lib.rs:205-249 | the number of samples is the total count capped at 20, and nothing is dropped when it fits |
| Listeners.CandidatesInTableOrder | modules/mod-network/src/lib.rs:201-285 | samples come in table order tcp, tcp6, udp, udp6; TCP ones are in Listen state and UDP ones have no state |
| Listeners.SamplesInTableOrder | modules/mod-network/src/lib.rs:205-271 | the kept samples keep that order and those states |
| Listeners.Ipv6SamplesUnclassified | modules/mod-network/src/lib.rs:228-235 | tcp6 and udp6 samples never get a service name |
| Listeners.UnreadableTcpTable | modules/mod-network/src/lib.rs:219 | an unreadable table contributes no count and no samples, exactly like an empty one, plus one note |
| ListenerGroups.InsertSorted | modules/mod-network/src/lib.rs:562-566 | inserting into a protocol or address set keeps it strictly sorted and adds exactly the new element |
| ListenerGroups.FindPid | modules/mod-network/src/lib.rs:361-363 | the lookup finds the group of a pid, or reports that none has it |
| ListenerGroups.PidGroupsKeys | modules/mod-network/src/lib.rs:359-367 | there is exactly one process group per distinct pid |
| ListenerGroups.PidGroupsCount | modules/mod-network/src/lib.rs:359-367 | a process group's socket count is the number of entries with its pid |
| ListenerGroups.PidGroupsTotal | modules/mod-network/src/lib.rs:359-367 | the process groups' socket counts add up to the number of process entries |
| ListenerGroups.PidGroupsSets | modules/mod-network/src/lib.rs:359-367 | a group's protocols and addresses are exactly those seen for its pid |
| ListenerGroups.PidGroupsFirst | modules/mod-network/src/lib.rs:549-579 | command, uid and container come from the pid's first entry |
| ListenerGroups.ContainerGroupsKeys | modules/mod-network/src/lib.rs:370-383 | one container group per distinct container, and each process group has one |
| ListenerGroups.ContainerGroupsConsistent | modules/mod-network/src/lib.rs:590-609 | a container group's socket count is its processes' sum and its process count their number |
| ListenerGroups.ContainerGroupsTotal | modules/mod-network/src/lib.rs:370-383 | container grouping conserves the socket total |
| ListenerGroups.ContainerGroupsMembers | modules/mod-network/src/lib.rs:370-383 | a container group holds exactly the processes of its container |
| ListenerGroups.ContainerGroupsPidsDistinct | modules/mod-network/src/lib.rs:370-383 | no pid appears twice in a container group |
| ListenerGroups.FinishContainer | modules/mod-network/src/lib.rs:600-609 | finishing sorts the processes by socket count, non-increasing, and keeps the counts |
| ListenerGroups.BuildListenerGroups | modules/mod-network/src/lib.rs:356-391 | groups and their processes are sorted non-increasing by socket count |
| ListenerGroups.ListenerGroupsConserveSockets | modules/mod-network/src/lib.rs:356-391 | the reported socket counts add up to the number of process entries across all samples |
| ListenerGroups.ListenerGroupsConsistent | modules/mod-network/src/lib.rs:356-391 | every reported group's counts agree with its processes |
| ListenerGroups.ReportedGroupOrigin | modules/mod-network/src/lib.rs:385-390 | every reported group is a finished container group |
| ListenerGroups.ReportedProcessOrigin | modules/mod-network/src/lib.rs:370-390 | every reported process comes from a process group of that container |
| ListenerGroups.PidInSomeGroup | modules/mod-network/src/lib.rs:356-391 | every pid seen in the samples is reported |
| ListenerGroups.GroupOfPid | modules/mod-network/src/lib.rs:356-391 | a pid is reported under the container of its first entry |
| ListenerGroups.PidInAtMostOneGroup | modules/mod-network/src/lib.rs:356-391 | a pid is reported in only one container group |
| ListenerGroups.ReportedProcessFacts | modules/mod-network/src/lib.rs:356-391 | a reported process has its pid's socket count and its first entry's command and uid |
| ListenerGroups.ReportedPidsDistinct | modules/mod-network/src/lib.rs:356-391 | no pid is reported twice within a group |
| ListenerGroups.GroupsExample | modules/mod-network/src/lib.rs:628-686 | nginx with two sockets in container_a comes before sshd with one and no container |
| Storage.ParseMountLine | modules/mod-storage/src/lib.rs:137-156 | blank lines are skipped; accepted mount points are not virtual and are single words |
| Storage.ParseMountLineRoundTrip | modules/mod-storage/src/lib.rs:140-156 | a mount line reads back as its mount point and type, or is dropped exactly when the mount point is virtual |
| Storage.SortByMount | modules/mod-storage/src/lib.rs:159 | the mounts are sorted by mount point and are a permutation of the input |
| Storage.SortByMountFirst | modules/mod-storage/src/lib.rs:159 | the sort is stable: the first entry of each mount point stays first |
| Storage.DedupByMount | modules/mod-storage/src/lib.rs:160 | dedup keeps only input entries and is empty exactly for an empty input |
| Storage.DedupStrict | modules/mod-storage/src/lib.rs:159-160 | after sorting and dedup, mount points strictly increase |
| Storage.DedupMountPoints | modules/mod-storage/src/lib.rs:160 | dedup keeps every mount point |
| Storage.DedupFirst | modules/mod-storage/src/lib.rs:160 | dedup keeps the first entry of each mount point |
| Storage.ParseProcMountsOrdered | modules/mod-storage/src/lib.rs:134-162 | the parsed mounts are strictly increasing and cover every accepted mount point |
| Storage.ParseProcMountsFirst | modules/mod-storage/src/lib.rs:134-162 | each kept mount is the first accepted line with that mount point |
| Storage.SaturatingMul | modules/mod-storage/src/lib.rs:179-181 | exact below 2^64, else pinned at the maximum |
| Storage.SaturatingSub | modules/mod-storage/src/lib.rs:182 | exact when no underflow, else 0 |
| Storage.SaturatingAdd | modules/mod-storage/src/lib.rs:203-205 | exact below 2^64, else pinned at the maximum |
| Storage.BlockSize | modules/mod-storage/src/lib.rs:174-178 | the fragment size when positive, else the block size |
| Storage.StatForMount | modules/mod-storage/src/lib.rs:172-195 | used never exceeds total; the ratio lies in [0, 1], is used/total, and is 0 for an empty filesystem |
| Storage.StatForMountExact | modules/mod-storage/src/lib.rs:174-187 | without overflow the byte counts are the exact products |
| Storage.UsageRatio | modules/mod-storage/src/lib.rs:183-187 | the ratio is in [0, 1], 0 for total 0, else used/total |
| Storage.AggregateUsageOf | modules/mod-storage/src/lib.rs:197-213 | each aggregate field is the field-wise sum, capped at 2^64 - 1 |
| Storage.SaturatingSumIsCappedSum | modules/mod-storage/src/lib.rs:197-213 | a saturating fold equals the capped exact sum |
| Storage.AggregateExample | modules/mod-storage/src/lib.rs:228-252 | two mounts aggregate to the sums of their fields |
| Storage.UsagesAndNotesPartition | modules/mod-storage/src/lib.rs:96-111 | every mount is either measured or noted |
| Storage.UsagesEmpty | modules/mod-storage/src/lib.rs:113-115 | no mount is measured exactly when every statvfs failed |
| Storage.UsagesWellFormed | modules/mod-storage/src/lib.rs:96-105 | every measured mount has used <= total and a ratio in [0, 1] |
| Storage.BuildSnapshot | modules/mod-storage/src/lib.rs:89-126 | fails on an unreadable table or when no mount could be measured; else the measured mounts, the notes and the aggregate |
| Storage.StorageSection | modules/mod-storage/src/lib.rs:21-47 | Degraded with the error when the snapshot fails or no mount is measured; else Success carrying exactly the notes of the mounts statvfs could not measure; never Error |
| Storage.StorageSectionHasNoMountAlerts | vmic-core/src/lib.rs:276-281 | the storage section's own body never triggers the digest's storage rule |
| Security.ParseDirective | modules/mod-security/src/lib.rs:122-129 | a line is ignored exactly when it is blank or a comment after trimming |
| Security.ParseDirectiveRoundTrip | modules/mod-security/src/lib.rs:127-129 | a directive line reads as its lowercased key and its words joined and lowercased |
| Security.Apply | modules/mod-security/src/lib.rs:130-136 | a directive sets only its own key, and hardening once set stays set |
| Security.LastOccurrenceWins | modules/mod-security/src/lib.rs:122-138 | a tracked key is set exactly when some directive sets it, and then to the last such value |
| Security.HardeningPresentIff | modules/mod-security/src/lib.rs:135 | hardening is present exactly when a KexAlgorithms, Ciphers or MACs line exists |
| Security.SshdFindings | modules/mod-security/src/lib.rs:140-174 | at most four findings, in check order; each appears exactly when its check fires |
| Security.PasswordAuthDecided | modules/mod-security/src/lib.rs:131-145 | the password finding appears exactly when the last PasswordAuthentication says yes |
| Security.AnalyzeSshd | modules/mod-security/src/lib.rs:111-177 | at most four findings, each a known check, in check order; each check's finding exactly when that check fires on the scanned settings; the password finding exactly when the last PasswordAuthentication says yes; hardening present exactly when some KexAlgorithms, Ciphers or MACs line exists |
| Security.EntryFindings | modules/mod-security/src/lib.rs:196-208 | a sudoers entry gives the password-less finding exactly when it has both markers and the wildcard finding exactly for an ALL rule |
| Security.SudoersLineFindings | modules/mod-security/src/lib.rs:190-209 | blank and comment lines give nothing; others are judged trimmed |
| Security.AnyLineContains | modules/mod-security/src/lib.rs:186 | true exactly when some line contains the pattern |
| Security.AnalyzeSudoers | modules/mod-security/src/lib.rs:184-212 | `includes_dir` holds exactly when some raw line contains "#includedir" |
| Security.PasswordlessReported | modules/mod-security/src/lib.rs:196-201 | every password-less entry is reported |
| Security.WildcardReported | modules/mod-security/src/lib.rs:203-208 | the wildcard finding appears exactly when some entry grants full access |
| Security.SudoersFindingOrigin | modules/mod-security/src/lib.rs:190-209 | every finding comes from a non-blank, non-comment line that triggers it |
| Security.SudoersFindingsBound | modules/mod-security/src/lib.rs:190-209 | at most two findings per line |
| Security.AnalyzeCgroups | modules/mod-security/src/lib.rs:214-235 | one finding exactly without the unified hierarchy; controllers only with it |
| Security.ReadNotes | modules/mod-security/src/lib.rs:22-36 | one note per unreadable file, naming it |
| Security.SecuritySection | modules/mod-security/src/lib.rs:19-63 | Success exactly when there is no finding, else Degraded with the count as summary; never Error |
| Security.CountSummarySection | modules/mod-security/src/lib.rs:53-58 | the Degraded summary reads back as the finding count |
| Users.ParsePasswdLine | modules/mod-users/src/lib.rs:111-138 | an accepted line is not skipped and has seven fields; system is uid < 1000; interactive follows the shell list; sudo starts false |
| Users.ParsePasswdFields | modules/mod-users/src/lib.rs:111-138 | seven fields with numeric uid and gid read as fields 0, 2, 3, 5 and 6 |
| Users.ParsePasswdLineRoundTrip | modules/mod-users/src/lib.rs:111-138 | a formatted passwd line reads back as its record |
| Users.MemberList | modules/mod-users/src/lib.rs:182-186 | members are non-empty names without ',' |
| Users.NonEmptyPieces | modules/mod-users/src/lib.rs:184 | empty pieces are dropped and nothing else |
| Users.ParseGroupLine | modules/mod-users/src/lib.rs:169-193 | an accepted line has four fields and a u32 gid; members are clean names |
| Users.ParseGroupFields | modules/mod-users/src/lib.rs:169-193 | four fields with a numeric gid read as name, gid and member list |
| Users.MemberListRoundTrip | modules/mod-users/src/lib.rs:182-186 | a comma-joined list of clean names reads back as itself |
| Users.ParseGroupLineRoundTrip | modules/mod-users/src/lib.rs:169-193 | a formatted group line reads back as its entry |
| Users.CollectPrivileged | modules/mod-users/src/lib.rs:79-86 | the gids and listed members of the sudo, wheel and admin groups |
| Users.MarkSudo | modules/mod-users/src/lib.rs:88-93 | each user is marked exactly by the accumulated name rule, and nothing else changes |
| Users.SudoWithUniqueNames | modules/mod-users/src/lib.rs:88-93 | with unique names, sudo holds exactly for a privileged primary gid or a listed membership |
| Users.BuildSnapshot | modules/mod-users/src/lib.rs:71-96 | fails exactly without a passwd file; else every parsed user, marked |
| Users.Counts | modules/mod-users/src/lib.rs:47-56 | each count is at most the total, which is the number of users |
| Users.SummaryReportsCounts | modules/mod-users/src/lib.rs:47-56 | the summary reads back as the total, system, interactive and sudo counts |
| Users.UsersSection | modules/mod-users/src/lib.rs:20-33 | Success with the user count in the summary when passwd is readable, else Degraded with the error |
| Users.SummaryCountsExample | modules/mod-users/src/lib.rs:226-256 | root and alice count as 2 users, 1 system, 2 interactive, 1 sudo |
| Cron.ParseWords | modules/mod-cron/src/lib.rs:127-176 | an accepted entry has a non-empty command and a user taken from the words |
| Cron.ParseWordsAccepts | modules/mod-cron/src/lib.rs:127-176 | words are accepted exactly when there are enough for the schedule form, and then split into schedule, user and command |
| Cron.ParseCronLine | modules/mod-cron/src/lib.rs:121-177 | an accepted line is not blank or a comment, and has a one-word user and a command |
| Cron.ParseCronLineAccepts | modules/mod-cron/src/lib.rs:121-177 | a line is accepted exactly when it is not blank or a comment and has the words its form needs |
| Cron.MacroLineRoundTrip | modules/mod-cron/src/lib.rs:132-147 | a macro line reads back as macro, user and command |
| Cron.FieldsLineRoundTrip | modules/mod-cron/src/lib.rs:149-176 | a five-field line reads back as the joined schedule, user and command |
| Cron.CrontabEntries | modules/mod-cron/src/lib.rs:114-119 | the crontab keeps exactly the entries its lines parse to |
| Cron.TotalCountsAllEntries | modules/mod-cron/src/lib.rs:61-69 | the summary total counts every system and cron.d entry once |
| Cron.Summary | modules/mod-cron/src/lib.rs:61-69 | the summary reads back as the number of entries |
| Cron.CronSection | modules/mod-cron/src/lib.rs:19-33 | Success with the entry count when the files could be read, else Degraded with the error |
| Services.ParseUnitWords | modules/mod-services/src/lib.rs:114-133 | accepted exactly with four or more words, the first four being the state fields |
| Services.ParseSystemctlLine | modules/mod-services/src/lib.rs:108-134 | an accepted line is not blank and its state fields are single words |
| Services.ParseSystemctlLineAccepts | modules/mod-services/src/lib.rs:108-134 | a line is accepted exactly when it has at least four words |
| Services.UnitLineRoundTrip | modules/mod-services/src/lib.rs:108-134 | a unit line reads back as its four fields and its possibly empty description |
| Services.UnitsEntries | modules/mod-services/src/lib.rs:101-106 | the unit list keeps exactly the units its lines parse to |
| Services.RunSystemctl | modules/mod-services/src/lib.rs:87-99 | the output of a successful run, an error otherwise |
| Services.GatherSnapshot | modules/mod-services/src/lib.rs:65-85 | succeeds exactly when both listings do; the running listing's error is reported first |
| Services.SummaryReportsCounts | modules/mod-services/src/lib.rs:56-62 | the summary reads back as the running and failed counts |
| Services.ServicesSection | modules/mod-services/src/lib.rs:18-32 | Success with the counts exactly when both listings succeed, else Degraded |
| Containers.ExtractVersion | modules/mod-containers/src/lib.rs:81-88 | None exactly when the first line is blank; else a trimmed text without newline |
| Containers.VersionIsFirstLine | modules/mod-containers/src/lib.rs:81-88 | whatever follows the first newline does not matter, and a CRLF line ending reads the same as LF |
| Containers.VersionOfSingleLine | modules/mod-containers/src/lib.rs:104-107 | a one-line output reads as itself, trimmed |
| Containers.DetectRuntime | modules/mod-containers/src/lib.rs:68-79 | a runtime is found exactly when its command ran and succeeded |
| Containers.DetectAll | modules/mod-containers/src/lib.rs:50-66 | each runtime is listed exactly when its command succeeded, in the order podman, nerdctl, ctr, and the count is the number of successes |
| Containers.BuildSnapshot | modules/mod-containers/src/lib.rs:50-66 | the same, for the version commands run on the host |
| Containers.ProbeCommands | modules/mod-containers/src/lib.rs:53-63 | the probes run `podman --version`, `nerdctl --version` and `ctr version` |
| Containers.Summary | modules/mod-containers/src/lib.rs:42-47 | the fixed message exactly for no runtimes, and the text reads back as the count |
| Containers.ContainersSection | modules/mod-containers/src/lib.rs:18-21 | always Success, with the number of successful version commands in the summary |
| Text.ParseUnsigned | modules/mod-network/src/lib.rs:471-472 | an accepted number is below the limit and starts with a digit or '+' |
| Text.ParseNatToString | modules/mod-users/src/lib.rs:121-126 | a decimal number below the limit parses back to itself |
| Text.SplitJoinWords | modules/mod-cron/src/lib.rs:127-136 | words joined with single spaces split back into the same words |
| Text.SplitJoin | modules/mod-users/src/lib.rs:116 | splitting on a character and joining with it gives the text back |
| Text.JoinSplit | modules/mod-users/src/lib.rs:116 | joining pieces without the separator and splitting gives the pieces back |
| Text.LinesTerminated | modules/mod-cron/src/lib.rs:114-119 | newline-terminated lines read back as those lines |
| Text.LessTotal | modules/mod-storage/src/lib.rs:159 | the string order is total, so the mount sort is well defined |

## Left out

- The report renderer (askama templates, byte, percent and duration
  formatting) and the JSON, Markdown and HTML output. These are
  presentation only.
- Formatted finding messages (`{:.1}%`, GiB with two decimals). Findings
  keep the facts as `Health.Message` values.
- Clock access and ISO-8601 conversion. The clock reading is a parameter
  of `Report.GeneratedAt`.
- The link-time collector registry. Its runs arrive as a sequence of
  `Report.CollectorRun` values, with elapsed times given.
- Every host read: procfs socket tables, the socket-to-process map,
  interfaces, /proc/mounts, statvfs, file reads, the cgroup controller
  file, directory listing and running `systemctl` or the runtime
  commands. Their results are parameters.
- The network section itself (interfaces and its summary) and
  `gather_interfaces`. Only the listener snapshot is modelled.
- The sar, proc, os, docker and journal collectors, the command-line tool
  and the embedded JSON schema. The first three are thin wrappers over
  host reads and floating-point parsing; docker and journal are fixed
  stubs.
- `StorageSnapshot::average_usage`, a floating-point mean. The storage
  summary receives its formatted text as a parameter.
- Storage.StorageSection: states the summary only for the failure case,
  because the success summary embeds the formatted average.
- Floating-point rounding. Ratios are exact `real` values, so a ratio that
  f64 would round across a threshold is not modelled.
- Users.UsersSection: states the total count of the success summary, not
  the other three counts, which are proved by Users.SummaryReportsCounts.
- The `saturating_add` on the socket and process counts of the listener
  groups (modules/mod-network/src/lib.rs:364 and 378-381). The counts are
  unbounded `nat`s, because a `usize` count of sockets cannot reach its
  maximum.
