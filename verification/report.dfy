/** Report assembly: running the registered collectors behind a failure
    boundary and bundling their sections with the health digest
    (vmic-core/src/lib.rs, `collect_sections` and `Report`). */
module Report {
  import opened Wrappers
  import opened Sdk
  import Health
  import Text

  /** What a collector says about itself. */
  datatype CollectorMetadata = CollectorMetadata(id: string, title: string, description: string)

  /** One registered collector's run, in registry order: its metadata, what
      `collect` returned (an error as its display text) and the elapsed
      milliseconds read from the clock. */
  datatype CollectorRun = CollectorRun(metadata: CollectorMetadata, outcome: Result<Section, string>, elapsedMs: nat)

  /** The failure boundary for one collector: an error becomes an Error
      section under the collector's own id and title, and either way the
      section is stamped with the elapsed time. */
  function RunCollector(run: CollectorRun): (s: Section)
    ensures s.durationMs == Some(run.elapsedMs)
    ensures run.outcome.Ok? ==> s.(durationMs := None) == run.outcome.value.(durationMs := None)
    ensures run.outcome.Err? ==>
              && s.status == Error
              && s.id == run.metadata.id && s.title == run.metadata.title
              && s.summary == Some(run.outcome.error)
              && s.body.error == Some(run.outcome.error)
    ensures run.outcome.Err? || Explained(run.outcome.value) ==> Explained(s)
  {
    var section := match run.outcome
      case Ok(section) => section
      case Err(error) => ErrorSection(run.metadata.id, run.metadata.title, error);
    section.(durationMs := Some(run.elapsedMs))
  }

  /** `collect_sections`: one section per collector, in registry order;
      no collector failure escapes. */
  function CollectSections(runs: seq<CollectorRun>): (sections: seq<Section>)
    ensures |sections| == |runs|
    ensures forall i :: 0 <= i < |runs| ==> sections[i].durationMs == Some(runs[i].elapsedMs)
    ensures forall i :: 0 <= i < |runs| && runs[i].outcome.Err? ==>
              sections[i].status == Error && sections[i].id == runs[i].metadata.id
              && sections[i].title == runs[i].metadata.title
              && sections[i].summary == Some(runs[i].outcome.error)
    ensures forall i :: 0 <= i < |runs| && runs[i].outcome.Ok? ==>
              sections[i].(durationMs := None) == runs[i].outcome.value.(durationMs := None)
  {
    seq(|runs|, i requires 0 <= i < |runs| => RunCollector(runs[i]))
  }

  datatype ReportMetadata = ReportMetadata(generatedAt: string, sections: nat)

  datatype Report = Report(metadata: ReportMetadata, sections: seq<Section>, healthDigest: Health.HealthDigest)

  /** The generation time: whole seconds since the Unix epoch as decimal
      text, or "0" when the clock reads before the epoch (`None`). The
      seconds are a u64. */
  function GeneratedAt(secondsSinceEpoch: Option<nat>): (text: string)
    requires secondsSinceEpoch.Some? ==> secondsSinceEpoch.value <= Text.U64_MAX
    ensures secondsSinceEpoch.None? ==> text == "0"
    ensures secondsSinceEpoch.Some? ==> Text.ParseUnsigned(text, Text.U64_MAX + 1) == secondsSinceEpoch
  {
    match secondsSinceEpoch
    case None => "0"
    case Some(n) =>
      Text.ParseNatToString(n, Text.U64_MAX + 1);
      Text.NatToString(n)
  }

  /** `Report::with_digest_config`: keeps the sections as given, records
      their number, and digests them under the given thresholds. */
  function WithDigestConfig(sections: seq<Section>, t: Health.Thresholds, clock: Option<nat>): (r: Report)
    requires clock.Some? ==> clock.value <= Text.U64_MAX
    ensures r.metadata.sections == |r.sections| == |sections|
    ensures r.sections == sections
    ensures r.healthDigest == Health.BuildHealthDigest(sections, t)
    ensures r.metadata.generatedAt == GeneratedAt(clock)
  {
    Report(ReportMetadata(GeneratedAt(clock), |sections|), sections, Health.BuildHealthDigest(sections, t))
  }

  /** `Report::new`: the default thresholds. */
  function NewReport(sections: seq<Section>, clock: Option<nat>): (r: Report)
    requires clock.Some? ==> clock.value <= Text.U64_MAX
    ensures r.metadata.sections == |r.sections| == |sections|
    ensures r.sections == sections
    ensures r.healthDigest == Health.BuildHealthDigest(sections, Health.DefaultThresholds)
    ensures r.metadata.generatedAt == GeneratedAt(clock)
  {
    WithDigestConfig(sections, Health.DefaultThresholds, clock)
  }

  /** `collect_report_with_digest`. */
  function CollectReport(runs: seq<CollectorRun>, t: Health.Thresholds, clock: Option<nat>): (r: Report)
    requires clock.Some? ==> clock.value <= Text.U64_MAX
    ensures r.metadata.sections == |runs|
    ensures r.sections == CollectSections(runs)
    ensures r.healthDigest == Health.BuildHealthDigest(CollectSections(runs), t)
  {
    WithDigestConfig(CollectSections(runs), t, clock)
  }

  /** `collect_report`: the collected sections under `Report::new`. */
  function CollectDefaultReport(runs: seq<CollectorRun>, clock: Option<nat>): (r: Report)
    requires clock.Some? ==> clock.value <= Text.U64_MAX
    ensures r.metadata.sections == |runs|
    ensures r.sections == CollectSections(runs)
    ensures r.healthDigest == Health.BuildHealthDigest(CollectSections(runs), Health.DefaultThresholds)
  {
    NewReport(CollectSections(runs), clock)
  }

  /** Collecting with the default thresholds gives the same report as
      collecting with an explicit copy of them. */
  lemma DefaultReportIsDefaultDigest(runs: seq<CollectorRun>, clock: Option<nat>)
    requires clock.Some? ==> clock.value <= Text.U64_MAX
    ensures CollectDefaultReport(runs, clock) == CollectReport(runs, Health.DefaultThresholds, clock)
  {
  }

  /** One failing collector is enough to make the report's digest critical,
      whatever the thresholds. */
  lemma FailedCollectorMakesReportCritical(runs: seq<CollectorRun>, t: Health.Thresholds, clock: Option<nat>, i: nat)
    requires clock.Some? ==> clock.value <= Text.U64_MAX
    requires i < |runs| && runs[i].outcome.Err?
    ensures CollectReport(runs, t, clock).healthDigest.overall == Health.Critical
  {
    Health.ErrorSectionMakesCritical(CollectSections(runs), t, i);
  }

  /** If every collector that succeeds returns an explained section, every
      section of the report is explained. */
  lemma CollectedSectionsExplained(runs: seq<CollectorRun>)
    requires forall i :: 0 <= i < |runs| && runs[i].outcome.Ok? ==> Explained(runs[i].outcome.value)
    ensures forall i :: 0 <= i < |runs| ==> Explained(CollectSections(runs)[i])
  {
    forall i | 0 <= i < |runs|
      ensures Explained(CollectSections(runs)[i])
    {
      assert CollectSections(runs)[i] == RunCollector(runs[i]);
    }
  }
}
