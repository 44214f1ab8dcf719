/** The services collector (mod-services): parsing the unit lines that
    `systemctl list-units` prints, the running/failed snapshot and its
    summary. Running systemctl is I/O; its outcomes arrive as parameters. */
module Services {
  import opened Wrappers
  import opened Text
  import opened Process
  import Seqs
  import Sdk

  datatype ServiceInfo = ServiceInfo(unit: string, load: string, active: string, sub: string, description: string)

  /** The words `split_whitespace` yields: non-empty, without whitespace. */
  predicate Words(words: seq<string>) {
    forall i :: 0 <= i < |words| ==> |words[i]| > 0 && NoWhitespace(words[i])
  }

  /** The four state fields are single words. */
  predicate StateWords(u: ServiceInfo) {
    && |u.unit| > 0 && NoWhitespace(u.unit)
    && |u.load| > 0 && NoWhitespace(u.load)
    && |u.active| > 0 && NoWhitespace(u.active)
    && |u.sub| > 0 && NoWhitespace(u.sub)
  }

  /** The part of `parse_systemctl_line` after the blank test, on the words
      of the trimmed line: unit, load, active and sub state, then the
      description as the remaining words joined with single spaces. */
  function ParseUnitWords(words: seq<string>): (r: Option<ServiceInfo>)
    ensures r.Some? <==> |words| >= 4
    ensures r.Some? ==> [r.value.unit, r.value.load, r.value.active, r.value.sub] == words[..4]
  {
    if |words| < 4 then None
    else Some(ServiceInfo(words[0], words[1], words[2], words[3], Join(words[4..], " ")))
  }

  /** `parse_systemctl_line`: a blank line is ignored; any other line needs
      four words. */
  function ParseSystemctlLine(line: string): (r: Option<ServiceInfo>)
    ensures r.Some? ==> |Trim(line)| > 0
    ensures r.Some? ==> StateWords(r.value)
  {
    if |Trim(line)| == 0 then None
    else ParseUnitWords(SplitWhitespace(Trim(line)))
  }

  /** A line is accepted exactly when it has at least four words; a blank
      line has none. */
  lemma ParseSystemctlLineAccepts(line: string)
    ensures ParseSystemctlLine(line).Some? <==> |SplitWhitespace(Trim(line))| >= 4
  {
    SplitWhitespaceEmpty(Trim(line));
  }

  /** A unit line written with single spaces reads back as its four state
      words and its description, which may be empty. */
  lemma UnitLineRoundTrip(unit: string, load: string, active: string, sub: string, description: seq<string>)
    requires Words([unit, load, active, sub] + description)
    ensures ParseSystemctlLine(Join([unit, load, active, sub] + description, " "))
            == Some(ServiceInfo(unit, load, active, sub, Join(description, " ")))
  {
    var words := [unit, load, active, sub] + description;
    CanonicalLine(words);
    JoinWordsEdges(words);
    assert words[4..] == description;
  }

  /** `parse_systemctl_units`: the units of the lines that parse, in order. */
  function ParseSystemctlUnits(output: string): seq<ServiceInfo> {
    Seqs.FilterMap(ParseSystemctlLine, Lines(output))
  }

  /** The unit list keeps exactly the units its lines parse to, each with
      four state words: stated for any sequence of lines, `Lines(output)`
      among them. */
  lemma UnitsEntries(lines: seq<string>)
    ensures forall k :: 0 <= k < |Seqs.FilterMap(ParseSystemctlLine, lines)| ==>
              var u := Seqs.FilterMap(ParseSystemctlLine, lines)[k];
              StateWords(u) && exists i :: 0 <= i < |lines| && ParseSystemctlLine(lines[i]) == Some(u)
    ensures forall i :: 0 <= i < |lines| && ParseSystemctlLine(lines[i]).Some? ==>
              ParseSystemctlLine(lines[i]).value in Seqs.FilterMap(ParseSystemctlLine, lines)
  {
    var units := Seqs.FilterMap(ParseSystemctlLine, lines);
    Seqs.FilterMapKeeps(ParseSystemctlLine, lines);
    forall k | 0 <= k < |units|
      ensures StateWords(units[k])
    {
      var i := Seqs.SomeIndices(ParseSystemctlLine, lines)[k];
      ParsedStateWords(lines[i], units[k]);
    }
    forall i | 0 <= i < |lines| && ParseSystemctlLine(lines[i]).Some?
      ensures ParseSystemctlLine(lines[i]).value in units
    {
      Seqs.FilterMapKeeps(ParseSystemctlLine, lines);
    }
  }

  lemma ParsedStateWords(line: string, u: ServiceInfo)
    requires ParseSystemctlLine(line) == Some(u)
    ensures StateWords(u)
  {
  }

  // ---------------------------------------------------------------------
  // Running systemctl

  const RUNNING_ARGS := ["list-units", "--type=service", "--state=running", "--no-legend", "--no-pager"]
  const FAILED_ARGS := ["list-units", "--type=service", "--state=failed", "--no-legend", "--no-pager"]

  /** `run_systemctl`: the standard output of a successful run; otherwise
      an error naming the command line, with the trimmed standard error
      when the command ran and failed. */
  function RunSystemctl(args: seq<string>, outcome: CommandOutcome): (r: Result<string, string>)
    ensures r.Ok? <==> Succeeded(outcome)
    ensures r.Ok? ==> r.value == outcome.value.stdout
  {
    match outcome
    case Err(_) => Err("failed to execute systemctl " + Join(args, " "))
    case Ok(output) =>
      if output.success then Ok(output.stdout)
      else Err("systemctl " + Join(args, " ") + ": " + Trim(output.stderr))
  }

  datatype ServicesSnapshot = ServicesSnapshot(running: seq<ServiceInfo>, failed: seq<ServiceInfo>)

  /** `gather_snapshot`: the running units are listed first, so their error
      is the one reported when both listings fail. */
  function GatherSnapshot(running: CommandOutcome, failed: CommandOutcome): (r: Result<ServicesSnapshot, string>)
    ensures r.Ok? <==> Succeeded(running) && Succeeded(failed)
    ensures r.Ok? ==> r.value == ServicesSnapshot(ParseSystemctlUnits(running.value.stdout), ParseSystemctlUnits(failed.value.stdout))
    ensures !Succeeded(running) ==> r == Err(RunSystemctl(RUNNING_ARGS, running).error)
    ensures Succeeded(running) && !Succeeded(failed) ==> r == Err(RunSystemctl(FAILED_ARGS, failed).error)
  {
    match RunSystemctl(RUNNING_ARGS, running)
    case Err(e) => Err(e)
    case Ok(runningOutput) =>
      match RunSystemctl(FAILED_ARGS, failed)
      case Err(e) => Err(e)
      case Ok(failedOutput) =>
        Ok(ServicesSnapshot(ParseSystemctlUnits(runningOutput), ParseSystemctlUnits(failedOutput)))
  }

  // ---------------------------------------------------------------------
  // Summary and section

  const RUNNING_TEXT := " running, "
  const FAILED_TEXT := " failed services"

  /** `ServicesSnapshot::summary`. */
  function Summary(s: ServicesSnapshot): string {
    NatToString(|s.running|) + RUNNING_TEXT + NatToString(|s.failed|) + FAILED_TEXT
  }

  /** Reads the running and failed counts back from a summary. */
  function SummaryCounts(text: string): Option<(nat, nat)> {
    match LeadingCount(text)
    case None => None
    case Some((running, rest)) =>
      if |rest| >= |RUNNING_TEXT| && rest[..|RUNNING_TEXT|] == RUNNING_TEXT then
        match CountBefore(rest[|RUNNING_TEXT|..], FAILED_TEXT)
        case Some(failed) => Some((running, failed))
        case None => None
      else None
  }

  /** The summary reports the lengths of the running and failed lists. */
  lemma SummaryReportsCounts(s: ServicesSnapshot)
    ensures SummaryCounts(Summary(s)) == Some((|s.running|, |s.failed|))
  {
    var tail := NatToString(|s.failed|) + FAILED_TEXT;
    var rest := RUNNING_TEXT + tail;
    assert Summary(s) == NatToString(|s.running|) + rest;
    LeadingCountOf(|s.running|, rest);
    assert rest[..|RUNNING_TEXT|] == RUNNING_TEXT;
    assert rest[|RUNNING_TEXT|..] == tail;
    CountBeforeOf(|s.failed|, FAILED_TEXT);
  }

  /** The section: the snapshot's summary when both listings succeed;
      otherwise Degraded with the error text. */
  function ServicesSection(running: CommandOutcome, failed: CommandOutcome): (s: Sdk.Section)
    ensures s.id == "services" && s.title == "System Services" && Sdk.Explained(s)
    ensures s.status == Sdk.Success <==> Succeeded(running) && Succeeded(failed)
    ensures s.status != Sdk.Error
    ensures s.status == Sdk.Success ==>
              s.summary.Some? &&
              SummaryCounts(s.summary.value) == Some((|ParseSystemctlUnits(running.value.stdout)|, |ParseSystemctlUnits(failed.value.stdout)|))
  {
    match GatherSnapshot(running, failed)
    case Ok(snapshot) =>
      SummaryReportsCounts(snapshot);
      Sdk.SuccessSection("services", "System Services", Sdk.OpaqueBody).(summary := Some(Summary(snapshot)))
    case Err(error) => Sdk.DegradedSection("services", "System Services", error, Sdk.OpaqueBody)
  }
}
