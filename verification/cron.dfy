/** The cron collector (mod-cron): parsing crontab lines, the entries of
    /etc/crontab and of the files under /etc/cron.d, and the summary.
    Reading the files and listing the directory are I/O; their outcome
    arrives as a parameter. */
module Cron {
  import opened Wrappers
  import opened Text
  import Seqs
  import Sdk

  datatype CronEntry = CronEntry(schedule: string, user: string, command: string)

  /** A schedule word such as "@daily" or "@reboot" stands for the whole
      schedule. */
  predicate IsMacro(word: string) {
    |word| > 0 && word[0] == '@'
  }

  /** Words a line needs to be accepted: the schedule (one macro word or
      five fields), the user, and at least one word of command. */
  function MinWords(first: string): nat {
    if IsMacro(first) then 3 else 7
  }

  /** The words `split_whitespace` yields: non-empty, without whitespace. */
  predicate Words(words: seq<string>) {
    forall i :: 0 <= i < |words| ==> |words[i]| > 0 && NoWhitespace(words[i])
  }

  /** The part of `parse_cron_line` after the comment test, on the words
      of the trimmed line. A macro line is the macro, the user and the
      command; any other line is five schedule fields, the user and the
      command. The schedule fields and the command words are re-joined
      with single spaces; an empty command rejects the line. */
  function ParseWords(words: seq<string>): (r: Option<CronEntry>)
    ensures r.Some? ==> |r.value.command| > 0
    ensures r.Some? ==> r.value.user in words
  {
    if |words| == 0 then None
    else if IsMacro(words[0]) then
      if |words| < 2 then None
      else
        var command := Join(words[2..], " ");
        if |command| == 0 then None
        else Some(CronEntry(words[0], words[1], command))
    else if |words| < 6 then None
    else
      var command := Join(words[6..], " ");
      if |command| == 0 then None
      else Some(CronEntry(Join(words[..5], " "), words[5], command))
  }

  /** Joining words with single spaces gives the empty string only for no words. */
  lemma JoinWordsEmpty(words: seq<string>)
    requires Words(words)
    ensures |Join(words, " ")| == 0 <==> |words| == 0
  {
    if |words| > 0 {
      JoinWordsEdges(words);
    }
  }

  /** A line of words is accepted exactly when it has as many words as its
      schedule form needs, and then the schedule is the leading word(s),
      the user the next word and the command the rest. */
  lemma ParseWordsAccepts(words: seq<string>)
    requires Words(words) && |words| > 0
    ensures ParseWords(words).Some? <==> |words| >= MinWords(words[0])
    ensures IsMacro(words[0]) && |words| >= 3 ==>
              ParseWords(words) == Some(CronEntry(words[0], words[1], Join(words[2..], " ")))
    ensures !IsMacro(words[0]) && |words| >= 7 ==>
              ParseWords(words) == Some(CronEntry(Join(words[..5], " "), words[5], Join(words[6..], " ")))
  {
    if IsMacro(words[0]) && |words| >= 2 {
      JoinWordsEmpty(words[2..]);
    } else if !IsMacro(words[0]) && |words| >= 6 {
      JoinWordsEmpty(words[6..]);
    }
  }

  /** `parse_cron_line`: blank lines and lines starting with '#' after
      trimming are ignored; everything else is read as words. */
  function ParseCronLine(line: string): (r: Option<CronEntry>)
    ensures r.Some? ==> !IsBlankOrComment(line)
    ensures r.Some? ==> |r.value.command| > 0
    ensures r.Some? ==> |r.value.user| > 0 && NoWhitespace(r.value.user)
  {
    if IsBlankOrComment(line) then None
    else ParseWords(SplitWhitespace(Trim(line)))
  }

  /** A line that is not blank or a comment has at least one word. */
  lemma LineWords(line: string)
    requires !IsBlankOrComment(line)
    ensures |SplitWhitespace(Trim(line))| > 0
  {
    SplitWhitespaceEmpty(Trim(line));
  }

  /** `parse_cron_line` accepts a line exactly when it is neither blank nor
      a comment and has the words its schedule form needs. */
  lemma ParseCronLineAccepts(line: string)
    ensures ParseCronLine(line).Some? <==>
              && !IsBlankOrComment(line)
              && var words := SplitWhitespace(Trim(line));
                 |words| > 0 && |words| >= MinWords(words[0])
  {
    if !IsBlankOrComment(line) {
      LineWords(line);
      ParseWordsAccepts(SplitWhitespace(Trim(line)));
    }
  }

  /** A macro line written with single spaces reads back as its macro, user
      and command. */
  lemma MacroLineRoundTrip(macro: string, user: string, command: seq<string>)
    requires IsMacro(macro) && Words([macro, user] + command) && |command| > 0
    ensures ParseCronLine(Join([macro, user] + command, " ")) == Some(CronEntry(macro, user, Join(command, " ")))
  {
    var words := [macro, user] + command;
    CanonicalLine(words);
    JoinWordsEdges(words);
    assert words[2..] == command;
    ParseWordsAccepts(words);
  }

  /** A five-field line written with single spaces reads back as its
      schedule fields, user and command. */
  lemma FieldsLineRoundTrip(fields: seq<string>, user: string, command: seq<string>)
    requires |fields| == 5 && !IsMacro(fields[0]) && Words(fields + [user] + command)
    requires |fields[0]| > 0 && fields[0][0] != '#' && |command| > 0
    ensures ParseCronLine(Join(fields + [user] + command, " ")) == Some(CronEntry(Join(fields, " "), user, Join(command, " ")))
  {
    var words := fields + [user] + command;
    CanonicalLine(words);
    JoinWordsEdges(words);
    assert words[..5] == fields;
    assert words[6..] == command;
    ParseWordsAccepts(words);
  }

  /** `parse_crontab`: the entries of the lines that parse, in order. */
  function ParseCrontab(content: string): seq<CronEntry> {
    Seqs.FilterMap(ParseCronLine, Lines(content))
  }

  /** The crontab keeps exactly the entries its lines parse to, each with a
      command: stated for any sequence of lines, `Lines(content)` among them. */
  lemma CrontabEntries(lines: seq<string>)
    ensures forall k :: 0 <= k < |Seqs.FilterMap(ParseCronLine, lines)| ==>
              var e := Seqs.FilterMap(ParseCronLine, lines)[k];
              |e.command| > 0 && exists i :: 0 <= i < |lines| && ParseCronLine(lines[i]) == Some(e)
    ensures forall i :: 0 <= i < |lines| && ParseCronLine(lines[i]).Some? ==>
              ParseCronLine(lines[i]).value in Seqs.FilterMap(ParseCronLine, lines)
  {
    var entries := Seqs.FilterMap(ParseCronLine, lines);
    Seqs.FilterMapKeeps(ParseCronLine, lines);
    forall k | 0 <= k < |entries|
      ensures |entries[k].command| > 0
    {
      var i :| 0 <= i < |lines| && ParseCronLine(lines[i]) == Some(entries[k]);
    }
  }

  // ---------------------------------------------------------------------
  // Snapshot and section

  datatype CronFileSummary = CronFileSummary(path: string, entries: seq<CronEntry>)

  datatype CronSnapshot = CronSnapshot(systemEntries: seq<CronEntry>, cronD: seq<CronFileSummary>)

  function FileEntries(f: CronFileSummary): seq<CronEntry> {
    f.entries
  }

  function FileEntryCount(f: CronFileSummary): nat {
    |f.entries|
  }

  /** The total the summary reports: the system entries plus the entries
      of every cron.d file. */
  function TotalEntries(s: CronSnapshot): nat {
    |s.systemEntries| + Seqs.SumBy(FileEntryCount, s.cronD)
  }

  /** Every entry of the snapshot, system entries first. */
  function AllEntries(s: CronSnapshot): seq<CronEntry> {
    s.systemEntries + Seqs.FlatMap(FileEntries, s.cronD)
  }

  lemma {:induction false} FlattenedCount(files: seq<CronFileSummary>)
    ensures |Seqs.FlatMap(FileEntries, files)| == Seqs.SumBy(FileEntryCount, files)
    decreases |files|
  {
    if |files| > 0 {
      FlattenedCount(files[..|files| - 1]);
    }
  }

  /** The summary total counts every entry of the snapshot once. */
  lemma TotalCountsAllEntries(s: CronSnapshot)
    ensures TotalEntries(s) == |AllEntries(s)|
  {
    FlattenedCount(s.cronD);
  }

  const ENTRIES_SUFFIX := " cron entries"

  /** `CronSnapshot::summary`. */
  function Summary(s: CronSnapshot): (text: string)
    ensures CountBefore(text, ENTRIES_SUFFIX) == Some(|AllEntries(s)|)
  {
    CountBeforeOf(TotalEntries(s), ENTRIES_SUFFIX);
    TotalCountsAllEntries(s);
    NatToString(TotalEntries(s)) + ENTRIES_SUFFIX
  }

  /** The section: the snapshot's summary on success; a failure to read the
      cron files (its display text) makes it Degraded. */
  function CronSection(snapshot: Result<CronSnapshot, string>): (s: Sdk.Section)
    ensures s.id == "cron" && s.title == "Scheduled Jobs" && Sdk.Explained(s)
    ensures s.status == Sdk.Success <==> snapshot.Ok?
    ensures s.status != Sdk.Error
    ensures snapshot.Ok? ==> s.summary.Some? && CountBefore(s.summary.value, ENTRIES_SUFFIX) == Some(|AllEntries(snapshot.value)|)
    ensures snapshot.Err? ==> s.summary == Some(snapshot.error)
  {
    match snapshot
    case Ok(snap) => Sdk.SuccessSection("cron", "Scheduled Jobs", Sdk.OpaqueBody).(summary := Some(Summary(snap)))
    case Err(error) => Sdk.DegradedSection("cron", "Scheduled Jobs", error, Sdk.OpaqueBody)
  }
}
