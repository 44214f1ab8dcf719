/** The containers collector (mod-containers): detecting the podman,
    nerdctl and ctr runtimes from their version commands, extracting the
    version line, and the summary. Running the commands is I/O; the host
    arrives as a function from a command line to its outcome. */
module Containers {
  import opened Wrappers
  import opened Text
  import opened Process
  import Sdk

  // ---------------------------------------------------------------------
  // Version extraction

  /** The first line of a text, or the text itself when it has no lines
      (`lines().next().unwrap_or(text)`). */
  function FirstLine(text: string): (line: string)
    ensures '\n' !in line
  {
    var ls := Lines(text);
    if |ls| > 0 then ls[0] else text
  }

  /** Trimming keeps a slice of the text, so it adds no character. */
  lemma TrimExcludes(s: string, c: char)
    requires c !in s
    ensures c !in Trim(s)
  {
    var t := TrimStart(s);
    var r := TrimEnd(t);
    forall k | 0 <= k < |r|
      ensures r[k] != c
    {
      assert r[k] == t[k] == s[|s| - |t| + k];
    }
  }

  /** `extract_version`: the trimmed first line, or `None` when it is blank. */
  function ExtractVersion(text: string): (r: Option<string>)
    ensures r.None? <==> AllWhitespace(FirstLine(text))
    ensures r.Some? ==> |r.value| > 0 && '\n' !in r.value
    ensures r.Some? ==> !IsWhitespace(r.value[0]) && !IsWhitespace(r.value[|r.value| - 1])
  {
    var first := Trim(FirstLine(text));
    TrimExcludes(FirstLine(text), '\n');
    if |first| == 0 then None else Some(first)
  }

  /** A version text reads as its first line, trimmed, whatever follows the
      first newline. */
  lemma VersionIsFirstLine(first: string, rest: string)
    requires '\n' !in first
    ensures ExtractVersion(first + "\n" + rest) == if AllWhitespace(first) then None else Some(Trim(first))
  {
    var text := first + "\n" + rest;
    assert text[..|first|] == first;
    IndexOfCharAt(text, '\n', |first|);
    assert Lines(text)[0] == StripCr(first);
    if |first| > 0 && first[|first| - 1] == '\r' {
      assert first == StripCr(first) + ['\r'];
      TrimSnocWhitespace(StripCr(first), '\r');
    }
  }

  /** A one-line version text reads as itself, trimmed. */
  lemma VersionOfSingleLine(line: string)
    requires '\n' !in line
    ensures ExtractVersion(line) == if AllWhitespace(line) then None else Some(Trim(line))
  {
    if |line| > 0 {
      assert Lines(line) == [line];
    }
  }

  // ---------------------------------------------------------------------
  // Detection

  datatype Runtime = Podman | Nerdctl | Ctr

  function Name(rt: Runtime): string {
    match rt
    case Podman => "podman"
    case Nerdctl => "nerdctl"
    case Ctr => "ctr"
  }

  /** The arguments of each runtime's version command. */
  function VersionArgs(rt: Runtime): seq<string> {
    match rt
    case Ctr => ["version"]
    case _ => ["--version"]
  }

  /** Position of a runtime in the detection order podman, nerdctl, ctr. */
  function Rank(rt: Runtime): nat {
    match rt
    case Podman => 0
    case Nerdctl => 1
    case Ctr => 2
  }

  /** A detected runtime; it is reported under the name `Name(runtime)`. */
  datatype RuntimeInfo = RuntimeInfo(runtime: Runtime, version: Option<string>)

  /** The host, as the outcome of running a program with arguments. */
  type Host = (string, seq<string>) -> CommandOutcome

  /** The outcome of the version command of `rt`. */
  function Probe(host: Host, rt: Runtime): CommandOutcome {
    host(Name(rt), VersionArgs(rt))
  }

  /** `detect_runtime`: a runtime is present when its version command ran
      and exited successfully; its version is read from the trimmed output. */
  function DetectRuntime(rt: Runtime, outcome: CommandOutcome): (r: Option<RuntimeInfo>)
    ensures r.Some? <==> Succeeded(outcome)
    ensures r.Some? ==> r.value.runtime == rt && r.value.version == ExtractVersion(Trim(outcome.value.stdout))
  {
    match outcome
    case Err(_) => None
    case Ok(output) =>
      if !output.success then None
      else Some(RuntimeInfo(rt, ExtractVersion(Trim(output.stdout))))
  }

  /** How many of the three version commands succeeded. */
  function DetectedCount(host: Host): nat {
    (if Succeeded(Probe(host, Podman)) then 1 else 0)
    + (if Succeeded(Probe(host, Nerdctl)) then 1 else 0)
    + (if Succeeded(Probe(host, Ctr)) then 1 else 0)
  }

  /** The three probes run exactly the source's command lines. */
  lemma ProbeCommands(host: Host)
    ensures Probe(host, Podman) == host("podman", ["--version"])
    ensures Probe(host, Nerdctl) == host("nerdctl", ["--version"])
    ensures Probe(host, Ctr) == host("ctr", ["version"])
  {
  }

  function Found(info: Option<RuntimeInfo>): seq<RuntimeInfo> {
    match info
    case Some(i) => [i]
    case None => []
  }

  /** Runtime `rt` was detected. */
  predicate Listed(runtimes: seq<RuntimeInfo>, rt: Runtime) {
    exists i :: 0 <= i < |runtimes| && runtimes[i].runtime == rt
  }

  /** The runtimes found by the three probes, in probe order. */
  lemma FoundInOrder(p: Option<RuntimeInfo>, n: Option<RuntimeInfo>, c: Option<RuntimeInfo>)
    requires p.Some? ==> p.value.runtime == Podman
    requires n.Some? ==> n.value.runtime == Nerdctl
    requires c.Some? ==> c.value.runtime == Ctr
    ensures var r := Found(p) + Found(n) + Found(c);
            && (Listed(r, Podman) <==> p.Some?)
            && (Listed(r, Nerdctl) <==> n.Some?)
            && (Listed(r, Ctr) <==> c.Some?)
            && (forall i, j :: 0 <= i < j < |r| ==> Rank(r[i].runtime) < Rank(r[j].runtime))
            && |r| == (if p.Some? then 1 else 0) + (if n.Some? then 1 else 0) + (if c.Some? then 1 else 0)
  {
    var r := Found(p) + Found(n) + Found(c);
    var np, nn := |Found(p)|, |Found(n)|;
    assert forall i :: 0 <= i < |r| ==>
             r[i].runtime == if i < np then Podman else if i < np + nn then Nerdctl else Ctr;
    if p.Some? {
      assert r[0] == p.value;
    }
    if n.Some? {
      assert r[np] == n.value;
    }
    if c.Some? {
      assert r[np + nn] == c.value;
    }
  }

  /** The detected runtimes for the three version-command outcomes, in the
      order podman, nerdctl, ctr; each is listed exactly when its command
      succeeded. */
  function DetectAll(podman: CommandOutcome, nerdctl: CommandOutcome, ctr: CommandOutcome): (runtimes: seq<RuntimeInfo>)
    ensures Listed(runtimes, Podman) <==> Succeeded(podman)
    ensures Listed(runtimes, Nerdctl) <==> Succeeded(nerdctl)
    ensures Listed(runtimes, Ctr) <==> Succeeded(ctr)
    ensures forall i, j :: 0 <= i < j < |runtimes| ==> Rank(runtimes[i].runtime) < Rank(runtimes[j].runtime)
    ensures |runtimes| == (if Succeeded(podman) then 1 else 0) + (if Succeeded(nerdctl) then 1 else 0) + (if Succeeded(ctr) then 1 else 0)
  {
    var p := DetectRuntime(Podman, podman);
    var n := DetectRuntime(Nerdctl, nerdctl);
    var c := DetectRuntime(Ctr, ctr);
    FoundInOrder(p, n, c);
    Found(p) + Found(n) + Found(c)
  }

  /** `build_snapshot`: runs `podman --version`, `nerdctl --version` and
      `ctr version` on the host, in that order, and lists each runtime
      whose command succeeded. */
  function BuildSnapshot(host: Host): (runtimes: seq<RuntimeInfo>)
    ensures Listed(runtimes, Podman) <==> Succeeded(Probe(host, Podman))
    ensures Listed(runtimes, Nerdctl) <==> Succeeded(Probe(host, Nerdctl))
    ensures Listed(runtimes, Ctr) <==> Succeeded(Probe(host, Ctr))
    ensures forall i, j :: 0 <= i < j < |runtimes| ==> Rank(runtimes[i].runtime) < Rank(runtimes[j].runtime)
    ensures |runtimes| == DetectedCount(host)
  {
    DetectAll(Probe(host, Podman), Probe(host, Nerdctl), Probe(host, Ctr))
  }

  // ---------------------------------------------------------------------
  // Summary and section

  const NO_RUNTIMES := "No alternative container runtimes detected"
  const RUNTIMES_SUFFIX := " runtime(s) detected"

  /** Reads the runtime count back from a summary. */
  function RuntimeCount(text: string): Option<nat> {
    if text == NO_RUNTIMES then Some(0) else CountBefore(text, RUNTIMES_SUFFIX)
  }

  /** `ContainersSnapshot::summary`: the fixed message when nothing was
      found, the count otherwise. */
  function Summary(runtimes: seq<RuntimeInfo>): (text: string)
    ensures RuntimeCount(text) == Some(|runtimes|)
    ensures text == NO_RUNTIMES <==> |runtimes| == 0
  {
    if |runtimes| == 0 then NO_RUNTIMES
    else
      var text := NatToString(|runtimes|) + RUNTIMES_SUFFIX;
      assert IsDigit(text[0]) && !IsDigit(NO_RUNTIMES[0]);
      CountBeforeOf(|runtimes|, RUNTIMES_SUFFIX);
      text
  }

  /** The section is always a success whose summary counts the runtimes
      whose command succeeded. */
  function ContainersSection(host: Host): (s: Sdk.Section)
    ensures s.id == "containers" && s.title == "Alternative Containers"
    ensures s.status == Sdk.Success && Sdk.Explained(s)
    ensures s.summary.Some? && RuntimeCount(s.summary.value) == Some(DetectedCount(host))
  {
    var runtimes := BuildSnapshot(host);
    Sdk.SuccessSection("containers", "Alternative Containers", Sdk.OpaqueBody).(summary := Some(Summary(runtimes)))
  }
}
