/** The security collector (mod-security): the sshd_config and sudoers
    hardening analyses, the cgroup check, and the section status chosen
    from the number of findings. Reading the files and probing
    /sys/fs/cgroup are I/O; their results arrive as parameters. */
module Security {
  import opened Wrappers
  import opened Text
  import Seqs
  import Sdk

  /** The collector's own severity scale. */
  datatype Severity = Info | Warning | Critical

  /** What a finding is about; `Message` gives the text it reports. */
  datatype Check =
    | PasswordAuthEnabled
    | RootLoginAllowed
    | ChallengeResponseEnabled
    | ProtocolV1Allowed
    | PasswordlessSudo(line: string)
    | WildcardSudo
    | NoUnifiedCgroup

  datatype Finding = Finding(check: Check, severity: Severity)

  /** The reported message of each check. */
  function Message(c: Check): string {
    match c
    case PasswordAuthEnabled => "PasswordAuthentication is enabled"
    case RootLoginAllowed => "PermitRootLogin allows direct root access"
    case ChallengeResponseEnabled => "ChallengeResponseAuthentication is enabled"
    case ProtocolV1Allowed => "SSH protocol version 1 is allowed"
    case PasswordlessSudo(line) => "Potential password-less sudo entry: " + line
    case WildcardSudo => "Wildcard sudo entry grants full access"
    case NoUnifiedCgroup => "Host is not running with cgroup v2 unified hierarchy"
  }

  // ---------------------------------------------------------------------
  // sshd_config

  /** The keys the analysis distinguishes. */
  datatype Key =
    | PasswordAuthentication
    | PermitRootLogin
    | ChallengeResponseAuthentication
    | Protocol
    | Hardening
    | OtherKey

  /** Classifies a lower-cased key; the three crypto keys (KexAlgorithms,
      Ciphers, MACs) all count as hardening. */
  function KeyOf(key: string): Key {
    if key == "passwordauthentication" then PasswordAuthentication
    else if key == "permitrootlogin" then PermitRootLogin
    else if key == "challengeresponseauthentication" then ChallengeResponseAuthentication
    else if key == "protocol" then Protocol
    else if key == "kexalgorithms" || key == "ciphers" || key == "macs" then Hardening
    else OtherKey
  }

  /** The keys whose value the analysis remembers. */
  predicate Tracked(k: Key) {
    k != Hardening && k != OtherKey
  }

  /** One configuration line: its key, matched case-insensitively, and the
      rest of the line in ASCII lower case, re-joined with single spaces. */
  datatype Directive = Directive(key: Key, value: string)

  /** Blank and comment lines set nothing; otherwise the first word is the
      key and the remaining words are the value. */
  function ParseDirective(rawLine: string): (r: Option<Directive>)
    ensures r.None? <==> IsBlankOrComment(rawLine)
  {
    if IsBlankOrComment(rawLine) then None
    else
      var parts := SplitWhitespace(Trim(rawLine));
      var key := if |parts| > 0 then parts[0] else "";
      var rest := if |parts| > 0 then parts[1..] else [];
      Some(Directive(KeyOf(Lower(key)), Lower(Join(rest, " "))))
  }

  /** A directive written in canonical form reads back as its key,
      whatever its case, and its lower-cased value. */
  lemma ParseDirectiveRoundTrip(key: string, values: seq<string>)
    requires |key| > 0 && NoWhitespace(key) && key[0] != '#'
    requires forall i :: 0 <= i < |values| ==> |values[i]| > 0 && NoWhitespace(values[i])
    ensures ParseDirective(Join([key] + values, " ")) == Some(Directive(KeyOf(Lower(key)), Lower(Join(values, " "))))
  {
    var words := [key] + values;
    CanonicalLine(words);
    assert words[1..] == values;
  }

  /** What the scan of the file remembers. */
  datatype SshdSettings = SshdSettings(
    passwordAuth: Option<string>,
    permitRoot: Option<string>,
    challengeResponse: Option<string>,
    protocol: Option<string>,
    hardeningPresent: bool)

  const NO_SETTINGS := SshdSettings(None, None, None, None, false)

  /** The remembered value of a tracked key. */
  function Setting(st: SshdSettings, key: Key): Option<string> {
    match key
    case PasswordAuthentication => st.passwordAuth
    case PermitRootLogin => st.permitRoot
    case ChallengeResponseAuthentication => st.challengeResponse
    case Protocol => st.protocol
    case _ => None
  }

  /** One step of the scan: a tracked key overwrites its value, a
      hardening key sets the flag, anything else changes nothing. */
  function Apply(st: SshdSettings, d: Option<Directive>): (r: SshdSettings)
    ensures forall key :: Tracked(key) ==>
              Setting(r, key) == if d.Some? && d.value.key == key then Some(d.value.value) else Setting(st, key)
    ensures r.hardeningPresent <==> st.hardeningPresent || (d.Some? && d.value.key == Hardening)
  {
    match d
    case None => st
    case Some(Directive(key, value)) =>
      match key
      case PasswordAuthentication => st.(passwordAuth := Some(value))
      case PermitRootLogin => st.(permitRoot := Some(value))
      case ChallengeResponseAuthentication => st.(challengeResponse := Some(value))
      case Protocol => st.(protocol := Some(value))
      case Hardening => st.(hardeningPresent := true)
      case OtherKey => st
  }

  /** The directive of every line, in file order. */
  function Directives(lines: seq<string>): (ds: seq<Option<Directive>>)
    ensures |ds| == |lines|
    ensures forall i :: 0 <= i < |lines| ==> ds[i] == ParseDirective(lines[i])
  {
    seq(|lines|, i requires 0 <= i < |lines| => ParseDirective(lines[i]))
  }

  /** The scan over the directives, first to last. */
  function Scan(ds: seq<Option<Directive>>): SshdSettings
    decreases |ds|
  {
    if |ds| == 0 then NO_SETTINGS
    else Apply(Scan(ds[..|ds| - 1]), ds[|ds| - 1])
  }

  /** Directive `i` sets `key`. */
  predicate SetsKey(ds: seq<Option<Directive>>, i: int, key: Key)
    requires 0 <= i < |ds|
  {
    ds[i].Some? && ds[i].value.key == key
  }

  /** Some directive sets `key`. */
  predicate SomeSets(ds: seq<Option<Directive>>, key: Key) {
    exists i :: 0 <= i < |ds| && SetsKey(ds, i, key)
  }

  /** The last directive that sets `key` gives it the value `word`. */
  predicate LastSetTo(ds: seq<Option<Directive>>, key: Key, word: string) {
    exists i :: 0 <= i < |ds| && SetsKey(ds, i, key) && Says(ds[i].value.value, word)
      && forall j :: i < j < |ds| ==> !SetsKey(ds, j, key)
  }

  /** The last directive that sets a key decides its value: a tracked key
      is remembered iff some directive sets it, and then with the value of
      a directive after which none sets it again. */
  lemma {:induction false} LastOccurrenceWins(ds: seq<Option<Directive>>, key: Key)
    requires Tracked(key)
    ensures Setting(Scan(ds), key).Some? <==> exists i :: 0 <= i < |ds| && SetsKey(ds, i, key)
    ensures Setting(Scan(ds), key).Some? ==>
              exists i :: 0 <= i < |ds| && SetsKey(ds, i, key)
                && ds[i].value.value == Setting(Scan(ds), key).value
                && forall j :: i < j < |ds| ==> !SetsKey(ds, j, key)
    decreases |ds|
  {
    if |ds| > 0 {
      var n := |ds| - 1;
      var prefix := ds[..n];
      LastOccurrenceWins(prefix, key);
      assert forall i :: 0 <= i < n ==> prefix[i] == ds[i];
      assert forall i :: 0 <= i < n ==> SetsKey(prefix, i, key) == SetsKey(ds, i, key);
      assert Scan(ds) == Apply(Scan(prefix), ds[n]);
      if SetsKey(ds, n, key) {
        assert ds[n].value.value == Setting(Scan(ds), key).value;
      } else {
        assert Setting(Scan(ds), key) == Setting(Scan(prefix), key);
        if Setting(Scan(prefix), key).Some? {
          var i :| 0 <= i < n && SetsKey(prefix, i, key)
                   && prefix[i].value.value == Setting(Scan(prefix), key).value
                   && forall j :: i < j < n ==> !SetsKey(prefix, j, key);
          assert forall j :: i < j < |ds| ==> !SetsKey(ds, j, key);
          assert SetsKey(ds, i, key) && ds[i].value.value == Setting(Scan(ds), key).value;
        }
      }
    }
  }

  /** Hardening is present iff some directive sets one of the crypto keys. */
  lemma {:induction false} HardeningPresentIff(ds: seq<Option<Directive>>)
    ensures Scan(ds).hardeningPresent <==> exists i :: 0 <= i < |ds| && SetsKey(ds, i, Hardening)
    decreases |ds|
  {
    if |ds| > 0 {
      var n := |ds| - 1;
      var prefix := ds[..n];
      HardeningPresentIff(prefix);
      assert forall i :: 0 <= i < n ==> prefix[i] == ds[i];
      assert forall i :: 0 <= i < n ==> SetsKey(prefix, i, Hardening) == SetsKey(ds, i, Hardening);
      assert Scan(ds) == Apply(Scan(prefix), ds[n]);
      if Scan(prefix).hardeningPresent {
        var i :| 0 <= i < n && SetsKey(prefix, i, Hardening);
        assert SetsKey(ds, i, Hardening);
      } else if Scan(ds).hardeningPresent {
        assert SetsKey(ds, n, Hardening);
      }
      if exists i :: 0 <= i < |ds| && SetsKey(ds, i, Hardening) {
        var i :| 0 <= i < |ds| && SetsKey(ds, i, Hardening);
        if i < n {
          assert SetsKey(prefix, i, Hardening);
        } else {
          assert ds[n].Some? && ds[n].value.key == Hardening;
        }
      }
    }
  }

  const PASSWORD_AUTH_FINDING := Finding(PasswordAuthEnabled, Warning)
  const ROOT_LOGIN_FINDING := Finding(RootLoginAllowed, Critical)
  const CHALLENGE_FINDING := Finding(ChallengeResponseEnabled, Warning)
  const PROTOCOL_V1_FINDING := Finding(ProtocolV1Allowed, Critical)
  /** The sshd checks, in the order their findings are reported. */
  const SSHD_CHECKS := [PASSWORD_AUTH_FINDING, ROOT_LOGIN_FINDING, CHALLENGE_FINDING, PROTOCOL_V1_FINDING]

  /** The position of an sshd finding in the report order. */
  function CheckRank(f: Finding): nat {
    match f.check
    case PasswordAuthEnabled => 0
    case RootLoginAllowed => 1
    case ChallengeResponseEnabled => 2
    case _ => 3
  }

  /** The value is exactly `word`. */
  predicate Says(value: string, word: string) {
    value == word
  }

  /** A remembered value that is exactly `word`. */
  predicate SetTo(value: Option<string>, word: string) {
    value.Some? && Says(value.value, word)
  }

  /** Whether an sshd check fires on the remembered settings. */
  predicate Fires(st: SshdSettings, c: Check) {
    match c
    case PasswordAuthEnabled => SetTo(st.passwordAuth, "yes")
    case RootLoginAllowed => SetTo(st.permitRoot, "yes") || SetTo(st.permitRoot, "without-password")
    case ChallengeResponseEnabled => SetTo(st.challengeResponse, "yes")
    case ProtocolV1Allowed => st.protocol.Some? && '1' in st.protocol.value
    case _ => false
  }

  /** The findings for the remembered settings: each check fires on its own
      condition, and the findings come in the fixed check order. */
  function SshdFindings(st: SshdSettings): (r: seq<Finding>)
    ensures |r| <= |SSHD_CHECKS|
    ensures forall k :: 0 <= k < |SSHD_CHECKS| ==> (SSHD_CHECKS[k] in r <==> Fires(st, SSHD_CHECKS[k].check))
    ensures forall k :: 0 <= k < |r| ==> r[k] in SSHD_CHECKS
    ensures forall k, l :: 0 <= k < l < |r| ==> CheckRank(r[k]) < CheckRank(r[l])
  {
    (if Fires(st, PasswordAuthEnabled) then [PASSWORD_AUTH_FINDING] else [])
    + (if Fires(st, RootLoginAllowed) then [ROOT_LOGIN_FINDING] else [])
    + (if Fires(st, ChallengeResponseEnabled) then [CHALLENGE_FINDING] else [])
    + (if Fires(st, ProtocolV1Allowed) then [PROTOCOL_V1_FINDING] else [])
  }

  datatype SshdAnalysis = SshdAnalysis(hardeningPresent: bool, findings: seq<Finding>)

  /** `analyze_sshd_config_from_str`: at most the four findings, in check
      order, each present exactly when its check fires on the scanned
      settings; password authentication is reported exactly when its last
      setting says "yes", and hardening is present exactly when some line
      sets KexAlgorithms, Ciphers or MACs. */
  function AnalyzeSshd(contents: string): (r: SshdAnalysis)
    ensures |r.findings| <= |SSHD_CHECKS|
    ensures forall k :: 0 <= k < |r.findings| ==> r.findings[k] in SSHD_CHECKS
    ensures forall k, l :: 0 <= k < l < |r.findings| ==> CheckRank(r.findings[k]) < CheckRank(r.findings[l])
    ensures forall k :: 0 <= k < |SSHD_CHECKS| ==>
              (SSHD_CHECKS[k] in r.findings <==> Fires(Scan(Directives(Lines(contents))), SSHD_CHECKS[k].check))
    ensures PASSWORD_AUTH_FINDING in r.findings <==> LastSetTo(Directives(Lines(contents)), PasswordAuthentication, "yes")
    ensures r.hardeningPresent <==> SomeSets(Directives(Lines(contents)), Hardening)
  {
    var ds := Directives(Lines(contents));
    PasswordAuthDecided(ds);
    HardeningPresentIff(ds);
    var st := Scan(ds);
    SshdAnalysis(st.hardeningPresent, SshdFindings(st))
  }

  /** Password authentication is reported exactly when the last directive
      that sets it says "yes". */
  lemma PasswordAuthDecided(ds: seq<Option<Directive>>)
    ensures PASSWORD_AUTH_FINDING in SshdFindings(Scan(ds)) <==>
              exists i :: 0 <= i < |ds| && SetsKey(ds, i, PasswordAuthentication) && Says(ds[i].value.value, "yes")
                && forall j :: i < j < |ds| ==> !SetsKey(ds, j, PasswordAuthentication)
  {
    assert SSHD_CHECKS[0] == PASSWORD_AUTH_FINDING;
    LastOccurrenceWins(ds, PasswordAuthentication);
    if exists i :: 0 <= i < |ds| && SetsKey(ds, i, PasswordAuthentication) && Says(ds[i].value.value, "yes")
                && forall j :: i < j < |ds| ==> !SetsKey(ds, j, PasswordAuthentication) {
      var i :| 0 <= i < |ds| && SetsKey(ds, i, PasswordAuthentication) && Says(ds[i].value.value, "yes")
                && forall j :: i < j < |ds| ==> !SetsKey(ds, j, PasswordAuthentication);
      LastSetting(ds, PasswordAuthentication, i);
    }
  }

  /** A directive setting a tracked key with none setting it after decides
      the remembered value. */
  lemma LastSetting(ds: seq<Option<Directive>>, key: Key, i: nat)
    requires Tracked(key) && i < |ds| && SetsKey(ds, i, key)
    requires forall j :: i < j < |ds| ==> !SetsKey(ds, j, key)
    ensures Setting(Scan(ds), key) == Some(ds[i].value.value)
  {
    LastOccurrenceWins(ds, key);
    var i' :| 0 <= i' < |ds| && SetsKey(ds, i', key)
              && ds[i'].value.value == Setting(Scan(ds), key).value
              && forall j :: i' < j < |ds| ==> !SetsKey(ds, j, key);
    assert !(i < i') && !(i' < i);
  }

  // ---------------------------------------------------------------------
  // sudoers

  const WILDCARD_FINDING := Finding(WildcardSudo, Critical)

  /** The warning for a password-less entry quotes the (trimmed) line. */
  function PasswordlessFinding(line: string): Finding {
    Finding(PasswordlessSudo(line), Warning)
  }

  /** The first word of a line, if any. */
  function FirstWord(line: string): Option<string> {
    var words := SplitWhitespace(line);
    if |words| > 0 then Some(words[0]) else None
  }

  /** Password-less: the entry mentions both "NOPASSWD:" and "ALL". */
  predicate IsPasswordless(line: string) {
    Contains(line, "NOPASSWD:") && Contains(line, "ALL")
  }

  /** Wildcard: the entry grants "ALL=(ALL) ALL" to the user "ALL". */
  predicate IsWildcard(line: string) {
    var first := FirstWord(line);
    Contains(line, "ALL=(ALL) ALL") && first.Some? && Says(first.value, "ALL")
  }

  /** The findings of one entry: the password-less warning and then the
      wildcard critical, each when its pattern matches. */
  function EntryFindings(line: string): (r: seq<Finding>)
    ensures |r| <= 2
    ensures PasswordlessFinding(line) in r <==> IsPasswordless(line)
    ensures WILDCARD_FINDING in r <==> IsWildcard(line)
    ensures forall k :: 0 <= k < |r| ==> r[k] == PasswordlessFinding(line) || r[k] == WILDCARD_FINDING
    ensures |r| == 2 ==> r[0].severity == Warning && r[1].severity == Critical
  {
    (if IsPasswordless(line) then [PasswordlessFinding(line)] else [])
    + (if IsWildcard(line) then [WILDCARD_FINDING] else [])
  }

  /** The findings of one sudoers line: none for blank and comment lines,
      otherwise those of the trimmed entry. */
  function SudoersLineFindings(rawLine: string): (r: seq<Finding>)
    ensures IsBlankOrComment(rawLine) ==> r == []
    ensures !IsBlankOrComment(rawLine) ==> r == EntryFindings(Trim(rawLine))
  {
    if IsBlankOrComment(rawLine) then [] else EntryFindings(Trim(rawLine))
  }

  /** Whether any line mentions "#includedir" (comment lines included). */
  function AnyLineContains(lines: seq<string>, pat: string): (b: bool)
    ensures b <==> exists i :: 0 <= i < |lines| && Contains(lines[i], pat)
    decreases |lines|
  {
    if |lines| == 0 then false
    else
      var rest := AnyLineContains(lines[1..], pat);
      assert forall i :: 1 <= i < |lines| ==> lines[i] == lines[1..][i - 1];
      Contains(lines[0], pat) || rest
  }

  datatype SudoersAnalysis = SudoersAnalysis(includesDir: bool, findings: seq<Finding>)

  /** `analyze_sudoers_from_str`: the findings of every line, in line order. */
  function AnalyzeSudoers(contents: string): (r: SudoersAnalysis)
    ensures r.includesDir <==> exists i :: 0 <= i < |Lines(contents)| && Contains(Lines(contents)[i], "#includedir")
  {
    var lines := Lines(contents);
    SudoersAnalysis(AnyLineContains(lines, "#includedir"), LinesFindings(lines))
  }

  /** The findings of all lines, in line order. */
  function LinesFindings(lines: seq<string>): seq<Finding> {
    Seqs.FlatMap(SudoersLineFindings, lines)
  }

  /** An entry of line `i` (neither blank nor a comment) matches `p`. */
  predicate EntryMatches(lines: seq<string>, i: int, p: string -> bool)
    requires 0 <= i < |lines|
  {
    !IsBlankOrComment(lines[i]) && p(Trim(lines[i]))
  }

  /** Every password-less entry is reported, quoting its line. */
  lemma PasswordlessReported(lines: seq<string>, i: nat)
    requires i < |lines| && EntryMatches(lines, i, IsPasswordless)
    ensures PasswordlessFinding(Trim(lines[i])) in LinesFindings(lines)
  {
    var r := SudoersLineFindings(lines[i]);
    var k :| 0 <= k < |r| && r[k] == PasswordlessFinding(Trim(lines[i]));
    Seqs.FlatMapIncludes(SudoersLineFindings, lines, i, k);
  }

  /** The wildcard finding appears iff some entry is a wildcard grant. */
  lemma WildcardReported(lines: seq<string>)
    ensures WILDCARD_FINDING in LinesFindings(lines) <==> exists i :: 0 <= i < |lines| && EntryMatches(lines, i, IsWildcard)
  {
    if exists i :: 0 <= i < |lines| && EntryMatches(lines, i, IsWildcard) {
      var i :| 0 <= i < |lines| && EntryMatches(lines, i, IsWildcard);
      var r := SudoersLineFindings(lines[i]);
      var k :| 0 <= k < |r| && r[k] == WILDCARD_FINDING;
      Seqs.FlatMapIncludes(SudoersLineFindings, lines, i, k);
    }
    if WILDCARD_FINDING in LinesFindings(lines) {
      var i := Seqs.FlatMapFrom(SudoersLineFindings, lines, WILDCARD_FINDING);
      assert EntryMatches(lines, i, IsWildcard);
    }
  }

  /** Every finding comes from an entry that matches its pattern. */
  lemma SudoersFindingOrigin(lines: seq<string>, f: Finding) returns (i: nat)
    requires f in LinesFindings(lines)
    ensures i < |lines| && !IsBlankOrComment(lines[i])
    ensures (f == WILDCARD_FINDING && IsWildcard(Trim(lines[i])))
            || (f == PasswordlessFinding(Trim(lines[i])) && IsPasswordless(Trim(lines[i])))
  {
    i := Seqs.FlatMapFrom(SudoersLineFindings, lines, f);
  }

  /** No line yields more than two findings. */
  lemma {:induction false} SudoersFindingsBound(lines: seq<string>)
    ensures |LinesFindings(lines)| <= 2 * |lines|
    decreases |lines|
  {
    if |lines| > 0 {
      SudoersFindingsBound(lines[..|lines| - 1]);
    }
  }

  // ---------------------------------------------------------------------
  // cgroups and the section

  const CGROUP_V1_FINDING := Finding(NoUnifiedCgroup, Warning)

  datatype CgroupAnalysis = CgroupAnalysis(unifiedHierarchy: bool, controllers: seq<string>, findings: seq<Finding>)

  /** `analyze_cgroups`: whether cgroup.controllers exists and, if it could
      be read, its contents. Only a missing unified hierarchy is a finding. */
  function AnalyzeCgroups(unified: bool, controllers: Option<string>): (r: CgroupAnalysis)
    ensures r.unifiedHierarchy == unified
    ensures r.findings == [] <==> unified
    ensures !unified ==> r.findings == [CGROUP_V1_FINDING] && r.controllers == []
    ensures forall k :: 0 <= k < |r.controllers| ==> |r.controllers[k]| > 0 && NoWhitespace(r.controllers[k])
  {
    if unified then
      CgroupAnalysis(true, if controllers.Some? then SplitWhitespace(controllers.value) else [], [])
    else
      CgroupAnalysis(false, [], [CGROUP_V1_FINDING])
  }

  const SSHD_NOTE := "sshd_config check failed: read /etc/ssh/sshd_config"
  const SUDOERS_NOTE := "sudoers check failed: read /etc/sudoers"
  const NO_FINDINGS_SUMMARY := "No high-risk findings detected"

  /** The notes for the files that could not be read. An error with
      context displays as its context, the path that failed. */
  function ReadNotes(sshd: Option<string>, sudoers: Option<string>): (notes: seq<string>)
    ensures |notes| == (if sshd.None? then 1 else 0) + (if sudoers.None? then 1 else 0)
    ensures SSHD_NOTE in notes <==> sshd.None?
    ensures SUDOERS_NOTE in notes <==> sudoers.None?
  {
    (if sshd.None? then [SSHD_NOTE] else []) + (if sudoers.None? then [SUDOERS_NOTE] else [])
  }

  /** The number of findings of all three analyses; an unreadable file is
      analysed as empty. */
  function FindingCount(sshd: Option<string>, sudoers: Option<string>, cgroups: CgroupAnalysis): nat {
    var sshdFindings := if sshd.Some? then |AnalyzeSshd(sshd.value).findings| else 0;
    var sudoersFindings := if sudoers.Some? then |AnalyzeSudoers(sudoers.value).findings| else 0;
    sshdFindings + sudoersFindings + |cgroups.findings|
  }

  /** `collect`: Success with a fixed summary when nothing was found,
      otherwise Degraded with the count; unreadable files become notes. */
  function SecuritySection(sshd: Option<string>, sudoers: Option<string>, cgroups: CgroupAnalysis): (s: Sdk.Section)
    ensures s.id == "security" && s.title == "Security Posture"
    ensures s.status == Sdk.Success <==> FindingCount(sshd, sudoers, cgroups) == 0
    ensures s.status != Sdk.Error
    ensures s.status == Sdk.Success ==> s.summary == Some(NO_FINDINGS_SUMMARY)
    ensures s.status == Sdk.Degraded ==>
              s.summary.Some? && CountOf(s.summary.value) == Some(FindingCount(sshd, sudoers, cgroups))
    ensures s.notes == ReadNotes(sshd, sudoers)
    ensures Sdk.Explained(s)
  {
    var n := FindingCount(sshd, sudoers, cgroups);
    var section :=
      if n == 0 then Sdk.SuccessSection("security", "Security Posture", Sdk.OpaqueBody).(summary := Some(NO_FINDINGS_SUMMARY))
      else CountSummarySection(n);
    section.(notes := ReadNotes(sshd, sudoers))
  }

  const ISSUES_SUFFIX := " potential security issues"

  /** Reads the count back from a count summary. */
  function CountOf(summary: string): Option<nat> {
    CountBefore(summary, ISSUES_SUFFIX)
  }

  /** The Degraded section for `n` findings. */
  function CountSummarySection(n: nat): (s: Sdk.Section)
    requires n > 0
    ensures s.id == "security" && s.title == "Security Posture" && s.status == Sdk.Degraded
    ensures s.summary.Some? && CountOf(s.summary.value) == Some(n)
  {
    var text := NatToString(n) + ISSUES_SUFFIX;
    CountBeforeOf(n, ISSUES_SUFFIX);
    Sdk.DegradedSection("security", "Security Posture", text, Sdk.OpaqueBody)
  }
}
