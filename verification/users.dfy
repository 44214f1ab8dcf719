/** The users collector (mod-users): parsing /etc/passwd and /etc/group,
    marking the users with sudo rights, and the summary. Reading the two
    files is I/O; their contents arrive as parameters. */
module Users {
  import opened Wrappers
  import opened Text
  import Seqs
  import Sdk

  /** One account. `sudo` is only meaningful after marking. */
  datatype UserRecord = UserRecord(
    name: string,
    uid: nat,
    gid: nat,
    home: string,
    shell: string,
    system: bool,
    interactive: bool,
    sudo: bool)

  /** Accounts below this uid are system accounts. */
  const FIRST_REGULAR_UID: nat := 1000

  /** Blank lines and comments are skipped. Unlike the configuration
      readers, the comment test looks at the untrimmed line. */
  predicate Skipped(line: string) {
    Trim(line) == "" || (|line| > 0 && line[0] == '#')
  }

  /** `is_interactive_shell`: an exact match against a fixed list of
      login shells (the lengths are compared first only to keep the
      comparisons cheap to reason about). */
  predicate IsInteractiveShell(shell: string) {
    (|shell| == 7 && shell == "/bin/sh")
    || (|shell| == 9 && (shell == "/bin/bash" || shell == "/bin/fish" || shell == "/bin/tcsh"))
    || (|shell| == 13 && (shell == "/usr/bin/bash" || shell == "/usr/bin/fish" || shell == "/usr/bin/tmux"))
    || (|shell| == 8 && (shell == "/bin/zsh" || shell == "/bin/csh"))
    || (|shell| == 12 && shell == "/usr/bin/zsh")
  }

  // ---------------------------------------------------------------------
  // passwd

  /** `parse_passwd_line`: at least seven ':'-separated fields, uid and gid
      as u32; name, home and shell are fields 0, 5 and 6. A rejected line
      gives `None` (the reason is discarded by the caller). */
  function ParsePasswdLine(line: string): (r: Option<UserRecord>)
    ensures r.Some? ==> !Skipped(line) && |Split(line, ':')| >= 7
    ensures r.Some? ==> (r.value.system <==> r.value.uid < FIRST_REGULAR_UID)
    ensures r.Some? ==> r.value.interactive == IsInteractiveShell(r.value.shell) && !r.value.sudo
    ensures r.Some? ==> r.value.uid < U32_LIMIT && r.value.gid < U32_LIMIT
    ensures r.Some? ==> ':' !in r.value.name && ':' !in r.value.home && ':' !in r.value.shell
  {
    if Skipped(line) then None
    else
      var parts := Split(line, ':');
      if |parts| < 7 then None
      else
        match (ParseU32(parts[2]), ParseU32(parts[3]))
        case (Some(uid), Some(gid)) =>
          Some(UserRecord(parts[0], uid, gid, parts[5], parts[6], uid < FIRST_REGULAR_UID,
                          IsInteractiveShell(parts[6]), false))
        case _ => None
  }

  /** The passwd line for the given fields. */
  function PasswdLine(name: string, password: string, uid: nat, gid: nat, gecos: string, home: string, shell: string): string {
    Join([name, password, NatToString(uid), NatToString(gid), gecos, home, shell], ":")
  }

  /** Fields free of ':' joined with ':' split back into those fields; the
      line is not skipped when the first field does not start a comment. */
  lemma FieldsLine(parts: seq<string>)
    requires |parts| >= 2
    requires forall i :: 0 <= i < |parts| ==> ':' !in parts[i]
    requires |parts[0]| == 0 || parts[0][0] != '#'
    ensures Split(Join(parts, ":"), ':') == parts
    ensures !Skipped(Join(parts, ":"))
  {
    var line := Join(parts, ":");
    JoinSplit(parts, ':');
    JoinStartsWith(parts, ":");
    assert line == parts[0] + (":" + Join(parts[1..], ":"));
    assert line[|parts[0]|] == ':';
    assert !IsWhitespace(line[|parts[0]|]);
    assert Trim(line) != "";
  }

  /** Seven ':'-free fields with numeric third and fourth fields form a
      line that parses into the record they describe. */
  lemma ParsePasswdFields(parts: seq<string>)
    requires |parts| == 7
    requires forall i :: 0 <= i < |parts| ==> ':' !in parts[i]
    requires |parts[0]| == 0 || parts[0][0] != '#'
    requires ParseU32(parts[2]).Some? && ParseU32(parts[3]).Some?
    ensures var uid := ParseU32(parts[2]).value;
            ParsePasswdLine(Join(parts, ":"))
              == Some(UserRecord(parts[0], uid, ParseU32(parts[3]).value, parts[5], parts[6],
                                 uid < FIRST_REGULAR_UID, IsInteractiveShell(parts[6]), false))
  {
    FieldsLine(parts);
  }

  /** A line written from fields free of ':' reads back as the record
      those fields describe. */
  lemma ParsePasswdLineRoundTrip(name: string, password: string, uid: nat, gid: nat, gecos: string, home: string, shell: string)
    requires ':' !in name && ':' !in password && ':' !in gecos && ':' !in home && ':' !in shell
    requires |name| == 0 || name[0] != '#'
    requires uid < U32_LIMIT && gid < U32_LIMIT
    ensures ParsePasswdLine(PasswdLine(name, password, uid, gid, gecos, home, shell))
            == Some(UserRecord(name, uid, gid, home, shell, uid < FIRST_REGULAR_UID, IsInteractiveShell(shell), false))
  {
    var parts := [name, password, NatToString(uid), NatToString(gid), gecos, home, shell];
    NumberHasNoColon(uid);
    NumberHasNoColon(gid);
    ParseNatToString(uid, U32_LIMIT);
    ParseNatToString(gid, U32_LIMIT);
    ParsePasswdFields(parts);
  }

  /** A number's decimal text holds no ':'. */
  lemma NumberHasNoColon(n: nat)
    ensures ':' !in NatToString(n)
  {
    var s := NatToString(n);
    assert forall i :: 0 <= i < |s| ==> IsDigit(s[i]);
  }

  /** `parse_passwd`: the records of the lines that parse, in line order. */
  function ParsePasswd(content: string): seq<UserRecord> {
    Seqs.FilterMap(ParsePasswdLine, Lines(content))
  }

  // ---------------------------------------------------------------------
  // group

  datatype GroupEntry = GroupEntry(name: string, gid: nat, members: seq<string>)

  /** The non-empty pieces, in order. */
  function NonEmptyPieces(pieces: seq<string>): (r: seq<string>)
    ensures forall x :: x in r <==> x in pieces && x != ""
    ensures (forall i :: 0 <= i < |pieces| ==> pieces[i] != "") ==> r == pieces
    decreases |pieces|
  {
    if |pieces| == 0 then []
    else
      var rest := NonEmptyPieces(pieces[1..]);
      assert pieces == [pieces[0]] + pieces[1..];
      if pieces[0] == "" then rest else [pieces[0]] + rest
  }

  /** The member names of a group's fourth field: the ','-separated
      pieces, empty ones dropped. */
  function MemberList(field: string): (members: seq<string>)
    ensures forall m :: m in members ==> m != "" && ',' !in m
    ensures ':' !in field ==> forall m :: m in members ==> ':' !in m
  {
    var pieces := Split(field, ',');
    SplitWithin(field, ',');
    NonEmptyPieces(pieces)
  }

  /** `parse_group_line`: at least four fields and a u32 gid; the members
      are field 3 split on ',' with empty names dropped. */
  function ParseGroupLine(line: string): (r: Option<GroupEntry>)
    ensures r.Some? ==> !Skipped(line) && |Split(line, ':')| >= 4 && r.value.gid < U32_LIMIT
    ensures r.Some? ==> forall m :: m in r.value.members ==> m != "" && ',' !in m && ':' !in m
  {
    if Skipped(line) then None
    else
      var parts := Split(line, ':');
      if |parts| < 4 then None
      else
        match ParseU32(parts[2])
        case Some(gid) => Some(GroupEntry(parts[0], gid, MemberList(parts[3])))
        case None => None
  }

  /** The group line for the given fields. */
  function GroupLine(name: string, password: string, gid: nat, members: seq<string>): string {
    Join([name, password, NatToString(gid), Join(members, ",")], ":")
  }

  /** Four ':'-free fields with a numeric third field form a line that
      parses into the group they describe. */
  lemma ParseGroupFields(parts: seq<string>)
    requires |parts| == 4
    requires forall i :: 0 <= i < |parts| ==> ':' !in parts[i]
    requires |parts[0]| == 0 || parts[0][0] != '#'
    requires ParseU32(parts[2]).Some?
    ensures ParseGroupLine(Join(parts, ":")) == Some(GroupEntry(parts[0], ParseU32(parts[2]).value, MemberList(parts[3])))
  {
    FieldsLine(parts);
  }

  /** Non-empty names free of ',' joined with ',' are read back as they are. */
  lemma MemberListRoundTrip(members: seq<string>)
    requires forall i :: 0 <= i < |members| ==> members[i] != "" && ',' !in members[i]
    ensures MemberList(Join(members, ",")) == members
  {
    if |members| == 0 {
      assert Split("", ',') == [""];
    } else {
      JoinSplit(members, ',');
    }
  }

  /** A line written from a name, a gid and non-empty member names, none
      holding a separator, reads back as that group. */
  lemma ParseGroupLineRoundTrip(name: string, password: string, gid: nat, members: seq<string>)
    requires ':' !in name && ':' !in password
    requires |name| == 0 || name[0] != '#'
    requires gid < U32_LIMIT
    requires forall i :: 0 <= i < |members| ==> members[i] != "" && ',' !in members[i] && ':' !in members[i]
    ensures ParseGroupLine(GroupLine(name, password, gid, members)) == Some(GroupEntry(name, gid, members))
  {
    NumberHasNoColon(gid);
    JoinExcludes(members, ",", ':');
    ParseNatToString(gid, U32_LIMIT);
    ParseGroupFields([name, password, NatToString(gid), Join(members, ",")]);
    MemberListRoundTrip(members);
  }

  /** `parse_groups`: the groups of the lines that parse, in line order. */
  function ParseGroups(content: string): seq<GroupEntry> {
    Seqs.FilterMap(ParseGroupLine, Lines(content))
  }

  // ---------------------------------------------------------------------
  // sudo marking

  /** The groups whose members may use sudo. */
  const PRIVILEGED_GROUPS := ["sudo", "wheel", "admin"]

  predicate IsPrivileged(g: GroupEntry) {
    g.name in PRIVILEGED_GROUPS
  }

  /** The gids of the privileged groups. */
  function PrivilegedGids(groups: seq<GroupEntry>): set<nat> {
    set g | g in groups && IsPrivileged(g) :: g.gid
  }

  /** The listed members of the privileged groups. */
  function PrivilegedMembers(groups: seq<GroupEntry>): set<string> {
    set g, m | g in groups && IsPrivileged(g) && m in g.members :: m
  }

  /** The first loop of `build_snapshot`: one pass over the groups
      collecting the privileged gids and member names. */
  method CollectPrivileged(groups: seq<GroupEntry>) returns (gids: set<nat>, members: set<string>)
    ensures gids == PrivilegedGids(groups)
    ensures members == PrivilegedMembers(groups)
  {
    gids, members := {}, {};
    for i := 0 to |groups|
      invariant gids == PrivilegedGids(groups[..i])
      invariant members == PrivilegedMembers(groups[..i])
    {
      var g := groups[i];
      assert groups[..i + 1] == groups[..i] + [g];
      if g.name in PRIVILEGED_GROUPS {
        gids := gids + {g.gid};
        members := members + (set m | m in g.members);
      }
    }
    assert groups[..|groups|] == groups;
  }

  /** Whether user `i` ends up with sudo: it is a listed member, or it or an
      earlier user of the same name has a privileged primary gid (the names
      collected so far are shared by name). */
  predicate SudoAt(users: seq<UserRecord>, gids: set<nat>, members: set<string>, i: int)
    requires 0 <= i < |users|
  {
    users[i].name in members
    || exists j :: 0 <= j <= i && users[j].name == users[i].name && users[j].gid in gids
  }

  /** The names of the users before `i` whose primary gid is privileged. */
  function PrimaryNames(users: seq<UserRecord>, gids: set<nat>, i: nat): set<string>
    requires i <= |users|
  {
    set j | 0 <= j < i && users[j].gid in gids :: users[j].name
  }

  /** The second loop of `build_snapshot`: each user in turn adds its name
      when its gid is privileged, then is marked by membership. */
  method MarkSudo(users: seq<UserRecord>, gids: set<nat>, members: set<string>) returns (marked: seq<UserRecord>)
    ensures |marked| == |users|
    ensures forall i :: 0 <= i < |users| ==> marked[i] == users[i].(sudo := SudoAt(users, gids, members, i))
  {
    var known := members;
    marked := [];
    for i := 0 to |users|
      invariant |marked| == i
      invariant known == members + PrimaryNames(users, gids, i)
      invariant forall k :: 0 <= k < i ==> marked[k] == users[k].(sudo := SudoAt(users, gids, members, k))
    {
      var u := users[i];
      if u.gid in gids {
        known := known + {u.name};
      }
      assert known == members + PrimaryNames(users, gids, i + 1);
      assert u.name in known <==> SudoAt(users, gids, members, i);
      marked := marked + [u.(sudo := u.name in known)];
    }
  }

  /** With unique names, a user has sudo exactly when its primary group is
      privileged or it is listed in a privileged group. */
  lemma SudoWithUniqueNames(users: seq<UserRecord>, gids: set<nat>, members: set<string>, i: nat)
    requires i < |users|
    requires forall j, k :: 0 <= j < k < |users| ==> users[j].name != users[k].name
    ensures SudoAt(users, gids, members, i) <==> users[i].gid in gids || users[i].name in members
  {
    if SudoAt(users, gids, members, i) && users[i].name !in members {
      var j :| 0 <= j <= i && users[j].name == users[i].name && users[j].gid in gids;
      assert j == i;
    }
  }

  /** `build_snapshot`: the passwd file must be readable; an unreadable
      group file counts as no groups. */
  method BuildSnapshot(passwd: Option<string>, group: Option<string>) returns (r: Result<seq<UserRecord>, string>)
    ensures passwd.None? ==> r == Err(PASSWD_UNREADABLE)
    ensures passwd.Some? ==> r.Ok? && |r.value| == |ParsePasswd(passwd.value)|
    ensures passwd.Some? ==>
              var users := ParsePasswd(passwd.value);
              var groups := if group.Some? then ParseGroups(group.value) else [];
              forall i :: 0 <= i < |users| ==>
                r.value[i] == users[i].(sudo := SudoAt(users, PrivilegedGids(groups), PrivilegedMembers(groups), i))
  {
    if passwd.None? {
      return Err(PASSWD_UNREADABLE);
    }
    var users := ParsePasswd(passwd.value);
    var groups := if group.Some? then ParseGroups(group.value) else [];
    var gids, members := CollectPrivileged(groups);
    var marked := MarkSudo(users, gids, members);
    return Ok(marked);
  }

  /** An error with context displays as its context. */
  const PASSWD_UNREADABLE := "failed to read /etc/passwd"

  // ---------------------------------------------------------------------
  // summary and section

  predicate IsSystem(u: UserRecord) { u.system }
  predicate IsInteractive(u: UserRecord) { u.interactive }
  predicate HasSudo(u: UserRecord) { u.sudo }

  /** The four numbers the summary reports. */
  datatype UserCounts = UserCounts(total: nat, system: nat, interactive: nat, sudo: nat)

  function Counts(users: seq<UserRecord>): (c: UserCounts)
    ensures c.system <= c.total && c.interactive <= c.total && c.sudo <= c.total
    ensures c.total == |users|
  {
    UserCounts(|users|, Seqs.Count(IsSystem, users), Seqs.Count(IsInteractive, users), Seqs.Count(HasSudo, users))
  }

  /** `UsersSnapshot::summary`: "{total} users ({system} system,
      {interactive} interactive, {sudo} sudo)". */
  function Summary(users: seq<UserRecord>): string {
    var c := Counts(users);
    NatToString(c.total) + (USERS_TEXT + (NatToString(c.system) + (SYSTEM_TEXT
    + (NatToString(c.interactive) + (INTERACTIVE_TEXT + (NatToString(c.sudo) + SUDO_TEXT))))))
  }

  const USERS_TEXT := " users ("
  const SYSTEM_TEXT := " system, "
  const INTERACTIVE_TEXT := " interactive, "
  const SUDO_TEXT := " sudo)"

  /** Reads the four counts back from a summary. */
  function SummaryCounts(text: string): Option<UserCounts> {
    match CountThen(text, USERS_TEXT)
    case None => None
    case Some((total, r1)) =>
      match CountThen(r1, SYSTEM_TEXT)
      case None => None
      case Some((system, r2)) =>
        match CountThen(r2, INTERACTIVE_TEXT)
        case None => None
        case Some((interactive, r3)) =>
          match CountBefore(r3, SUDO_TEXT)
          case None => None
          case Some(sudo) => Some(UserCounts(total, system, interactive, sudo))
  }

  /** The summary reports the total, system, interactive and sudo counts. */
  lemma SummaryReportsCounts(users: seq<UserRecord>)
    ensures SummaryCounts(Summary(users)) == Some(Counts(users))
  {
    var c := Counts(users);
    var r3 := NatToString(c.sudo) + SUDO_TEXT;
    var r2 := NatToString(c.interactive) + (INTERACTIVE_TEXT + r3);
    var r1 := NatToString(c.system) + (SYSTEM_TEXT + r2);
    CountThenOf(c.total, USERS_TEXT, r1);
    CountThenOf(c.system, SYSTEM_TEXT, r2);
    CountThenOf(c.interactive, INTERACTIVE_TEXT, r3);
    CountBeforeOf(c.sudo, SUDO_TEXT);
  }

  /** `collect`: Success with the summary, or Degraded with the error. */
  method UsersSection(passwd: Option<string>, group: Option<string>) returns (s: Sdk.Section)
    ensures s.id == "users" && s.title == "Local Users" && Sdk.Explained(s)
    ensures s.status == Sdk.Success <==> passwd.Some?
    ensures s.status == Sdk.Degraded <==> passwd.None?
    ensures passwd.None? ==> s.summary == Some(PASSWD_UNREADABLE)
    ensures passwd.Some? ==>
              s.summary.Some? && SummaryCounts(s.summary.value).Some? &&
              SummaryCounts(s.summary.value).value.total == |ParsePasswd(passwd.value)|
  {
    var r := BuildSnapshot(passwd, group);
    match r {
      case Ok(users) =>
        SummaryReportsCounts(users);
        s := Sdk.SuccessSection("users", "Local Users", Sdk.OpaqueBody).(summary := Some(Summary(users)));
      case Err(error) =>
        s := Sdk.DegradedSection("users", "Local Users", error, Sdk.OpaqueBody);
    }
  }

  // ---------------------------------------------------------------------
  // Example

  /** Root (system, sudo) and alice (regular): two users, one system, two
      interactive, one with sudo. */
  lemma SummaryCountsExample()
    ensures var users := [UserRecord("root", 0, 0, "/root", "/bin/bash", true, true, true),
                          UserRecord("alice", 1000, 1000, "/home/alice", "/bin/bash", false, true, false)];
            Counts(users) == UserCounts(2, 1, 2, 1)
  {
    var users := [UserRecord("root", 0, 0, "/root", "/bin/bash", true, true, true),
                  UserRecord("alice", 1000, 1000, "/home/alice", "/bin/bash", false, true, false)];
    assert users[..1] == [users[0]] && users[..1][..0] == [];
  }
}
