/** Listening-socket vocabulary of the network collector: socket samples,
    service classification, wildcard detection, container attribution from
    cgroup paths, and the rule-based listener insights
    (modules/mod-network/src/lib.rs). */
module Network {
  import opened Wrappers
  import opened Text
  import Seqs

  // ---------------------------------------------------------------------
  // Records

  /** A process owning a socket, with the container its cgroups point at. */
  datatype ProcessInfo = ProcessInfo(pid: int, command: string, uid: nat, container: Option<string>)

  /** One retained listening socket. `state` is "Listen" for TCP and absent for UDP. */
  datatype SocketSample = SocketSample(
    protocol: string,
    localAddress: string,
    state: Option<string>,
    processes: seq<ProcessInfo>,
    service: Option<string>)

  datatype ListenerCounts = ListenerCounts(tcp: nat, tcp6: nat, udp: nat, udp6: nat)

  /** `ListenerCounts::total`. */
  function Total(c: ListenerCounts): nat {
    c.tcp + c.tcp6 + c.udp + c.udp6
  }

  /** At most this many samples are kept across all four tables. */
  const MAX_SOCKET_SAMPLES: nat := 20

  // ---------------------------------------------------------------------
  // Services

  /** The table of well-known (protocol, port) pairs. */
  function ServiceName(protocol: string, port: nat): Option<string> {
    if protocol == "tcp" then
      match port
      case 21 => Some("ftp")
      case 22 => Some("ssh")
      case 23 => Some("telnet")
      case 25 => Some("smtp")
      case 53 => Some("dns")
      case 80 => Some("http")
      case 110 => Some("pop3")
      case 143 => Some("imap")
      case 389 => Some("ldap")
      case 443 => Some("https")
      case 445 => Some("smb")
      case 465 => Some("smtps")
      case 587 => Some("submission")
      case 993 => Some("imaps")
      case 995 => Some("pop3s")
      case 1433 => Some("mssql")
      case 1521 => Some("oracle")
      case 2049 => Some("nfs")
      case 2375 => Some("docker")
      case 3306 => Some("mysql")
      case 3389 => Some("rdp")
      case 5432 => Some("postgresql")
      case 5900 => Some("vnc")
      case 6379 => Some("redis")
      case 8080 => Some("http-alt")
      case 8443 => Some("https-alt")
      case _ => None
    else if protocol == "udp" then
      match port
      case 53 => Some("dns")
      case 2049 => Some("nfs")
      case _ => None
    else None
  }

  /** Services considered legacy or insecure when exposed. */
  const INSECURE_SERVICES: set<string> :=
    {"telnet", "ftp", "pop3", "imap", "smtp", "mysql", "redis", "rdp", "vnc"}

  /** Membership in `INSECURE_SERVICES`, comparing lengths first. */
  predicate IsInsecureService(name: string) {
    || (|name| == 3 && (name == "ftp" || name == "rdp" || name == "vnc"))
    || (|name| == 4 && (name == "pop3" || name == "imap" || name == "smtp"))
    || (|name| == 5 && (name == "mysql" || name == "redis"))
    || (|name| == 6 && name == "telnet")
  }

  lemma InsecureServiceIff(name: string)
    ensures IsInsecureService(name) <==> name in INSECURE_SERVICES
  {
  }

  /** `extract_port`: the text after the last ':' read as a u16. */
  function ExtractPort(address: string): (r: Option<nat>)
    ensures r.Some? ==> r.value < U16_LIMIT
    ensures ':' !in address ==> r.None?
  {
    match LastIndexOfChar(address, ':')
    case None => None
    case Some(i) => ParseU16(address[i + 1..])
  }

  /** Rendering "host:port" and extracting the port gives the port back,
      whatever colons the host part contains (IPv6 included). */
  lemma ExtractPortRoundTrip(host: string, port: nat)
    requires port < U16_LIMIT
    ensures ExtractPort(host + ":" + NatToString(port)) == Some(port)
  {
    var digits := NatToString(port);
    var a := host + ":" + digits;
    assert a[|host| + 1..] == digits;
    assert ':' !in digits by {
      forall k | 0 <= k < |digits| ensures digits[k] != ':' {
        assert IsDigit(digits[k]);
      }
    }
    LastIndexOfCharAt(a, ':', |host|);
    ParseNatToString(port, U16_LIMIT);
  }

  /** `classify_service`: look up (lower-cased protocol, port) in the table. */
  function ClassifyService(protocol: string, address: string): (r: Option<string>)
    ensures r.Some? ==> Lower(protocol) == "tcp" || Lower(protocol) == "udp"
    ensures r.Some? ==> ExtractPort(address).Some? && r == ServiceName(Lower(protocol), ExtractPort(address).value)
    ensures ExtractPort(address).None? ==> r.None?
  {
    match ExtractPort(address)
    case None => None
    case Some(port) => ServiceName(Lower(protocol), port)
  }

  lemma LowerIdempotent(s: string)
    ensures Lower(Lower(s)) == Lower(s)
  {
  }

  /** The protocol is matched case-insensitively, and IPv6 tables ("tcp6",
      "udp6") never classify. */
  lemma ClassifyServiceProtocol(protocol: string, address: string)
    ensures ClassifyService(protocol, address) == ClassifyService(Lower(protocol), address)
    ensures |protocol| != 3 ==> ClassifyService(protocol, address).None?
  {
    LowerIdempotent(protocol);
  }

  /** Classifying "host:port" looks the port up under the lower-cased protocol. */
  lemma ClassifyAt(protocol: string, host: string, port: nat)
    requires port < U16_LIMIT
    ensures ClassifyService(protocol, host + ":" + NatToString(port)) == ServiceName(Lower(protocol), port)
  {
    ExtractPortRoundTrip(host, port);
  }

  /** Port 22 over TCP is ssh, whatever the host. */
  lemma ClassifySsh(host: string)
    ensures ClassifyService("tcp", host + ":" + NatToString(22)) == Some("ssh")
  {
    assert Lower("tcp") == "tcp";
    assert ServiceName("tcp", 22) == Some("ssh");
    ClassifyAt("tcp", host, 22);
  }

  /** Port 23 is telnet whatever the protocol's case, and telnet is insecure. */
  lemma ClassifyTelnet(host: string)
    ensures ClassifyService("TCP", host + ":" + NatToString(23)) == Some("telnet") && "telnet" in INSECURE_SERVICES
  {
    assert Lower("TCP") == "tcp";
    assert ServiceName("tcp", 23) == Some("telnet");
    ClassifyAt("TCP", host, 23);
  }

  /** `is_wildcard_address`: bound to every IPv4 or IPv6 interface. */
  predicate IsWildcardAddress(address: string) {
    StartsWith(address, "0.0.0.0:")
    || StartsWith(address, ":::")
    || StartsWith(address, "[::]:")
    || StartsWith(address, "[::ffff:0.0.0.0]:")
  }

  /** Wildcard binds are recognised whatever the port; loopback binds are not. */
  lemma WildcardExamples(port: string)
    ensures IsWildcardAddress("0.0.0.0:" + port) && IsWildcardAddress("[::]:" + port)
    ensures !IsWildcardAddress("127.0.0.1:" + port)
  {
    assert ("0.0.0.0:" + port)[..8] == "0.0.0.0:";
    assert ("[::]:" + port)[..5] == "[::]:";
    assert ("127.0.0.1:" + port)[0] == '1';
  }

  // ---------------------------------------------------------------------
  // Container attribution

  const DOCKER_MARK := "docker/"
  const KUBEPODS_MARK := "kubepods/"

  /** `r` is the first `c`-separated segment of `s`: a prefix without `c`
      that is all of `s` or is followed by `c`. */
  predicate IsFirstSegment(s: string, c: char, r: string) {
    StartsWith(s, r) && c !in r && (|r| == |s| || s[|r|] == c)
  }

  /** `r` is the last `c`-separated segment of `s`: a suffix without `c`
      that is all of `s` or is preceded by `c`. */
  predicate IsLastSegment(s: string, c: char, r: string) {
    |r| <= |s| && r == s[|s| - |r|..] && c !in r && (|r| == |s| || s[|s| - |r| - 1] == c)
  }

  /** The text before the first `c` (`split(c).next()`). */
  function BeforeChar(s: string, c: char): (r: string)
    ensures c !in r && StartsWith(s, r)
    ensures c !in s ==> r == s
    ensures IsFirstSegment(s, c, r)
  {
    match IndexOfChar(s, c)
    case None => s
    case Some(i) => s[..i]
  }

  /** The text after the last `c` (`rsplit(c).next()`). */
  function AfterLastChar(s: string, c: char): (r: string)
    ensures c !in r && |r| <= |s| && r == s[|s| - |r|..]
    ensures IsLastSegment(s, c, r)
  {
    match LastIndexOfChar(s, c)
    case None => s
    case Some(i) => s[i + 1..]
  }

  /** The second piece of `s` split on `pat` (`split(pat).nth(1)`), given
      that `pat` occurs: from the end of its first occurrence to the start
      of the next one. */
  function SecondPiece(s: string, pat: string): (r: string)
    requires |pat| > 0 && Contains(s, pat)
    ensures !Contains(r, pat)
    ensures var start := IndexOf(s, pat).value + |pat|;
            && start + |r| <= |s| && r == s[start..start + |r|]
            && (start + |r| == |s| || OccursAt(s, pat, start + |r|))
            && forall j :: start <= j < start + |r| ==> !OccursAt(s, pat, j)
  {
    var start := IndexOf(s, pat).value + |pat|;
    var rest := s[start..];
    match IndexOf(rest, pat)
    case None =>
      NoOccurrenceShift(s, pat, start, |rest|);
      PrefixWithoutOccurrence(rest, pat, |rest|);
      assert rest[..|rest|] == rest;
      rest
    case Some(k) =>
      OccursAtShift(s, pat, start, k);
      NoOccurrenceShift(s, pat, start, k);
      PrefixWithoutOccurrence(rest, pat, k);
      rest[..k]
  }

  /** The container named by one cgroup path, if any: after trimming '/',
      a "docker/" path names the id that follows it, and otherwise a
      "kubepods/" path names its last segment. */
  function ContainerFromPath(pathname: string): (r: Option<string>)
    ensures var path := TrimChar(pathname, '/');
            r.Some? <==> Contains(path, DOCKER_MARK) || Contains(path, KUBEPODS_MARK)
    ensures r.Some? ==> '/' !in r.value
    ensures var path := TrimChar(pathname, '/');
            Contains(path, DOCKER_MARK) ==> r.Some? && IsFirstSegment(SecondPiece(path, DOCKER_MARK), '/', r.value)
    ensures var path := TrimChar(pathname, '/');
            !Contains(path, DOCKER_MARK) && Contains(path, KUBEPODS_MARK) ==> r.Some? && IsLastSegment(path, '/', r.value)
  {
    var path := TrimChar(pathname, '/');
    if Contains(path, DOCKER_MARK) then Some(BeforeChar(SecondPiece(path, DOCKER_MARK), '/'))
    else if Contains(path, KUBEPODS_MARK) then Some(AfterLastChar(path, '/'))
    else None
  }

  /** A docker cgroup path names exactly the id that follows "docker/". */
  lemma DockerPathNamesId(id: string)
    requires |id| > 0 && '/' !in id
    ensures ContainerFromPath("/docker/" + id) == Some(id)
  {
    var path := "docker/" + id;
    assert ("/docker/" + id)[1..] == path;
    assert TrimChar("/docker/" + id, '/') == path;
    assert OccursAt(path, DOCKER_MARK, 0);
    assert path[7..] == id;
    assert !Contains(id, DOCKER_MARK) by {
      forall j | 0 <= j <= |id| ensures !OccursAt(id, DOCKER_MARK, j) {
        if j + 7 <= |id| {
          assert id[j..j + 7][6] == id[j + 6] != '/';
        }
      }
      ContainsIff(id, DOCKER_MARK);
    }
  }

  /** A kubepods cgroup path (with no docker marker) names its last segment. */
  lemma KubepodsPathNamesLastSegment(pod: string, id: string)
    requires |id| > 0 && '/' !in id && !Contains("kubepods/" + pod + "/" + id, DOCKER_MARK)
    ensures ContainerFromPath("kubepods/" + pod + "/" + id) == Some(id)
  {
    var path := "kubepods/" + pod + "/" + id;
    assert TrimChar(path, '/') == path;
    assert OccursAt(path, KUBEPODS_MARK, 0);
    assert path[|path| - |id| - 1] == '/';
    assert path[|path| - |id|..] == id;
    LastIndexOfCharAt(path, '/', |path| - |id| - 1);
  }

  /** `extract_container_from_cgroups`: the first cgroup path that names a
      container decides. */
  function ExtractContainer(pathnames: seq<string>): (r: Option<string>)
    ensures r.None? <==> forall i :: 0 <= i < |pathnames| ==> ContainerFromPath(pathnames[i]).None?
    ensures r.Some? ==>
              exists i :: 0 <= i < |pathnames| && ContainerFromPath(pathnames[i]) == r && (forall j :: 0 <= j < i ==> ContainerFromPath(pathnames[j]).None?)
  {
    Seqs.FirstSome(ContainerFromPath, pathnames)
  }

  // ---------------------------------------------------------------------
  // Insights

  /** Where an insight points: the socket, its service, the first container
      among its processes and the pid of its first process. */
  datatype SocketReference = SocketReference(
    protocol: string,
    localAddress: string,
    service: Option<string>,
    container: Option<string>,
    pid: Option<int>)

  /** `InsightBucket::push`: the reference recorded for a sample. */
  function Reference(sample: SocketSample): (r: SocketReference)
    ensures r.protocol == sample.protocol && r.localAddress == sample.localAddress && r.service == sample.service
    ensures r.pid.Some? <==> |sample.processes| > 0
    ensures r.pid.Some? ==> r.pid.value == sample.processes[0].pid
    ensures r.container.None? <==> forall k :: 0 <= k < |sample.processes| ==> sample.processes[k].container.None?
    ensures r.container.Some? ==>
              exists k :: 0 <= k < |sample.processes| && sample.processes[k].container == r.container && (forall j :: 0 <= j < k ==> sample.processes[j].container.None?)
  {
    SocketReference(
      sample.protocol, sample.localAddress, sample.service,
      Seqs.FirstSome((p: ProcessInfo) => p.container, sample.processes),
      if |sample.processes| > 0 then Some(sample.processes[0].pid) else None)
  }

  /** The insight rules, in the order their names sort. */
  datatype Rule = LegacyProtocol | WildcardListener

  function RuleName(rule: Rule): string {
    match rule
    case LegacyProtocol => "legacy_protocol"
    case WildcardListener => "wildcard_listener"
  }

  function RuleMessage(rule: Rule): string {
    match rule
    case LegacyProtocol => "Legacy or insecure protocol exposed"
    case WildcardListener => "Listener bound to all interfaces"
  }

  predicate Applies(rule: Rule, sample: SocketSample) {
    match rule
    case LegacyProtocol => sample.service.Some? && IsInsecureService(sample.service.value)
    case WildcardListener => IsWildcardAddress(sample.localAddress)
  }

  datatype ListenerInsight = ListenerInsight(rule: string, severity: string, message: string, sockets: seq<SocketReference>)

  /** The reference a rule records for a sample it applies to. */
  function Hit(rule: Rule): SocketSample -> Option<SocketReference> {
    (s: SocketSample) => if Applies(rule, s) then Some(Reference(s)) else None
  }

  /** References to the samples a rule applies to, in sample order. */
  function Matching(rule: Rule, samples: seq<SocketSample>): (r: seq<SocketReference>)
    ensures |r| == 0 <==> forall i :: 0 <= i < |samples| ==> !Applies(rule, samples[i])
    ensures var ix := Seqs.SomeIndices(Hit(rule), samples);
            |r| == |ix| && forall k :: 0 <= k < |r| ==> Applies(rule, samples[ix[k]]) && r[k] == Reference(samples[ix[k]])
  {
    var f := Hit(rule);
    var r := Seqs.FilterMap(f, samples);
    var ix := Seqs.SomeIndices(f, samples);
    assert |r| > 0 ==> Applies(rule, samples[ix[0]]);
    assert forall i :: 0 <= i < |samples| && Applies(rule, samples[i]) ==> i in ix;
    r
  }

  function InsightFor(rule: Rule, samples: seq<SocketSample>): (r: seq<ListenerInsight>)
    ensures |r| <= 1
    ensures |r| == 1 <==> exists i :: 0 <= i < |samples| && Applies(rule, samples[i])
    ensures |r| == 1 ==> r[0] == ListenerInsight(RuleName(rule), "warning", RuleMessage(rule), Matching(rule, samples))
  {
    var sockets := Matching(rule, samples);
    if |sockets| == 0 then [] else [ListenerInsight(RuleName(rule), "warning", RuleMessage(rule), sockets)]
  }

  /** `derive_listener_insights`: one insight per rule that matched at
      least one sample, ordered by rule name as the `BTreeMap` orders them. */
  function DeriveListenerInsights(samples: seq<SocketSample>): (r: seq<ListenerInsight>)
    ensures |r| <= 2
    ensures forall k :: 0 <= k < |r| ==> r[k].severity == "warning" && |r[k].sockets| > 0
    ensures forall k, l :: 0 <= k < l < |r| ==> Less(r[k].rule, r[l].rule)
  {
    var legacy := InsightFor(LegacyProtocol, samples);
    var wildcard := InsightFor(WildcardListener, samples);
    RuleNamesOrdered();
    Buckets(legacy, wildcard, RuleName(LegacyProtocol), RuleName(WildcardListener));
    legacy + wildcard
  }

  /** Two buckets of at most one insight each, named in increasing order,
      give at most two insights in increasing order of name. */
  lemma Buckets(a: seq<ListenerInsight>, b: seq<ListenerInsight>, first: string, second: string)
    requires |a| <= 1 && |b| <= 1 && Less(first, second)
    requires forall k :: 0 <= k < |a| ==> a[k].rule == first && a[k].severity == "warning" && |a[k].sockets| > 0
    requires forall k :: 0 <= k < |b| ==> b[k].rule == second && b[k].severity == "warning" && |b[k].sockets| > 0
    ensures |a + b| <= 2
    ensures forall k :: 0 <= k < |a + b| ==> (a + b)[k].severity == "warning" && |(a + b)[k].sockets| > 0
    ensures forall k, l :: 0 <= k < l < |a + b| ==> Less((a + b)[k].rule, (a + b)[l].rule)
  {
  }

  /** The rule names in the order the `BTreeMap` keeps them. */
  lemma RuleNamesOrdered()
    ensures Less(RuleName(LegacyProtocol), RuleName(WildcardListener))
  {
    var a, b := RuleName(LegacyProtocol), RuleName(WildcardListener);
    assert a[0] == 'l' && b[0] == 'w';
  }

  /** Where each rule's insight sits in the result. */
  lemma InsightLayout(samples: seq<SocketSample>)
    ensures var a, b := InsightFor(LegacyProtocol, samples), InsightFor(WildcardListener, samples);
            DeriveListenerInsights(samples) == a + b
  {
  }

  /** Looking an insight up by name in two buckets named apart: a name
      is found only at its own bucket's single insight. */
  lemma BucketAt(a: seq<ListenerInsight>, b: seq<ListenerInsight>, first: string, second: string)
    requires |a| <= 1 && |b| <= 1 && first != second
    requires forall k :: 0 <= k < |a| ==> a[k].rule == first
    requires forall k :: 0 <= k < |b| ==> b[k].rule == second
    ensures forall k :: 0 <= k < |a + b| && (a + b)[k].rule == first ==> k == 0 && |a| == 1 && (a + b)[k] == a[0]
    ensures forall k :: 0 <= k < |a + b| && (a + b)[k].rule == second ==> k == |a| && |b| == 1 && (a + b)[k] == b[0]
    ensures |a| == 1 ==> (a + b)[0] == a[0]
    ensures |b| == 1 ==> (a + b)[|a|] == b[0]
  {
  }

  /** A rule's insight is present exactly when some sample matches it. */
  lemma InsightPresence(samples: seq<SocketSample>, rule: Rule)
    ensures (exists i :: 0 <= i < |samples| && Applies(rule, samples[i])) <==>
            (exists k :: 0 <= k < |DeriveListenerInsights(samples)| && DeriveListenerInsights(samples)[k].rule == RuleName(rule))
  {
    var a, b := InsightFor(LegacyProtocol, samples), InsightFor(WildcardListener, samples);
    InsightLayout(samples);
    BucketPresence(a, b, RuleName(LegacyProtocol), RuleName(WildcardListener));
  }

  /** A name is found in two buckets named apart exactly when its own
      bucket holds an insight. */
  lemma BucketPresence(a: seq<ListenerInsight>, b: seq<ListenerInsight>, first: string, second: string)
    requires |a| <= 1 && |b| <= 1 && first != second
    requires forall k :: 0 <= k < |a| ==> a[k].rule == first
    requires forall k :: 0 <= k < |b| ==> b[k].rule == second
    ensures (exists k :: 0 <= k < |a + b| && (a + b)[k].rule == first) <==> |a| == 1
    ensures (exists k :: 0 <= k < |a + b| && (a + b)[k].rule == second) <==> |b| == 1
  {
    BucketAt(a, b, first, second);
    if |a| == 1 {
      assert (a + b)[0].rule == first;
    }
    if |b| == 1 {
      assert (a + b)[|a|].rule == second;
    }
  }

  /** Each present insight carries its rule's message and exactly the
      matching sockets, in sample order. */
  lemma InsightContents(samples: seq<SocketSample>, rule: Rule, k: nat)
    requires k < |DeriveListenerInsights(samples)| && DeriveListenerInsights(samples)[k].rule == RuleName(rule)
    ensures DeriveListenerInsights(samples)[k] == ListenerInsight(RuleName(rule), "warning", RuleMessage(rule), Matching(rule, samples))
  {
    var a, b := InsightFor(LegacyProtocol, samples), InsightFor(WildcardListener, samples);
    InsightLayout(samples);
    BucketAt(a, b, RuleName(LegacyProtocol), RuleName(WildcardListener));
  }

  /** A telnet listener on 0.0.0.0 next to an http-alt listener on loopback
      raises both insights, each pointing at the telnet socket only. */
  lemma InsightsExample()
    ensures
      var inetd := SocketSample("tcp", "0.0.0.0:23", Some("Listen"), [ProcessInfo(42, "inetd", 0, None)], Some("telnet"));
      var app := SocketSample("tcp", "127.0.0.1:8080", Some("Listen"), [ProcessInfo(200, "app", 1000, Some("svc"))], Some("http-alt"));
      var r := DeriveListenerInsights([inetd, app]);
      |r| == 2 && r[0].rule == "legacy_protocol" && r[1].rule == "wildcard_listener"
      && r[1].sockets == [Reference(inetd)] && r[1].sockets[0].pid == Some(42)
      && r[0].sockets[0].service == Some("telnet")
  {
    var inetd := SocketSample("tcp", "0.0.0.0:23", Some("Listen"), [ProcessInfo(42, "inetd", 0, None)], Some("telnet"));
    var app := SocketSample("tcp", "127.0.0.1:8080", Some("Listen"), [ProcessInfo(200, "app", 1000, Some("svc"))], Some("http-alt"));
    ExampleRules(inetd, app);
    MatchingFirstOfTwo(LegacyProtocol, inetd, app);
    MatchingFirstOfTwo(WildcardListener, inetd, app);
    InsightLayout([inetd, app]);
  }

  /** Of two samples, a rule that applies to the first only references the first. */
  lemma MatchingFirstOfTwo(rule: Rule, x: SocketSample, y: SocketSample)
    requires Applies(rule, x) && !Applies(rule, y)
    ensures Matching(rule, [x, y]) == [Reference(x)]
  {
    var s := [x, y];
    assert s[..1] == [x] && s[..1][..0] == [];
    assert Hit(rule)(x) == Some(Reference(x));
    assert Hit(rule)(y) == None;
  }

  /** The telnet listener on every interface trips both rules; the
      loopback web listener trips neither. */
  lemma ExampleRules(inetd: SocketSample, app: SocketSample)
    requires inetd == SocketSample("tcp", "0.0.0.0:23", Some("Listen"), [ProcessInfo(42, "inetd", 0, None)], Some("telnet"))
    requires app == SocketSample("tcp", "127.0.0.1:8080", Some("Listen"), [ProcessInfo(200, "app", 1000, Some("svc"))], Some("http-alt"))
    ensures Applies(LegacyProtocol, inetd) && !Applies(LegacyProtocol, app)
    ensures Applies(WildcardListener, inetd) && !Applies(WildcardListener, app)
  {
    assert "0.0.0.0:23"[..8] == "0.0.0.0:";
    assert "127.0.0.1:8080"[0] == '1';
  }

}
