/** The listener snapshot of the network collector (mod-network,
    `gather_listeners`): counting listening sockets per table, keeping at
    most twenty samples across the four tables, and deriving the groups and
    insights from the samples. Reading the kernel tables and the process
    map is I/O; both arrive here as parameters. */
module Listeners {
  import opened Wrappers
  import Seqs
  import opened Network
  import ListenerGroups

  /** One row of a kernel socket table: the local address as displayed,
      whether the TCP state is Listen (UDP rows ignore it), and the socket
      inode that links it to processes. */
  datatype SocketEntry = SocketEntry(localAddress: string, listening: bool, inode: nat)

  /** The four tables as read, each possibly unreadable (the error as text). */
  datatype SocketTables = SocketTables(
    tcp: Result<seq<SocketEntry>, string>,
    tcp6: Result<seq<SocketEntry>, string>,
    udp: Result<seq<SocketEntry>, string>,
    udp6: Result<seq<SocketEntry>, string>)

  /** Socket inode to the processes holding it; empty when the process
      table could not be walked. */
  type ProcessMap = map<nat, seq<ProcessInfo>>

  datatype ListenerSnapshot = ListenerSnapshot(
    counts: ListenerCounts,
    samples: seq<SocketSample>,
    groups: seq<ListenerGroups.ListenerContainerGroup>,
    insights: seq<ListenerInsight>)

  /** `process_map.get(&inode).cloned().unwrap_or_default()`. */
  function ProcessesOf(procs: ProcessMap, inode: nat): (r: seq<ProcessInfo>)
    ensures inode !in procs ==> r == []
    ensures inode in procs ==> r == procs[inode]
  {
    if inode in procs then procs[inode] else []
  }

  /** The sample recorded for one row; TCP rows carry the state text
      "Listen", UDP rows no state. */
  function SampleOf(protocol: string, e: SocketEntry, state: Option<string>, procs: ProcessMap): (s: SocketSample)
    ensures s.protocol == protocol && s.localAddress == e.localAddress && s.state == state
    ensures s.processes == ProcessesOf(procs, e.inode)
    ensures s.service == ClassifyService(protocol, e.localAddress)
  {
    SocketSample(protocol, e.localAddress, state, ProcessesOf(procs, e.inode), ClassifyService(protocol, e.localAddress))
  }

  const LISTEN_STATE: string := "Listen"

  predicate IsListening(e: SocketEntry) {
    e.listening
  }

  /** Every listening TCP row as a sample, in table order. */
  function ListeningSamples(protocol: string, entries: seq<SocketEntry>, procs: ProcessMap): (r: seq<SocketSample>)
    ensures |r| == Seqs.Count(IsListening, entries)
    decreases |entries|
  {
    if |entries| == 0 then []
    else
      var rest := ListeningSamples(protocol, entries[..|entries| - 1], procs);
      var e := entries[|entries| - 1];
      if e.listening then rest + [SampleOf(protocol, e, Some(LISTEN_STATE), procs)] else rest
  }

  predicate ListeningShaped(protocol: string, s: SocketSample) {
    s.protocol == protocol && s.state == Some(LISTEN_STATE) && s.service == ClassifyService(protocol, s.localAddress)
  }

  /** Each listening sample is a TCP sample of the table's protocol in the
      Listen state, with the service its address classifies to. */
  lemma {:induction false} ListeningSamplesShape(protocol: string, entries: seq<SocketEntry>, procs: ProcessMap)
    ensures forall i :: 0 <= i < |ListeningSamples(protocol, entries, procs)| ==> ListeningShaped(protocol, ListeningSamples(protocol, entries, procs)[i])
    decreases |entries|
  {
    if |entries| > 0 {
      var rest := ListeningSamples(protocol, entries[..|entries| - 1], procs);
      var e := entries[|entries| - 1];
      ListeningSamplesShape(protocol, entries[..|entries| - 1], procs);
      var r := ListeningSamples(protocol, entries, procs);
      if e.listening {
        var x := SampleOf(protocol, e, Some(LISTEN_STATE), procs);
        assert r == rest + [x];
        assert ListeningShaped(protocol, x);
        forall i | 0 <= i < |r| ensures ListeningShaped(protocol, r[i]) {
          if i < |rest| { assert r[i] == rest[i]; }
        }
      } else {
        assert r == rest;
      }
    }
  }

  /** One more row read: a listening row adds its sample and its count. */
  lemma ListeningStep(protocol: string, entries: seq<SocketEntry>, procs: ProcessMap, i: nat)
    requires i < |entries|
    ensures ListeningSamples(protocol, entries[..i + 1], procs)
         == ListeningSamples(protocol, entries[..i], procs)
            + (if entries[i].listening then [SampleOf(protocol, entries[i], Some(LISTEN_STATE), procs)] else [])
    ensures Seqs.Count(IsListening, entries[..i + 1])
         == Seqs.Count(IsListening, entries[..i]) + (if entries[i].listening then 1 else 0)
  {
    assert entries[..i + 1][..i] == entries[..i];
  }

  /** Every UDP row as a sample, in table order. */
  function AllSamples(protocol: string, entries: seq<SocketEntry>, procs: ProcessMap): (r: seq<SocketSample>)
    ensures |r| == |entries|
    ensures forall i :: 0 <= i < |r| ==> r[i] == SampleOf(protocol, entries[i], None, procs)
  {
    seq(|entries|, i requires 0 <= i < |entries| => SampleOf(protocol, entries[i], None, procs))
  }

  /** What a table contributes before the cap: its listening rows (TCP) or
      all its rows (UDP); nothing when it could not be read. */
  function TcpCandidates(protocol: string, table: Result<seq<SocketEntry>, string>, procs: ProcessMap): (r: seq<SocketSample>)
    ensures forall i :: 0 <= i < |r| ==> r[i].protocol == protocol && r[i].state == Some(LISTEN_STATE)
    ensures forall i :: 0 <= i < |r| ==> r[i].service == ClassifyService(protocol, r[i].localAddress)
  {
    if table.Ok? then
      ListeningSamplesShape(protocol, table.value, procs);
      ListeningSamples(protocol, table.value, procs)
    else []
  }

  function UdpCandidates(protocol: string, table: Result<seq<SocketEntry>, string>, procs: ProcessMap): (r: seq<SocketSample>)
    ensures forall i :: 0 <= i < |r| ==> r[i].protocol == protocol && r[i].state == None
    ensures forall i :: 0 <= i < |r| ==> r[i].service == ClassifyService(protocol, r[i].localAddress)
  {
    if table.Ok? then AllSamples(protocol, table.value, procs) else []
  }

  /** All samples the four tables offer, in the order they are read. */
  function Candidates(tables: SocketTables, procs: ProcessMap): seq<SocketSample> {
    TcpCandidates("tcp", tables.tcp, procs) + TcpCandidates("tcp6", tables.tcp6, procs)
    + UdpCandidates("udp", tables.udp, procs) + UdpCandidates("udp6", tables.udp6, procs)
  }

  /** The counters: listening rows for TCP, all rows for UDP, zero for an
      unreadable table. */
  function Counts(tables: SocketTables): (c: ListenerCounts)
    ensures c.tcp == |TcpCandidates("tcp", tables.tcp, map[])| && c.tcp6 == |TcpCandidates("tcp6", tables.tcp6, map[])|
    ensures c.udp == |UdpCandidates("udp", tables.udp, map[])| && c.udp6 == |UdpCandidates("udp6", tables.udp6, map[])|
  {
    ListenerCounts(
      if tables.tcp.Ok? then Seqs.Count(IsListening, tables.tcp.value) else 0,
      if tables.tcp6.Ok? then Seqs.Count(IsListening, tables.tcp6.value) else 0,
      if tables.udp.Ok? then |tables.udp.value| else 0,
      if tables.udp6.Ok? then |tables.udp6.value| else 0)
  }

  /** The note left by a table that could not be read. */
  function Note(path: string, error: string): string {
    "Failed to read " + path + ": " + error
  }

  /** One note per unreadable table, in reading order. */
  function NoteFor(path: string, table: Result<seq<SocketEntry>, string>): seq<string> {
    if table.Err? then [Note(path, table.error)] else []
  }

  function Notes(tables: SocketTables): (r: seq<string>)
    ensures |r| == (if tables.tcp.Err? then 1 else 0) + (if tables.tcp6.Err? then 1 else 0)
                 + (if tables.udp.Err? then 1 else 0) + (if tables.udp6.Err? then 1 else 0)
    ensures tables.tcp.Err? ==> Note("/proc/net/tcp", tables.tcp.error) in r
    ensures tables.tcp6.Err? ==> Note("/proc/net/tcp6", tables.tcp6.error) in r
    ensures tables.udp.Err? ==> Note("/proc/net/udp", tables.udp.error) in r
    ensures tables.udp6.Err? ==> Note("/proc/net/udp6", tables.udp6.error) in r
  {
    NoteFor("/proc/net/tcp", tables.tcp) + NoteFor("/proc/net/tcp6", tables.tcp6)
    + NoteFor("/proc/net/udp", tables.udp) + NoteFor("/proc/net/udp6", tables.udp6)
  }

  /** A TCP table's loop: every listening row is counted, and sampled
      while fewer than twenty samples are held. */
  method GatherTcp(protocol: string, entries: seq<SocketEntry>, procs: ProcessMap, samples: seq<SocketSample>)
    returns (count: nat, samples': seq<SocketSample>)
    requires |samples| <= MAX_SOCKET_SAMPLES
    ensures count == Seqs.Count(IsListening, entries)
    ensures samples' == Seqs.Take(samples + ListeningSamples(protocol, entries, procs), MAX_SOCKET_SAMPLES)
  {
    count := 0;
    samples' := samples;
    ghost var seen: seq<SocketSample> := [];
    for i := 0 to |entries|
      invariant count == Seqs.Count(IsListening, entries[..i])
      invariant seen == ListeningSamples(protocol, entries[..i], procs)
      invariant samples' == Seqs.Take(samples + seen, MAX_SOCKET_SAMPLES)
    {
      ListeningStep(protocol, entries, procs, i);
      if entries[i].listening {
        var sample := SampleOf(protocol, entries[i], Some(LISTEN_STATE), procs);
        Seqs.TakeSnoc(samples + seen, sample, MAX_SOCKET_SAMPLES);
        assert samples + (seen + [sample]) == samples + seen + [sample];
        seen := seen + [sample];
        count := count + 1;
        if |samples'| < MAX_SOCKET_SAMPLES {
          samples' := samples' + [sample];
        }
      }
    }
    assert entries[..|entries|] == entries;
  }

  /** A UDP table's loop: every row is counted, and the first rows are
      sampled up to the room left under the cap. */
  method GatherUdp(protocol: string, entries: seq<SocketEntry>, procs: ProcessMap, samples: seq<SocketSample>)
    returns (count: nat, samples': seq<SocketSample>)
    requires |samples| <= MAX_SOCKET_SAMPLES
    ensures count == |entries|
    ensures samples' == Seqs.Take(samples + AllSamples(protocol, entries, procs), MAX_SOCKET_SAMPLES)
  {
    count := |entries|;
    var room := MAX_SOCKET_SAMPLES - |samples|;
    var taken := if |entries| <= room then |entries| else room;
    samples' := samples;
    for i := 0 to taken
      invariant samples' == samples + AllSamples(protocol, entries[..i], procs)
    {
      AllSamplesStep(protocol, entries, procs, i);
      samples' := samples' + [SampleOf(protocol, entries[i], None, procs)];
    }
    AllSamplesPrefix(protocol, entries, procs, room, taken);
    Seqs.TakeAppend(samples, AllSamples(protocol, entries, procs), MAX_SOCKET_SAMPLES);
  }

  /** The samples of the first `k` rows are the first `k` samples. */
  lemma SamplesOfPrefix(protocol: string, entries: seq<SocketEntry>, procs: ProcessMap, k: nat)
    requires k <= |entries|
    ensures AllSamples(protocol, entries[..k], procs) == AllSamples(protocol, entries, procs)[..k]
  {
    var a, all := AllSamples(protocol, entries[..k], procs), AllSamples(protocol, entries, procs);
    assert forall j :: 0 <= j < k ==> a[j] == all[j];
  }

  /** One more UDP row read adds its sample. */
  lemma AllSamplesStep(protocol: string, entries: seq<SocketEntry>, procs: ProcessMap, i: nat)
    requires i < |entries|
    ensures AllSamples(protocol, entries[..i + 1], procs)
         == AllSamples(protocol, entries[..i], procs) + [SampleOf(protocol, entries[i], None, procs)]
  {
    var all := AllSamples(protocol, entries, procs);
    SamplesOfPrefix(protocol, entries, procs, i);
    SamplesOfPrefix(protocol, entries, procs, i + 1);
    assert all[..i + 1] == all[..i] + [all[i]];
  }

  /** Capping the samples at the room left keeps those of the first
      `taken` rows. */
  lemma AllSamplesPrefix(protocol: string, entries: seq<SocketEntry>, procs: ProcessMap, room: nat, taken: nat)
    requires taken == if |entries| <= room then |entries| else room
    ensures AllSamples(protocol, entries[..taken], procs) == Seqs.Take(AllSamples(protocol, entries, procs), room)
  {
    SamplesOfPrefix(protocol, entries, procs, taken);
  }

  /** Reading one TCP table: its loop when readable, a note when not. */
  method ReadTcpTable(protocol: string, path: string, table: Result<seq<SocketEntry>, string>, procs: ProcessMap,
                      samples: seq<SocketSample>, notes: seq<string>)
    returns (count: nat, samples': seq<SocketSample>, notes': seq<string>)
    requires |samples| <= MAX_SOCKET_SAMPLES
    ensures count == |TcpCandidates(protocol, table, map[])|
    ensures samples' == Seqs.Take(samples + TcpCandidates(protocol, table, procs), MAX_SOCKET_SAMPLES)
    ensures notes' == notes + NoteFor(path, table)
  {
    match table {
      case Ok(entries) =>
        count, samples' := GatherTcp(protocol, entries, procs, samples);
        notes' := notes;
      case Err(err) =>
        count, samples', notes' := 0, samples, notes + [Note(path, err)];
    }
  }

  /** Reading one UDP table: its loop when readable, a note when not. */
  method ReadUdpTable(protocol: string, path: string, table: Result<seq<SocketEntry>, string>, procs: ProcessMap,
                      samples: seq<SocketSample>, notes: seq<string>)
    returns (count: nat, samples': seq<SocketSample>, notes': seq<string>)
    requires |samples| <= MAX_SOCKET_SAMPLES
    ensures count == |UdpCandidates(protocol, table, map[])|
    ensures samples' == Seqs.Take(samples + UdpCandidates(protocol, table, procs), MAX_SOCKET_SAMPLES)
    ensures notes' == notes + NoteFor(path, table)
  {
    match table {
      case Ok(entries) =>
        count, samples' := GatherUdp(protocol, entries, procs, samples);
        notes' := notes;
      case Err(err) =>
        count, samples', notes' := 0, samples, notes + [Note(path, err)];
    }
  }

  /** The four table reads of `gather_listeners`, in order: tcp, tcp6,
      udp, udp6, all filling one capped sample buffer. */
  method ReadTables(tables: SocketTables, procs: ProcessMap) returns (counts: ListenerCounts, samples: seq<SocketSample>, notes: seq<string>)
    ensures counts == Counts(tables)
    ensures samples == Seqs.Take(Candidates(tables, procs), MAX_SOCKET_SAMPLES)
    ensures notes == Notes(tables)
  {
    var s1, s2, s3, s4;
    var tcp, tcp6, udp, udp6;
    notes := [];
    tcp, s1, notes := ReadTcpTable("tcp", "/proc/net/tcp", tables.tcp, procs, [], notes);
    tcp6, s2, notes := ReadTcpTable("tcp6", "/proc/net/tcp6", tables.tcp6, procs, s1, notes);
    udp, s3, notes := ReadUdpTable("udp", "/proc/net/udp", tables.udp, procs, s2, notes);
    udp6, s4, notes := ReadUdpTable("udp6", "/proc/net/udp6", tables.udp6, procs, s3, notes);
    ghost var c1 := TcpCandidates("tcp", tables.tcp, procs);
    assert [] + c1 == c1;
    Seqs.TakeRounds(c1, TcpCandidates("tcp6", tables.tcp6, procs), UdpCandidates("udp", tables.udp, procs),
                    UdpCandidates("udp6", tables.udp6, procs), s1, s2, s3, s4, MAX_SOCKET_SAMPLES);
    counts := ListenerCounts(tcp, tcp6, udp, udp6);
    samples := s4;
  }

  /** `gather_listeners`: the counters, the capped samples, the notes for
      unreadable tables, and the groups and insights of the samples. */
  method GatherListeners(tables: SocketTables, procs: ProcessMap) returns (snapshot: ListenerSnapshot, notes: seq<string>)
    ensures snapshot.counts == Counts(tables)
    ensures snapshot.samples == Seqs.Take(Candidates(tables, procs), MAX_SOCKET_SAMPLES)
    ensures snapshot.groups == ListenerGroups.BuildListenerGroups(snapshot.samples)
    ensures snapshot.insights == DeriveListenerInsights(snapshot.samples)
    ensures notes == Notes(tables)
    ensures |snapshot.samples| == if Total(snapshot.counts) <= MAX_SOCKET_SAMPLES then Total(snapshot.counts) else MAX_SOCKET_SAMPLES
  {
    var counts, samples;
    counts, samples, notes := ReadTables(tables, procs);
    SampleCount(tables, procs);
    snapshot := ListenerSnapshot(counts, samples, ListenerGroups.BuildListenerGroups(samples), DeriveListenerInsights(samples));
  }

  // ---------------------------------------------------------------------
  // Properties of gather_listeners

  /** Position of a table in the reading order. */
  function TableRank(protocol: string): nat {
    if protocol == "tcp" then 0 else if protocol == "tcp6" then 1 else if protocol == "udp" then 2 else 3
  }

  /** The candidates are exactly as many as the counters say, whatever the
      process map. */
  lemma CandidatesMatchCounts(tables: SocketTables, procs: ProcessMap)
    ensures |Candidates(tables, procs)| == Total(Counts(tables))
  {
  }

  /** The number of samples is the total count, capped at twenty; when the
      total fits, nothing is dropped. */
  lemma SampleCount(tables: SocketTables, procs: ProcessMap)
    ensures var samples := Seqs.Take(Candidates(tables, procs), MAX_SOCKET_SAMPLES);
            |samples| == (if Total(Counts(tables)) <= MAX_SOCKET_SAMPLES then Total(Counts(tables)) else MAX_SOCKET_SAMPLES)
            && (Total(Counts(tables)) <= MAX_SOCKET_SAMPLES ==> samples == Candidates(tables, procs))
  {
    CandidatesMatchCounts(tables, procs);
  }

  /** Samples come in table order (tcp, tcp6, udp, udp6); TCP samples are in
      the Listen state and UDP samples carry no state. */
  lemma {:induction false} CandidatesInTableOrder(tables: SocketTables, procs: ProcessMap)
    ensures var c := Candidates(tables, procs);
            forall i, j :: 0 <= i < j < |c| ==> TableRank(c[i].protocol) <= TableRank(c[j].protocol)
    ensures var c := Candidates(tables, procs);
            forall i :: 0 <= i < |c| ==> (c[i].state == Some(LISTEN_STATE) <==> c[i].protocol in ["tcp", "tcp6"])
    ensures var c := Candidates(tables, procs);
            forall i :: 0 <= i < |c| ==> (c[i].state == None <==> c[i].protocol in ["udp", "udp6"])
  {
    var c1 := TcpCandidates("tcp", tables.tcp, procs);
    var c2 := TcpCandidates("tcp6", tables.tcp6, procs);
    var c3 := UdpCandidates("udp", tables.udp, procs);
    var c4 := UdpCandidates("udp6", tables.udp6, procs);
    var c := Candidates(tables, procs);
    assert c == c1 + c2 + c3 + c4;
    forall i | 0 <= i < |c|
      ensures TableRank(c[i].protocol) == (if i < |c1| then 0 else if i < |c1| + |c2| then 1 else if i < |c1| + |c2| + |c3| then 2 else 3)
      ensures c[i].state == Some(LISTEN_STATE) <==> c[i].protocol in ["tcp", "tcp6"]
      ensures c[i].state == None <==> c[i].protocol in ["udp", "udp6"]
    {
      if i < |c1| {
        assert c[i] == c1[i];
      } else if i < |c1| + |c2| {
        assert c[i] == c2[i - |c1|];
      } else if i < |c1| + |c2| + |c3| {
        assert c[i] == c3[i - |c1| - |c2|];
      } else {
        assert c[i] == c4[i - |c1| - |c2| - |c3|];
      }
    }
  }

  /** The kept samples inherit the order and the states. */
  lemma SamplesInTableOrder(tables: SocketTables, procs: ProcessMap)
    ensures var s := Seqs.Take(Candidates(tables, procs), MAX_SOCKET_SAMPLES);
            forall i, j :: 0 <= i < j < |s| ==> TableRank(s[i].protocol) <= TableRank(s[j].protocol)
    ensures var s := Seqs.Take(Candidates(tables, procs), MAX_SOCKET_SAMPLES);
            forall i :: 0 <= i < |s| ==> (s[i].state == Some(LISTEN_STATE) <==> s[i].protocol in ["tcp", "tcp6"])
  {
    CandidatesInTableOrder(tables, procs);
    var c := Candidates(tables, procs);
    var s := Seqs.Take(c, MAX_SOCKET_SAMPLES);
    assert forall i :: 0 <= i < |s| ==> s[i] == c[i];
  }

  /** IPv6 tables never get a service name: the lookup key is the protocol
      text itself, and the table only knows "tcp" and "udp". */
  lemma Ipv6SamplesUnclassified(tables: SocketTables, procs: ProcessMap)
    ensures var c := Candidates(tables, procs);
            forall i :: 0 <= i < |c| && c[i].protocol in ["tcp6", "udp6"] ==> c[i].service == None
  {
    var c := Candidates(tables, procs);
    forall i | 0 <= i < |c| && c[i].protocol in ["tcp6", "udp6"]
      ensures c[i].service == None
    {
      CandidatesInTableOrder(tables, procs);
      ClassifyServiceProtocol(c[i].protocol, c[i].localAddress);
    }
  }

  /** An unreadable table counts nothing and samples nothing, exactly as an
      empty one would, and the other tables are read as usual. */
  lemma UnreadableTcpTable(tables: SocketTables, procs: ProcessMap)
    requires tables.tcp.Err?
    ensures Counts(tables) == Counts(tables.(tcp := Ok([])))
    ensures Candidates(tables, procs) == Candidates(tables.(tcp := Ok([])), procs)
    ensures |Notes(tables)| == |Notes(tables.(tcp := Ok([])))| + 1
  {
  }
}
