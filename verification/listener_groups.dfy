/** Aggregation of sampled listeners into per-process groups and then
    per-container groups (`build_listener_groups` and the two builders in
    modules/mod-network/src/lib.rs).

    The source keys both levels by `HashMap`, whose iteration order is
    unspecified; the model visits keys in order of first appearance. Every
    ordering fact is stated as "sorted non-increasing by socket count" plus
    content, which holds whatever the hash order. */
module ListenerGroups {
  import opened Wrappers
  import opened Text
  import Seqs
  import opened Network

  // ---------------------------------------------------------------------
  // Occurrences: one per (sample, listed process)

  datatype Occurrence = Occurrence(process: ProcessInfo, protocol: string, localAddress: string)

  function SampleOccurrences(sample: SocketSample): seq<Occurrence> {
    seq(|sample.processes|, i requires 0 <= i < |sample.processes| =>
      Occurrence(sample.processes[i], sample.protocol, sample.localAddress))
  }

  /** The nested loop over samples and their processes, flattened. */
  function Occurrences(samples: seq<SocketSample>): seq<Occurrence> {
    Seqs.FlatMap(SampleOccurrences, samples)
  }

  function Pid(o: Occurrence): int {
    o.process.pid
  }

  /** Number of occurrences of `pid`. */
  function PidCount(occ: seq<Occurrence>, pid: int): nat
    decreases |occ|
  {
    if |occ| == 0 then 0
    else PidCount(occ[..|occ| - 1], pid) + (if Pid(occ[|occ| - 1]) == pid then 1 else 0)
  }

  // ---------------------------------------------------------------------
  // Sorted string sets (a `HashSet<String>` collected and sorted)

  ghost predicate StrictlySorted(s: seq<string>) {
    forall i, j :: 0 <= i < j < |s| ==> Less(s[i], s[j])
  }

  /** Adds `x` to a strictly sorted list, keeping it strictly sorted. */
  function InsertSorted(s: seq<string>, x: string): (r: seq<string>)
    requires StrictlySorted(s)
    ensures StrictlySorted(r)
    ensures forall y :: y in r <==> y in s || y == x
    decreases |s|
  {
    if |s| == 0 then [x]
    else if x == s[0] then s
    else if Less(x, s[0]) then
      assert forall j :: 0 <= j < |s| ==> Less(x, s[j]) by {
        forall j | 0 <= j < |s| ensures Less(x, s[j]) {
          if j > 0 {
            LessTransitive(x, s[0], s[j]);
          }
        }
      }
      [x] + s
    else
      LessTotal(x, s[0]);
      var tail := InsertSorted(s[1..], x);
      assert forall y :: y in s[1..] ==> Less(s[0], y);
      [s[0]] + tail
  }

  // ---------------------------------------------------------------------
  // Process level

  /** A process group under construction: the first entry seen for the
      pid, the sockets counted so far, and the protocol and address sets. */
  datatype PidGroup = PidGroup(first: ProcessInfo, socketCount: nat, protocols: seq<string>, localAddresses: seq<string>)

  ghost predicate SetsSorted(g: PidGroup) {
    StrictlySorted(g.protocols) && StrictlySorted(g.localAddresses)
  }

  function GroupPid(g: PidGroup): int {
    g.first.pid
  }

  function FindPid(groups: seq<PidGroup>, pid: int): (r: Option<nat>)
    ensures r.Some? ==> r.value < |groups| && GroupPid(groups[r.value]) == pid
    ensures r.None? ==> forall i :: 0 <= i < |groups| ==> GroupPid(groups[i]) != pid
    decreases |groups|
  {
    if |groups| == 0 then None
    else if GroupPid(groups[|groups| - 1]) == pid then Some(|groups| - 1)
    else FindPid(groups[..|groups| - 1], pid)
  }

  /** One step of the process loop: the pid's entry is created on first
      sight, then its socket count is incremented and the protocol and
      address are added to its sets. */
  function AddOccurrence(groups: seq<PidGroup>, o: Occurrence): (r: seq<PidGroup>)
    requires forall i :: 0 <= i < |groups| ==> SetsSorted(groups[i])
    ensures forall i :: 0 <= i < |r| ==> SetsSorted(r[i])
  {
    match FindPid(groups, Pid(o))
    case Some(i) =>
      var g := groups[i];
      assert SetsSorted(g);
      groups[i := g.(socketCount := g.socketCount + 1,
                     protocols := InsertSorted(g.protocols, o.protocol),
                     localAddresses := InsertSorted(g.localAddresses, o.localAddress))]
    case None =>
      groups + [PidGroup(o.process, 1, [o.protocol], [o.localAddress])]
  }

  /** The process-level map after visiting `occ`, keys in first-appearance order. */
  function PidGroups(occ: seq<Occurrence>): (r: seq<PidGroup>)
    ensures forall i :: 0 <= i < |r| ==> SetsSorted(r[i])
    decreases |occ|
  {
    if |occ| == 0 then [] else AddOccurrence(PidGroups(occ[..|occ| - 1]), occ[|occ| - 1])
  }

  ghost predicate DistinctPids(groups: seq<PidGroup>) {
    forall i, j :: 0 <= i < j < |groups| ==> GroupPid(groups[i]) != GroupPid(groups[j])
  }

  ghost function GroupPids(groups: seq<PidGroup>): set<int> {
    set i | 0 <= i < |groups| :: GroupPid(groups[i])
  }

  ghost function OccurringPids(occ: seq<Occurrence>): set<int> {
    set k | 0 <= k < |occ| :: Pid(occ[k])
  }

  lemma OccurringPidsSnoc(occ: seq<Occurrence>)
    requires |occ| > 0
    ensures OccurringPids(occ) == OccurringPids(occ[..|occ| - 1]) + {Pid(occ[|occ| - 1])}
  {
    var init := occ[..|occ| - 1];
    forall p | p in OccurringPids(occ) ensures p in OccurringPids(init) + {Pid(occ[|occ| - 1])} {
      var k :| 0 <= k < |occ| && Pid(occ[k]) == p;
      if k < |init| {
        assert Pid(init[k]) == p;
      }
    }
    forall p | p in OccurringPids(init) ensures p in OccurringPids(occ) {
      var k :| 0 <= k < |init| && Pid(init[k]) == p;
      assert Pid(occ[k]) == p;
    }
  }

  /** One group per distinct pid: the groups' pids are distinct and are
      exactly the pids that occur. */
  lemma {:induction false} PidGroupsKeys(occ: seq<Occurrence>)
    ensures DistinctPids(PidGroups(occ))
    ensures GroupPids(PidGroups(occ)) == OccurringPids(occ)
    decreases |occ|
  {
    if |occ| > 0 {
      var init, o := occ[..|occ| - 1], occ[|occ| - 1];
      PidGroupsKeys(init);
      OccurringPidsSnoc(occ);
      var g := PidGroups(init);
      var r := PidGroups(occ);
      match FindPid(g, Pid(o))
      case Some(i) =>
        assert |r| == |g| && forall j :: 0 <= j < |r| ==> GroupPid(r[j]) == GroupPid(g[j]);
        assert GroupPids(r) == GroupPids(g);
      case None =>
        var n := PidGroup(o.process, 1, [o.protocol], [o.localAddress]);
        assert r == g + [n];
        GroupPidsSnoc(g, n);
    }
  }

  lemma GroupPidsSnoc(g: seq<PidGroup>, n: PidGroup)
    ensures GroupPids(g + [n]) == GroupPids(g) + {GroupPid(n)}
  {
    var r := g + [n];
    forall p | p in GroupPids(r) ensures p in GroupPids(g) + {GroupPid(n)} {
      var j :| 0 <= j < |r| && GroupPid(r[j]) == p;
      if j < |g| {
        assert GroupPid(g[j]) == p;
      }
    }
    assert GroupPid(r[|g|]) == GroupPid(n);
    forall p | p in GroupPids(g) ensures p in GroupPids(r) {
      var j :| 0 <= j < |g| && GroupPid(g[j]) == p;
      assert GroupPid(r[j]) == p;
    }
  }

  /** A pid that never occurs is counted zero times. */
  lemma {:induction false} PidCountZero(occ: seq<Occurrence>, pid: int)
    requires pid !in OccurringPids(occ)
    ensures PidCount(occ, pid) == 0
    decreases |occ|
  {
    if |occ| > 0 {
      OccurringPidsSnoc(occ);
      PidCountZero(occ[..|occ| - 1], pid);
    }
  }

  /** A process group's socket count is the number of sockets listing its pid. */
  lemma {:induction false} PidGroupsCount(occ: seq<Occurrence>)
    ensures forall i :: 0 <= i < |PidGroups(occ)| ==>
              PidGroups(occ)[i].socketCount == PidCount(occ, GroupPid(PidGroups(occ)[i]))
    decreases |occ|
  {
    if |occ| > 0 {
      var init, o := occ[..|occ| - 1], occ[|occ| - 1];
      PidGroupsCount(init);
      PidGroupsKeys(init);
      var g := PidGroups(init);
      match FindPid(g, Pid(o))
      case Some(i) =>
      case None =>
        assert Pid(o) !in GroupPids(g);
        PidCountZero(init, Pid(o));
    }
  }

  function GroupSockets(g: PidGroup): nat {
    g.socketCount
  }

  /** Replacing one element changes a sum by the difference. */
  lemma {:induction false} SumByUpdate<T>(key: T -> nat, s: seq<T>, i: nat, x: T)
    requires i < |s|
    ensures Seqs.SumBy(key, s[i := x]) + key(s[i]) == Seqs.SumBy(key, s) + key(x)
    decreases |s|
  {
    var n := |s| - 1;
    if i < n {
      assert s[i := x][..n] == s[..n][i := x];
      SumByUpdate(key, s[..n], i, x);
    } else {
      assert s[i := x][..n] == s[..n];
    }
  }

  /** Every listed process is counted once: the process groups' socket
      counts add up to the number of occurrences. */
  lemma {:induction false} PidGroupsTotal(occ: seq<Occurrence>)
    ensures Seqs.SumBy(GroupSockets, PidGroups(occ)) == |occ|
    decreases |occ|
  {
    if |occ| > 0 {
      var init, o := occ[..|occ| - 1], occ[|occ| - 1];
      PidGroupsTotal(init);
      var g := PidGroups(init);
      match FindPid(g, Pid(o))
      case Some(i) =>
        SumByUpdate(GroupSockets, g, i, AddOccurrence(g, o)[i]);
        assert AddOccurrence(g, o) == g[i := AddOccurrence(g, o)[i]];
      case None =>
        assert (g + [PidGroup(o.process, 1, [o.protocol], [o.localAddress])])[..|g|] == g;
    }
  }

  ghost function Elems(s: seq<string>): set<string> {
    set x | x in s
  }

  ghost function ProtocolsSeen(occ: seq<Occurrence>, pid: int): set<string> {
    set k | 0 <= k < |occ| && Pid(occ[k]) == pid :: occ[k].protocol
  }

  ghost function AddressesSeen(occ: seq<Occurrence>, pid: int): set<string> {
    set k | 0 <= k < |occ| && Pid(occ[k]) == pid :: occ[k].localAddress
  }

  lemma SeenSnoc(occ: seq<Occurrence>, pid: int)
    requires |occ| > 0
    ensures var init, o := occ[..|occ| - 1], occ[|occ| - 1];
            && ProtocolsSeen(occ, pid) == ProtocolsSeen(init, pid) + (if Pid(o) == pid then {o.protocol} else {})
            && AddressesSeen(occ, pid) == AddressesSeen(init, pid) + (if Pid(o) == pid then {o.localAddress} else {})
  {
    var init := occ[..|occ| - 1];
    assert forall k :: 0 <= k < |init| ==> occ[k] == init[k];
  }

  lemma SeenNone(occ: seq<Occurrence>, pid: int)
    requires pid !in OccurringPids(occ)
    ensures ProtocolsSeen(occ, pid) == {} && AddressesSeen(occ, pid) == {}
  {
    forall k | 0 <= k < |occ| ensures Pid(occ[k]) != pid {
      assert Pid(occ[k]) in OccurringPids(occ);
    }
  }

  /** A group's protocol and address sets are exactly the protocols and
      addresses its pid was seen with. */
  lemma {:induction false} PidGroupsSets(occ: seq<Occurrence>)
    ensures forall i :: 0 <= i < |PidGroups(occ)| ==>
              Elems(PidGroups(occ)[i].protocols) == ProtocolsSeen(occ, GroupPid(PidGroups(occ)[i]))
              && Elems(PidGroups(occ)[i].localAddresses) == AddressesSeen(occ, GroupPid(PidGroups(occ)[i]))
    decreases |occ|
  {
    if |occ| > 0 {
      var init, o := occ[..|occ| - 1], occ[|occ| - 1];
      PidGroupsSets(init);
      PidGroupsKeys(init);
      var g := PidGroups(init);
      var r := PidGroups(occ);
      forall i | 0 <= i < |r|
        ensures Elems(r[i].protocols) == ProtocolsSeen(occ, GroupPid(r[i]))
        ensures Elems(r[i].localAddresses) == AddressesSeen(occ, GroupPid(r[i]))
      {
        SeenSnoc(occ, GroupPid(r[i]));
        match FindPid(g, Pid(o))
        case Some(j) =>
        case None =>
          if i == |g| {
            assert Pid(o) !in GroupPids(g);
            SeenNone(init, Pid(o));
          }
      }
    }
  }

  /** The process the source keeps for a pid: the first one listed. */
  function FirstProcess(occ: seq<Occurrence>, pid: int): Option<ProcessInfo> {
    Seqs.FirstSome((o: Occurrence) => if Pid(o) == pid then Some(o.process) else None, occ)
  }

  /** A group's command, uid and container come from the first entry seen for its pid. */
  lemma {:induction false} PidGroupsFirst(occ: seq<Occurrence>)
    ensures forall i :: 0 <= i < |PidGroups(occ)| ==>
              FirstProcess(occ, GroupPid(PidGroups(occ)[i])) == Some(PidGroups(occ)[i].first)
    decreases |occ|
  {
    if |occ| > 0 {
      var init, o := occ[..|occ| - 1], occ[|occ| - 1];
      PidGroupsFirst(init);
      PidGroupsKeys(init);
      var g := PidGroups(init);
      var r := PidGroups(occ);
      forall i | 0 <= i < |r|
        ensures FirstProcess(occ, GroupPid(r[i])) == Some(r[i].first)
      {
        match FindPid(g, Pid(o))
        case Some(j) =>
        case None =>
          if i == |g| {
            assert Pid(o) !in GroupPids(g);
            SeenNone(init, Pid(o));
            assert FirstProcess(init, Pid(o)) == None by {
              forall k | 0 <= k < |init| ensures Pid(init[k]) != Pid(o) {
                assert Pid(init[k]) in OccurringPids(init);
              }
            }
          }
      }
    }
  }

  // ---------------------------------------------------------------------
  // Container level

  /** A finished process group, as reported. */
  datatype ListenerProcessGroup = ListenerProcessGroup(
    pid: int,
    command: string,
    uid: nat,
    socketCount: nat,
    protocols: seq<string>,
    localAddresses: seq<string>)

  /** A container group: the processes attributed to one container (or to
      the host, `None`) with their summed socket count. */
  datatype ListenerContainerGroup = ListenerContainerGroup(
    container: Option<string>,
    socketCount: nat,
    processCount: nat,
    processes: seq<ListenerProcessGroup>)

  /** `ListenerProcessGroupBuilder::finish` (the sets are kept sorted all along). */
  function FinishProcess(g: PidGroup): ListenerProcessGroup {
    ListenerProcessGroup(g.first.pid, g.first.command, g.first.uid, g.socketCount, g.protocols, g.localAddresses)
  }

  function ContainerOf(g: PidGroup): Option<string> {
    g.first.container
  }

  function ProcessSockets(p: ListenerProcessGroup): nat {
    p.socketCount
  }

  function ProcessPid(p: ListenerProcessGroup): int {
    p.pid
  }

  function ContainerSockets(c: ListenerContainerGroup): nat {
    c.socketCount
  }

  function ContainerKey(c: ListenerContainerGroup): Option<string> {
    c.container
  }

  function FindContainer(groups: seq<ListenerContainerGroup>, container: Option<string>): (r: Option<nat>)
    ensures r.Some? ==> r.value < |groups| && groups[r.value].container == container
    ensures r.None? ==> forall i :: 0 <= i < |groups| ==> groups[i].container != container
    decreases |groups|
  {
    if |groups| == 0 then None
    else if groups[|groups| - 1].container == container then Some(|groups| - 1)
    else FindContainer(groups[..|groups| - 1], container)
  }

  /** One step of the container loop: the container's entry is created on
      first sight, then the process's sockets are added, the process count
      incremented and the process appended. */
  function AddProcess(groups: seq<ListenerContainerGroup>, g: PidGroup): seq<ListenerContainerGroup> {
    match FindContainer(groups, ContainerOf(g))
    case Some(i) =>
      var c := groups[i];
      groups[i := c.(socketCount := c.socketCount + g.socketCount,
                     processCount := c.processCount + 1,
                     processes := c.processes + [FinishProcess(g)])]
    case None =>
      groups + [ListenerContainerGroup(ContainerOf(g), g.socketCount, 1, [FinishProcess(g)])]
  }

  /** The container-level map after visiting the process groups. */
  function ContainerGroups(pgs: seq<PidGroup>): seq<ListenerContainerGroup>
    decreases |pgs|
  {
    if |pgs| == 0 then [] else AddProcess(ContainerGroups(pgs[..|pgs| - 1]), pgs[|pgs| - 1])
  }

  /** A container group's counters agree with its process list. */
  ghost predicate Consistent(c: ListenerContainerGroup) {
    c.socketCount == Seqs.SumBy(ProcessSockets, c.processes) && c.processCount == |c.processes|
  }

  lemma {:induction false} ContainerGroupsConsistent(pgs: seq<PidGroup>)
    ensures forall i :: 0 <= i < |ContainerGroups(pgs)| ==> Consistent(ContainerGroups(pgs)[i])
    decreases |pgs|
  {
    if |pgs| > 0 {
      var init, g := pgs[..|pgs| - 1], pgs[|pgs| - 1];
      ContainerGroupsConsistent(init);
      var cs := ContainerGroups(init);
      match FindContainer(cs, ContainerOf(g))
      case Some(i) =>
        Seqs.SumByAppend(ProcessSockets, cs[i].processes, [FinishProcess(g)]);
        assert [FinishProcess(g)][..0] == [];
      case None =>
        var n := ListenerContainerGroup(ContainerOf(g), g.socketCount, 1, [FinishProcess(g)]);
        assert [FinishProcess(g)][..0] == [];
        assert Seqs.SumBy(ProcessSockets, [FinishProcess(g)]) == g.socketCount;
        assert Consistent(n);
        assert ContainerGroups(pgs) == cs + [n];
    }
  }

  /** No container appears twice, and every process's container appears. */
  lemma {:induction false} ContainerGroupsKeys(pgs: seq<PidGroup>)
    ensures Seqs.DistinctBy(ContainerKey, ContainerGroups(pgs))
    ensures forall j :: 0 <= j < |pgs| ==> FindContainer(ContainerGroups(pgs), ContainerOf(pgs[j])).Some?
    decreases |pgs|
  {
    if |pgs| > 0 {
      var init, g := pgs[..|pgs| - 1], pgs[|pgs| - 1];
      ContainerGroupsKeys(init);
      var cs := ContainerGroups(init);
      var r := ContainerGroups(pgs);
      assert forall j :: 0 <= j < |init| ==> pgs[j] == init[j];
      match FindContainer(cs, ContainerOf(g))
      case Some(i) =>
        assert forall j :: 0 <= j < |r| ==> r[j].container == cs[j].container;
        forall j | 0 <= j < |pgs| ensures FindContainer(r, ContainerOf(pgs[j])).Some? {
          if j < |init| {
            var k := FindContainer(cs, ContainerOf(pgs[j])).value;
            assert r[k].container == ContainerOf(pgs[j]);
          } else {
            assert r[i].container == ContainerOf(pgs[j]);
          }
        }
      case None =>
        forall j | 0 <= j < |pgs| ensures FindContainer(r, ContainerOf(pgs[j])).Some? {
          if j < |init| {
            var k := FindContainer(cs, ContainerOf(pgs[j])).value;
            assert r[k].container == ContainerOf(pgs[j]);
          } else {
            assert r[|cs|].container == ContainerOf(pgs[j]);
          }
        }
    }
  }

  function PgSockets(g: PidGroup): nat {
    g.socketCount
  }

  /** Regrouping by container neither loses nor invents sockets. */
  lemma {:induction false} ContainerGroupsTotal(pgs: seq<PidGroup>)
    ensures Seqs.SumBy(ContainerSockets, ContainerGroups(pgs)) == Seqs.SumBy(GroupSockets, pgs)
    decreases |pgs|
  {
    if |pgs| > 0 {
      var init, g := pgs[..|pgs| - 1], pgs[|pgs| - 1];
      ContainerGroupsTotal(init);
      var cs := ContainerGroups(init);
      match FindContainer(cs, ContainerOf(g))
      case Some(i) =>
        SumByUpdate(ContainerSockets, cs, i, AddProcess(cs, g)[i]);
        assert AddProcess(cs, g) == cs[i := AddProcess(cs, g)[i]];
      case None =>
        var n := ListenerContainerGroup(ContainerOf(g), g.socketCount, 1, [FinishProcess(g)]);
        assert (cs + [n])[..|cs|] == cs;
    }
  }

  /** A container group holds exactly the finished process groups whose
      first entry names that container. */
  lemma {:induction false} ContainerGroupsMembers(pgs: seq<PidGroup>)
    ensures forall i, q :: 0 <= i < |ContainerGroups(pgs)| ==>
              (q in ContainerGroups(pgs)[i].processes <==>
                 exists j :: 0 <= j < |pgs| && FinishProcess(pgs[j]) == q && ContainerOf(pgs[j]) == ContainerGroups(pgs)[i].container)
    decreases |pgs|
  {
    if |pgs| > 0 {
      var init, g := pgs[..|pgs| - 1], pgs[|pgs| - 1];
      ContainerGroupsMembers(init);
      ContainerGroupsKeys(init);
      var cs := ContainerGroups(init);
      var r := ContainerGroups(pgs);
      assert forall j :: 0 <= j < |init| ==> pgs[j] == init[j];
      match FindContainer(cs, ContainerOf(g))
      case Some(i) =>
      case None =>
        assert forall j :: 0 <= j < |init| ==> ContainerOf(init[j]) != ContainerOf(g);
    }
  }

  /** The process list of one container group, in the order pids were
      first seen, has distinct pids when the process groups do. */
  lemma {:induction false} ContainerGroupsPidsDistinct(pgs: seq<PidGroup>)
    requires DistinctPids(pgs)
    ensures forall i :: 0 <= i < |ContainerGroups(pgs)| ==> Seqs.DistinctBy(ProcessPid, ContainerGroups(pgs)[i].processes)
    decreases |pgs|
  {
    if |pgs| > 0 {
      var init, g := pgs[..|pgs| - 1], pgs[|pgs| - 1];
      ContainerGroupsPidsDistinct(init);
      ContainerGroupsMembers(init);
      var cs := ContainerGroups(init);
      match FindContainer(cs, ContainerOf(g))
      case Some(i) =>
        var ps := cs[i].processes;
        forall y | y in ps ensures ProcessPid(y) != GroupPid(g) {
          var j :| 0 <= j < |init| && FinishProcess(init[j]) == y && ContainerOf(init[j]) == cs[i].container;
          assert init[j] == pgs[j];
        }
        assert ps + [FinishProcess(g)] == ps + [FinishProcess(g)] + [];
        Seqs.DistinctSplice(ProcessPid, ps, FinishProcess(g), []);
        assert ps + [] == ps;
      case None =>
    }
  }

  // ---------------------------------------------------------------------
  // build_listener_groups

  /** `ListenerContainerGroupBuilder::finish`: processes by socket count, largest first. */
  function FinishContainer(c: ListenerContainerGroup): (r: ListenerContainerGroup)
    ensures r.container == c.container && r.socketCount == c.socketCount && r.processCount == c.processCount
    ensures Seqs.SortedDesc(ProcessSockets, r.processes)
  {
    c.(processes := Seqs.SortDesc(ProcessSockets, c.processes))
  }

  function FinishAll(cs: seq<ListenerContainerGroup>): (r: seq<ListenerContainerGroup>)
    ensures |r| == |cs| && forall i :: 0 <= i < |cs| ==> r[i] == FinishContainer(cs[i])
  {
    seq(|cs|, i requires 0 <= i < |cs| => FinishContainer(cs[i]))
  }

  /** `build_listener_groups`: container groups by socket count, largest
      first, each listing its processes by socket count, largest first. */
  function BuildListenerGroups(samples: seq<SocketSample>): (groups: seq<ListenerContainerGroup>)
    ensures Seqs.SortedDesc(ContainerSockets, groups)
    ensures forall i :: 0 <= i < |groups| ==> Seqs.SortedDesc(ProcessSockets, groups[i].processes)
  {
    var finished := FinishAll(ContainerGroups(PidGroups(Occurrences(samples))));
    var groups := Seqs.SortDesc(ContainerSockets, finished);
    Seqs.SortDescContents(ContainerSockets, finished);
    assert forall i :: 0 <= i < |groups| ==> Seqs.SortedDesc(ProcessSockets, groups[i].processes) by {
      forall i | 0 <= i < |groups| ensures Seqs.SortedDesc(ProcessSockets, groups[i].processes) {
        assert groups[i] in multiset(finished);
        var k :| 0 <= k < |finished| && finished[k] == groups[i];
      }
    }
    groups
  }

  // ---------------------------------------------------------------------
  // Properties of build_listener_groups

  /** The stages of `BuildListenerGroups`, named for the proofs. */
  function ProcessStage(samples: seq<SocketSample>): seq<PidGroup> {
    PidGroups(Occurrences(samples))
  }

  function ContainerStage(samples: seq<SocketSample>): seq<ListenerContainerGroup> {
    ContainerGroups(ProcessStage(samples))
  }

  function FinishedStage(samples: seq<SocketSample>): seq<ListenerContainerGroup> {
    FinishAll(ContainerStage(samples))
  }

  /** Each reported group is one of the finished container groups. */
  lemma ReportedGroupOrigin(samples: seq<SocketSample>, i: nat) returns (a: nat)
    requires i < |BuildListenerGroups(samples)|
    ensures a < |ContainerStage(samples)| && BuildListenerGroups(samples)[i] == FinishContainer(ContainerStage(samples)[a])
  {
    var finished := FinishedStage(samples);
    Seqs.SortDescContents(ContainerSockets, finished);
    assert BuildListenerGroups(samples)[i] in multiset(finished);
    a :| 0 <= a < |finished| && finished[a] == BuildListenerGroups(samples)[i];
  }

  /** Each reported process is a finished process group whose first entry
      names the group's container. */
  lemma ReportedProcessOrigin(samples: seq<SocketSample>, i: nat, q: ListenerProcessGroup) returns (j: nat)
    requires i < |BuildListenerGroups(samples)| && q in BuildListenerGroups(samples)[i].processes
    ensures j < |ProcessStage(samples)| && q == FinishProcess(ProcessStage(samples)[j])
    ensures ContainerOf(ProcessStage(samples)[j]) == BuildListenerGroups(samples)[i].container
  {
    var a := ReportedGroupOrigin(samples, i);
    var c := ContainerStage(samples)[a];
    var g := BuildListenerGroups(samples)[i];
    assert g.processes == Seqs.SortDesc(ProcessSockets, c.processes) && g.container == c.container;
    Seqs.SortDescContents(ProcessSockets, c.processes);
    assert q in multiset(c.processes);
    j := ContainerMemberOrigin(ProcessStage(samples), a, q);
  }

  lemma ContainerMemberOrigin(pgs: seq<PidGroup>, a: nat, q: ListenerProcessGroup) returns (j: nat)
    requires a < |ContainerGroups(pgs)| && q in ContainerGroups(pgs)[a].processes
    ensures j < |pgs| && q == FinishProcess(pgs[j]) && ContainerOf(pgs[j]) == ContainerGroups(pgs)[a].container
  {
    ContainerGroupsMembers(pgs);
    j :| 0 <= j < |pgs| && FinishProcess(pgs[j]) == q && ContainerOf(pgs[j]) == ContainerGroups(pgs)[a].container;
  }

  /** Socket conservation: the groups' socket counts add up to the number
      of (socket, process) listings in the samples. */
  lemma ListenerGroupsConserveSockets(samples: seq<SocketSample>)
    ensures Seqs.SumBy(ContainerSockets, BuildListenerGroups(samples)) == |Occurrences(samples)|
  {
    var cs := ContainerStage(samples);
    var finished := FinishedStage(samples);
    Seqs.SortDescContents(ContainerSockets, finished);
    Seqs.SumByPointwise(ContainerSockets, ContainerSockets, finished, cs);
    ContainerGroupsTotal(ProcessStage(samples));
    PidGroupsTotal(Occurrences(samples));
  }

  /** Every reported group's socket count is the sum over its processes,
      and its process count is the number of processes. */
  lemma ListenerGroupsConsistent(samples: seq<SocketSample>)
    ensures forall i :: 0 <= i < |BuildListenerGroups(samples)| ==> Consistent(BuildListenerGroups(samples)[i])
  {
    forall i | 0 <= i < |BuildListenerGroups(samples)| ensures Consistent(BuildListenerGroups(samples)[i]) {
      var a := ReportedGroupOrigin(samples, i);
      var c := ContainerStage(samples)[a];
      ContainerGroupsConsistent(ProcessStage(samples));
      Seqs.SortDescContents(ProcessSockets, c.processes);
    }
  }

  predicate HasPid(g: ListenerContainerGroup, pid: int) {
    exists k :: 0 <= k < |g.processes| && g.processes[k].pid == pid
  }

  /** A pid that listens has its process group in some container of the
      container stage. */
  lemma PidInContainerStage(samples: seq<SocketSample>, pid: int) returns (a: nat, q: ListenerProcessGroup)
    requires pid in OccurringPids(Occurrences(samples))
    ensures a < |ContainerStage(samples)| && q in ContainerStage(samples)[a].processes && q.pid == pid
  {
    var pgs, cs := ProcessStage(samples), ContainerStage(samples);
    PidGroupsKeys(Occurrences(samples));
    assert pid in GroupPids(pgs);
    var j :| 0 <= j < |pgs| && GroupPid(pgs[j]) == pid;
    ContainerGroupsKeys(pgs);
    a := FindContainer(cs, ContainerOf(pgs[j])).value;
    ContainerGroupsMembers(pgs);
    q := FinishProcess(pgs[j]);
  }

  /** Every pid that listens appears in some container group. */
  lemma PidInSomeGroup(samples: seq<SocketSample>, pid: int)
    requires pid in OccurringPids(Occurrences(samples))
    ensures exists i :: 0 <= i < |BuildListenerGroups(samples)| && HasPid(BuildListenerGroups(samples)[i], pid)
  {
    var groups := BuildListenerGroups(samples);
    var cs, finished := ContainerStage(samples), FinishedStage(samples);
    var a, q := PidInContainerStage(samples, pid);
    Seqs.SortDescContents(ProcessSockets, cs[a].processes);
    assert q in multiset(finished[a].processes);
    var k :| 0 <= k < |finished[a].processes| && finished[a].processes[k] == q;
    Seqs.SortDescContents(ContainerSockets, finished);
    assert finished[a] in multiset(groups);
    var i :| 0 <= i < |groups| && groups[i] == finished[a];
    assert groups[i].processes[k].pid == pid;
  }

  /** A group listing `pid` is the group of the container named by the
      pid's first entry. */
  lemma GroupOfPid(samples: seq<SocketSample>, pid: int, i: nat)
    requires i < |BuildListenerGroups(samples)| && HasPid(BuildListenerGroups(samples)[i], pid)
    ensures FirstProcess(Occurrences(samples), pid).Some?
    ensures BuildListenerGroups(samples)[i].container == FirstProcess(Occurrences(samples), pid).value.container
  {
    var g := BuildListenerGroups(samples)[i];
    var k :| 0 <= k < |g.processes| && g.processes[k].pid == pid;
    var j := ReportedProcessOrigin(samples, i, g.processes[k]);
    PidGroupsFirst(Occurrences(samples));
  }

  /** No two container groups list the same pid. */
  lemma PidInAtMostOneGroup(samples: seq<SocketSample>, pid: int, i: nat, i': nat)
    requires i < |BuildListenerGroups(samples)| && i' < |BuildListenerGroups(samples)|
    requires HasPid(BuildListenerGroups(samples)[i], pid) && HasPid(BuildListenerGroups(samples)[i'], pid)
    ensures i == i'
  {
    GroupOfPid(samples, pid, i);
    GroupOfPid(samples, pid, i');
    var finished := FinishedStage(samples);
    ContainerGroupsKeys(ProcessStage(samples));
    assert Seqs.DistinctBy(ContainerKey, finished);
    Seqs.SortDescDistinct(ContainerSockets, ContainerKey, finished);
  }

  /** What a reported process group says about its pid: the sockets
      counted, the command, uid and container of its first entry, and the
      sorted, duplicate-free protocols and addresses it was seen with. */
  lemma ReportedProcessFacts(samples: seq<SocketSample>, i: nat, q: ListenerProcessGroup)
    requires i < |BuildListenerGroups(samples)| && q in BuildListenerGroups(samples)[i].processes
    ensures q.socketCount == PidCount(Occurrences(samples), q.pid)
    ensures var first := FirstProcess(Occurrences(samples), q.pid);
            first.Some? && first.value.command == q.command && first.value.uid == q.uid
            && first.value.container == BuildListenerGroups(samples)[i].container
    ensures StrictlySorted(q.protocols) && Elems(q.protocols) == ProtocolsSeen(Occurrences(samples), q.pid)
    ensures StrictlySorted(q.localAddresses) && Elems(q.localAddresses) == AddressesSeen(Occurrences(samples), q.pid)
  {
    var j := ReportedProcessOrigin(samples, i, q);
    var occ := Occurrences(samples);
    PidGroupsCount(occ);
    PidGroupsFirst(occ);
    PidGroupsSets(occ);
    assert SetsSorted(ProcessStage(samples)[j]);
  }

  /** Within a group, no pid is listed twice. */
  lemma ReportedPidsDistinct(samples: seq<SocketSample>, i: nat)
    requires i < |BuildListenerGroups(samples)|
    ensures Seqs.DistinctBy(ProcessPid, BuildListenerGroups(samples)[i].processes)
  {
    var a := ReportedGroupOrigin(samples, i);
    PidGroupsKeys(Occurrences(samples));
    ContainerGroupsPidsDistinct(ProcessStage(samples));
    Seqs.SortDescDistinct(ProcessSockets, ProcessPid, ContainerStage(samples)[a].processes);
  }

  /** The socket samples of the grouping example: nginx (pid 100, in
      container_a) listening on two loopback ports and sshd (pid 1, on the
      host) on one. */
  function ExampleNginx(): ProcessInfo { ProcessInfo(100, "nginx", 0, Some("container_a")) }
  function ExampleSshd(): ProcessInfo { ProcessInfo(1, "sshd", 0, None) }
  function ExampleSamples(): seq<SocketSample> {
    [SocketSample("tcp", "127.0.0.1:80", Some("Listen"), [ExampleNginx()], Some("http")),
     SocketSample("tcp", "127.0.0.1:443", Some("Listen"), [ExampleNginx()], Some("https")),
     SocketSample("tcp", "0.0.0.0:22", Some("Listen"), [ExampleSshd()], Some("ssh"))]
  }

  lemma ExampleOccurrences()
    ensures Occurrences(ExampleSamples()) ==
      [Occurrence(ExampleNginx(), "tcp", "127.0.0.1:80"),
       Occurrence(ExampleNginx(), "tcp", "127.0.0.1:443"),
       Occurrence(ExampleSshd(), "tcp", "0.0.0.0:22")]
  {
    var s := ExampleSamples();
    var o1, o2, o3 := Occurrence(ExampleNginx(), "tcp", "127.0.0.1:80"), Occurrence(ExampleNginx(), "tcp", "127.0.0.1:443"), Occurrence(ExampleSshd(), "tcp", "0.0.0.0:22");
    var f := SampleOccurrences;
    assert f(s[0]) == [o1];
    assert f(s[1]) == [o2];
    assert f(s[2]) == [o3];
    var s1, s2 := s[..1], s[..2];
    assert s1[..0] == [] && s1[0] == s[0];
    assert Seqs.FlatMap(f, s1) == Seqs.FlatMap(f, s1[..0]) + f(s1[0]);
    assert Seqs.FlatMap(f, s1) == [o1];
    assert s2[..1] == s1 && s2[1] == s[1];
    assert Seqs.FlatMap(f, s2) == Seqs.FlatMap(f, s1) + f(s[1]);
    assert s[..2] == s2;
    assert Seqs.FlatMap(f, s) == Seqs.FlatMap(f, s2) + f(s[2]);
  }

  lemma ExampleAddressOrder()
    ensures InsertSorted(["127.0.0.1:80"], "127.0.0.1:443") == ["127.0.0.1:443", "127.0.0.1:80"]
  {
    assert "127.0.0.1:443" == "127.0.0.1:" + "443" && "127.0.0.1:80" == "127.0.0.1:" + "80";
    LessCommonPrefix("127.0.0.1:", "443", "80");
  }

  function ExampleOcc(k: nat): Occurrence
    requires k < 3
  {
    if k == 0 then Occurrence(ExampleNginx(), "tcp", "127.0.0.1:80")
    else if k == 1 then Occurrence(ExampleNginx(), "tcp", "127.0.0.1:443")
    else Occurrence(ExampleSshd(), "tcp", "0.0.0.0:22")
  }

  lemma ExamplePidGroupsFirst()
    ensures PidGroups([ExampleOcc(0)]) == [PidGroup(ExampleNginx(), 1, ["tcp"], ["127.0.0.1:80"])]
  {
    assert [ExampleOcc(0)][..0] == [];
  }

  lemma ExamplePidGroupsSecond()
    ensures PidGroups([ExampleOcc(0), ExampleOcc(1)]) == [PidGroup(ExampleNginx(), 2, ["tcp"], ["127.0.0.1:443", "127.0.0.1:80"])]
  {
    var g1 := PidGroup(ExampleNginx(), 1, ["tcp"], ["127.0.0.1:80"]);
    assert [ExampleOcc(0), ExampleOcc(1)][..1] == [ExampleOcc(0)];
    ExamplePidGroupsFirst();
    assert FindPid([g1], 100) == Some(0);
    assert InsertSorted(["tcp"], "tcp") == ["tcp"];
    ExampleAddressOrder();
  }

  lemma ExamplePidGroups()
    ensures PidGroups(Occurrences(ExampleSamples())) ==
      [PidGroup(ExampleNginx(), 2, ["tcp"], ["127.0.0.1:443", "127.0.0.1:80"]),
       PidGroup(ExampleSshd(), 1, ["tcp"], ["0.0.0.0:22"])]
  {
    ExampleOccurrences();
    var occ := [ExampleOcc(0), ExampleOcc(1), ExampleOcc(2)];
    assert Occurrences(ExampleSamples()) == occ;
    var g2 := PidGroup(ExampleNginx(), 2, ["tcp"], ["127.0.0.1:443", "127.0.0.1:80"]);
    assert occ[..2] == [ExampleOcc(0), ExampleOcc(1)];
    ExamplePidGroupsSecond();
    assert FindPid([g2], 1) == None;
  }

  function ExampleNginxGroup(): PidGroup {
    PidGroup(ExampleNginx(), 2, ["tcp"], ["127.0.0.1:443", "127.0.0.1:80"])
  }

  function ExampleSshdGroup(): PidGroup {
    PidGroup(ExampleSshd(), 1, ["tcp"], ["0.0.0.0:22"])
  }

  lemma ExampleContainerGroupsFirst()
    ensures ContainerGroups([ExampleNginxGroup()]) ==
      [ListenerContainerGroup(Some("container_a"), 2, 1, [FinishProcess(ExampleNginxGroup())])]
  {
    var g := ExampleNginxGroup();
    assert [g][..0] == [];
    assert ContainerGroups([g]) == AddProcess([], g);
    assert FindContainer([], ContainerOf(g)) == None;
  }

  lemma ExampleContainerGroups()
    ensures ContainerGroups([ExampleNginxGroup(), ExampleSshdGroup()]) ==
      [ListenerContainerGroup(Some("container_a"), 2, 1, [FinishProcess(ExampleNginxGroup())]),
       ListenerContainerGroup(None, 1, 1, [FinishProcess(ExampleSshdGroup())])]
  {
    var g, h := ExampleNginxGroup(), ExampleSshdGroup();
    var a := ListenerContainerGroup(Some("container_a"), 2, 1, [FinishProcess(g)]);
    assert [g, h][..1] == [g];
    ExampleContainerGroupsFirst();
    assert ContainerGroups([g, h]) == AddProcess([a], h);
    assert ContainerOf(h) == None;
    assert FindContainer([a], None) == None;
  }

  lemma ExampleSortKeepsOrder<T>(key: T -> nat, x: T, y: T)
    requires key(x) >= key(y)
    ensures Seqs.SortDesc(key, [x]) == [x]
    ensures Seqs.SortDesc(key, [x, y]) == [x, y]
  {
    assert [x][..0] == [] && [x, y][..1] == [x];
  }

  function ExampleContainerA(): ListenerContainerGroup {
    ListenerContainerGroup(Some("container_a"), 2, 1, [FinishProcess(ExampleNginxGroup())])
  }

  function ExampleHost(): ListenerContainerGroup {
    ListenerContainerGroup(None, 1, 1, [FinishProcess(ExampleSshdGroup())])
  }

  /** The example's samples give the two container groups. */
  lemma ExampleStages()
    ensures ContainerGroups(PidGroups(Occurrences(ExampleSamples()))) == [ExampleContainerA(), ExampleHost()]
  {
    ExamplePidGroups();
    assert PidGroups(Occurrences(ExampleSamples())) == [ExampleNginxGroup(), ExampleSshdGroup()];
    ExampleContainerGroups();
  }

  /** Finishing the example's container groups changes nothing: each holds
      one process. */
  lemma ExampleFinishedGroups()
    ensures FinishAll([ExampleContainerA(), ExampleHost()]) == [ExampleContainerA(), ExampleHost()]
  {
    var a, h := ExampleContainerA(), ExampleHost();
    ExampleSortKeepsOrder(ProcessSockets, a.processes[0], a.processes[0]);
    ExampleSortKeepsOrder(ProcessSockets, h.processes[0], h.processes[0]);
    assert FinishContainer(a) == a && FinishContainer(h) == h;
  }

  /** The grouping example: two groups, container_a first with two sockets
      from one process, then the host with one. */
  lemma GroupsExample()
    ensures BuildListenerGroups(ExampleSamples()) ==
      [ListenerContainerGroup(Some("container_a"), 2, 1, [FinishProcess(ExampleNginxGroup())]),
       ListenerContainerGroup(None, 1, 1, [FinishProcess(ExampleSshdGroup())])]
  {
    ExampleStages();
    ExampleFinishedGroups();
    ExampleSortKeepsOrder(ContainerSockets, ExampleContainerA(), ExampleHost());
  }
}
