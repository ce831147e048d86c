/** Traffic across several firewalls: the breadth-first path search between them and
    the hop-by-hop walk along the path found. */
module MultiFirewall {
  import opened Wrappers
  import opened Simulator

  type Topology = map<string, seq<string>>

  function Neighbors(t: Topology, node: string): seq<string> {
    if node in t then t[node] else []
  }

  // ---- Paths ----------------------------------------------------------------

  ghost predicate IsPath(t: Topology, source: string, dest: string, p: seq<string>) {
    && p != [] && p[0] == source && p[|p| - 1] == dest
    && forall i :: 0 <= i < |p| - 1 ==> p[i + 1] in Neighbors(t, p[i])
  }

  ghost predicate NoRepeats(p: seq<string>) {
    forall i, j :: 0 <= i < j < |p| ==> p[i] != p[j]
  }

  ghost predicate Reachable(t: Topology, source: string, dest: string) {
    exists p :: IsPath(t, source, dest, p)
  }

  /** A repeat-free path no longer than any other. */
  ghost predicate IsShortest(t: Topology, source: string, dest: string, path: seq<string>) {
    && IsPath(t, source, dest, path) && NoRepeats(path)
    && forall p :: IsPath(t, source, dest, p) ==> |path| <= |p|
  }

  /** `v` can be reached from `source` over at most `k` edges. */
  ghost predicate Within(t: Topology, source: string, v: string, k: nat)
    decreases k
  {
    if k == 0 then v == source
    else Within(t, source, v, k - 1) || exists u :: Within(t, source, u, k - 1) && v in Neighbors(t, u)
  }

  lemma {:induction false} WithinGrows(t: Topology, source: string, v: string, k: nat, n: nat)
    requires Within(t, source, v, k) && k <= n
    ensures Within(t, source, v, n)
  {
    if k < n { WithinGrows(t, source, v, k, n - 1); }
  }

  lemma {:induction false} PathWithin(t: Topology, source: string, dest: string, p: seq<string>)
    requires IsPath(t, source, dest, p)
    ensures Within(t, source, dest, |p| - 1)
    decreases |p|
  {
    if |p| > 1 {
      var q := p[..|p| - 1];
      PathWithin(t, source, q[|q| - 1], q);
      assert dest in Neighbors(t, p[|p| - 2]);
    }
  }

  // ---- The search's invariant -----------------------------------------------

  datatype Entry = Entry(node: string, path: seq<string>)

  ghost predicate GoodEntry(t: Topology, source: string, dest: string, visited: set<string>, e: Entry) {
    && IsPath(t, source, e.node, e.path) && NoRepeats(e.path)
    && forall x :: x in e.path ==> x in visited && x != dest
  }

  /** `v` is among the first `n` entries of the queue. */
  ghost predicate Queued(queue: seq<Entry>, v: string, n: nat) {
    exists i :: 0 <= i < n <= |queue| && queue[i].node == v
  }

  /** The search stands at depth `d`: the first `near` queue entries are `d` edges away,
      the rest `d + 1`; whatever is visited is done or queued; and everything within
      `d` edges is done or among the near entries. */
  ghost predicate Frontier(t: Topology, source: string, dest: string, queue: seq<Entry>,
                           visited: set<string>, done: set<string>, d: nat, near: nat) {
    && near <= |queue| && source in visited && dest !in visited && done <= visited
    && (forall i :: 0 <= i < |queue| ==>
          && GoodEntry(t, source, dest, visited, queue[i])
          && |queue[i].path| == d + if i < near then 1 else 2)
    && (forall v :: v in visited ==> v in done || Queued(queue, v, |queue|))
    && (forall v :: Within(t, source, v, d) ==> v in done || Queued(queue, v, near))
  }

  /** The neighbours of finished nodes are visited, and none of them is the goal. */
  ghost predicate Closed(t: Topology, dest: string, done: set<string>, visited: set<string>) {
    forall u, w :: u in done && w in Neighbors(t, u) ==> w in visited && w != dest
  }

  lemma StartIsFrontier(t: Topology, source: string, dest: string)
    requires source != dest
    ensures Frontier(t, source, dest, [Entry(source, [source])], {source}, {}, 0, 1)
  {
    assert [Entry(source, [source])][0].node == source;
  }

  lemma PopKeepsFrontier(t: Topology, source: string, dest: string, queue: seq<Entry>,
                         visited: set<string>, done: set<string>, d: nat, near: nat)
    requires Frontier(t, source, dest, queue, visited, done, d, near) && queue != [] && near > 0
    ensures Frontier(t, source, dest, queue[1..], visited, done + {queue[0].node}, d, near - 1)
  {
    var rest, done' := queue[1..], done + {queue[0].node};
    assert queue[0].node == queue[0].path[|queue[0].path| - 1];
    forall v, n: nat | Queued(queue, v, n) && n > 0 ensures v in done' || Queued(rest, v, n - 1) {
      var i :| 0 <= i < n <= |queue| && queue[i].node == v;
      if i > 0 { assert rest[i - 1].node == v; }
    }
    forall i | 0 <= i < |rest|
      ensures GoodEntry(t, source, dest, visited, rest[i]) && |rest[i].path| == d + if i < near - 1 then 1 else 2
    {
      assert rest[i] == queue[i + 1];
    }
  }

  lemma PushKeepsFrontier(t: Topology, source: string, dest: string, queue: seq<Entry>, visited: set<string>,
                          done: set<string>, d: nat, near: nat, from: Entry, next: string)
    requires Frontier(t, source, dest, queue, visited, done, d, near)
    requires GoodEntry(t, source, dest, visited, from) && |from.path| == d + 1
    requires next in Neighbors(t, from.node) && next !in visited && next != dest
    ensures Frontier(t, source, dest, queue + [Entry(next, from.path + [next])], visited + {next}, done, d, near)
  {
    var e := Entry(next, from.path + [next]);
    var queue', visited' := queue + [e], visited + {next};
    assert e.path[..|from.path|] == from.path;
    forall i | 0 <= i < |queue'|
      ensures GoodEntry(t, source, dest, visited', queue'[i])
      ensures |queue'[i].path| == d + if i < near then 1 else 2
    {
      if i < |queue| { assert queue'[i] == queue[i]; }
    }
    forall v, n: nat | Queued(queue, v, n) ensures Queued(queue', v, n) {
      var i :| 0 <= i < n <= |queue| && queue[i].node == v;
      assert queue'[i].node == v;
    }
    assert queue'[|queue|].node == next;
    forall v | v in visited' ensures v in done || Queued(queue', v, |queue'|) {
      if v != next && v !in done {
        var i :| 0 <= i < |queue| && queue[i].node == v;
        assert queue'[i].node == v;
      }
    }
  }

  /** The near entries are used up: the search moves one edge further out. */
  lemma AdvanceKeepsFrontier(t: Topology, source: string, dest: string, queue: seq<Entry>,
                             visited: set<string>, done: set<string>, d: nat)
    requires Frontier(t, source, dest, queue, visited, done, d, 0) && Closed(t, dest, done, visited)
    ensures Frontier(t, source, dest, queue, visited, done, d + 1, |queue|)
  {
    forall v | Within(t, source, v, d + 1) ensures v in visited {
      if !Within(t, source, v, d) {
        var u :| Within(t, source, u, d) && v in Neighbors(t, u);
        assert u in done;
      } else {
        assert v in done;
      }
    }
  }

  lemma FoundIsShortest(t: Topology, source: string, dest: string, queue: seq<Entry>, visited: set<string>,
                        done: set<string>, d: nat, near: nat, from: Entry)
    requires Frontier(t, source, dest, queue, visited, done, d, near)
    requires GoodEntry(t, source, dest, visited, from) && |from.path| == d + 1
    requires dest in Neighbors(t, from.node)
    ensures IsShortest(t, source, dest, from.path + [dest])
  {
    var path := from.path + [dest];
    assert path[..|from.path|] == from.path;
    forall p | IsPath(t, source, dest, p) ensures |path| <= |p| {
      PathWithin(t, source, dest, p);
      if |p| - 1 <= d { WithinGrows(t, source, dest, |p| - 1, d); }
    }
  }

  lemma {:induction false} ClosedHoldsPaths(t: Topology, source: string, v: string, dest: string, done: set<string>,
                                            p: seq<string>)
    requires source in done && Closed(t, dest, done, done) && IsPath(t, source, v, p)
    ensures v in done
    decreases |p|
  {
    if |p| > 1 {
      ClosedHoldsPaths(t, source, p[|p| - 2], dest, done, p[..|p| - 1]);
      assert v in Neighbors(t, p[|p| - 2]);
    }
  }

  lemma ExhaustedIsUnreachable(t: Topology, source: string, dest: string, visited: set<string>,
                               done: set<string>, d: nat)
    requires Frontier(t, source, dest, [], visited, done, d, 0) && Closed(t, dest, done, visited)
    ensures !Reachable(t, source, dest)
  {
    assert done == visited;
    forall p | IsPath(t, source, dest, p) ensures false {
      ClosedHoldsPaths(t, source, dest, dest, done, p);
    }
  }

  /** A node is finished: its neighbours are visited and, when it was the last near
      entry, the search moves out. */
  lemma FinishNode(t: Topology, source: string, dest: string, queue: seq<Entry>, visited0: set<string>,
                   visited: set<string>, done: set<string>, node: string, d: nat, near: nat)
    returns (d': nat, near': nat)
    requires Frontier(t, source, dest, queue, visited, done + {node}, d, near)
    requires Closed(t, dest, done, visited0) && visited0 <= visited
    requires forall w :: w in Neighbors(t, node) ==> w in visited && w != dest
    ensures Frontier(t, source, dest, queue, visited, done + {node}, d', near')
    ensures Closed(t, dest, done + {node}, visited)
    ensures queue != [] ==> near' > 0
  {
    d', near' := d, near;
    forall u, w | u in done + {node} && w in Neighbors(t, u) ensures w in visited && w != dest {
      if u != node { assert u in done; }
    }
    if near == 0 {
      AdvanceKeepsFrontier(t, source, dest, queue, visited, done + {node}, d);
      d', near' := d + 1, |queue|;
    }
  }

  /** Every node the search can ever visit. */
  ghost function Nodes(t: Topology, source: string): set<string> {
    {source} + (set n, w | n in t && w in t[n] :: w)
  }

  /** Everything the search keeps between two rounds. */
  ghost predicate Searching(t: Topology, source: string, dest: string, queue: seq<Entry>,
                            visited: set<string>, done: set<string>, d: nat, near: nat) {
    && Frontier(t, source, dest, queue, visited, done, d, near)
    && Closed(t, dest, done, visited) && visited <= Nodes(t, source)
    && (queue != [] ==> near > 0)
  }

  // ---- The walk along a path ------------------------------------------------

  datatype Hop = Hop(id: string, name: string, result: SimResult)

  datatype Outcome =
    | NoPath(source: string, dest: string)
    | Traversed(path: seq<string>, hops: nat, finalAction: Option<Action>, results: seq<Hop>)

  /** The firewalls on the path that are configured, in path order. */
  function Known(configs: map<string, Config>, path: seq<string>): (ids: seq<string>)
    ensures forall id :: id in ids <==> id in path && id in configs
  {
    if path == [] then []
    else if path[0] in configs then [path[0]] + Known(configs, path[1..])
    else Known(configs, path[1..])
  }

  /** The packet as the next hop sees it. */
  function NextPacket(packet: Packet, result: SimResult): Packet {
    var pre := result.translation.pre;
    if pre.Some? then packet.(dst := pre.value.translatedDst) else packet
  }

  /** Simulate at each firewall in turn until one blocks. */
  function Walk(configs: map<string, Config>, ids: seq<string>, packet: Packet): seq<Hop>
    requires forall id :: id in ids ==> id in configs
  {
    if ids == [] then []
    else
      var r := Simulate(configs[ids[0]], packet);
      [Hop(ids[0], configs[ids[0]].name, r)]
      + if Blocks(r.action) then [] else Walk(configs, ids[1..], NextPacket(packet, r))
  }

  /** The packet after the first `k` hops: the fold of their destination NATs. */
  function PacketAt(packet: Packet, hops: seq<Hop>, k: nat): Packet
    requires k <= |hops|
  {
    if k == 0 then packet else NextPacket(PacketAt(packet, hops, k - 1), hops[k - 1].result)
  }

  function FinalAction(hops: seq<Hop>): Option<Action> {
    if hops == [] then None else Some(hops[|hops| - 1].result.action)
  }

  // ---- Theorems about the walk ----------------------------------------------

  /** The evaluated firewalls are a prefix of the known ones; only the last can block;
      stopping short means that it did. */
  lemma {:induction false} WalkIsPrefix(configs: map<string, Config>, ids: seq<string>, packet: Packet)
    requires forall id :: id in ids ==> id in configs
    ensures var hops := Walk(configs, ids, packet);
            && |hops| <= |ids|
            && (forall k :: 0 <= k < |hops| ==> hops[k].id == ids[k])
            && (forall k :: 0 <= k < |hops| - 1 ==> !Blocks(hops[k].result.action))
            && (|hops| < |ids| ==> hops != [] && Blocks(hops[|hops| - 1].result.action))
  {
    if ids != [] {
      WalkIsPrefix(configs, ids[1..], NextPacket(packet, Simulate(configs[ids[0]], packet)));
    }
  }

  lemma {:induction false} PacketAtShift(packet: Packet, hop: Hop, hops: seq<Hop>, k: nat)
    requires k <= |hops|
    ensures PacketAt(packet, [hop] + hops, k + 1) == PacketAt(NextPacket(packet, hop.result), hops, k)
  {
    if k > 0 { PacketAtShift(packet, hop, hops, k - 1); }
  }

  /** Hop `k` simulates the packet left by the earlier hops' destination NATs. */
  lemma {:induction false} WalkFoldsNat(configs: map<string, Config>, ids: seq<string>, packet: Packet, k: nat)
    requires forall id :: id in ids ==> id in configs
    requires k < |Walk(configs, ids, packet)|
    ensures |Walk(configs, ids, packet)| <= |ids|
    ensures var hops := Walk(configs, ids, packet);
            hops[k].result == Simulate(configs[ids[k]], PacketAt(packet, hops, k))
  {
    WalkIsPrefix(configs, ids, packet);
    if k > 0 {
      var r := Simulate(configs[ids[0]], packet);
      var rest := Walk(configs, ids[1..], NextPacket(packet, r));
      WalkFoldsNat(configs, ids[1..], NextPacket(packet, r), k - 1);
      PacketAtShift(packet, Hop(ids[0], configs[ids[0]].name, r), rest, k - 1);
    }
  }

  /** The walk changes nothing but the destination, and if the destination it leaves is
      a host at all then it is the one the packet set out for. */
  lemma {:induction false} WalkKeepsPacket(configs: map<string, Config>, ids: seq<string>, packet: Packet, k: nat)
    requires forall id :: id in ids ==> id in configs
    requires k <= |Walk(configs, ids, packet)|
    ensures var at := PacketAt(packet, Walk(configs, ids, packet), k);
            && at == packet.(dst := at.dst)
            && (at.dst.Address? ==> at.dst == packet.dst)
  {
    if k > 0 {
      var hops := Walk(configs, ids, packet);
      WalkKeepsPacket(configs, ids, packet, k - 1);
      WalkFoldsNat(configs, ids, packet, k - 1);
      HopKeepsPacket(configs[ids[k - 1]], PacketAt(packet, hops, k - 1));
      assert PacketAt(packet, hops, k) == NextPacket(PacketAt(packet, hops, k - 1), hops[k - 1].result);
    }
  }

  /** The same for one hop. */
  lemma HopKeepsPacket(c: Config, packet: Packet)
    ensures var next := NextPacket(packet, Simulate(c, packet));
            next == packet.(dst := next.dst) && (next.dst.Address? ==> next.dst == packet.dst)
  {
    NatNeverReachesAnotherHost(c, packet);
  }

  lemma WalkHops(configs: map<string, Config>, path: seq<string>, i: nat, packet: Packet, r: SimResult,
                 results: seq<Hop>)
    requires i < |path| && path[i] in configs && r == Simulate(configs[path[i]], packet)
    ensures results + Walk(configs, Known(configs, path[i..]), packet)
            == results + [Hop(path[i], configs[path[i]].name, r)]
               + if Blocks(r.action) then []
                 else Walk(configs, Known(configs, path[i + 1..]), NextPacket(packet, r))
  {
    assert path[i..][1..] == path[i + 1..];
    assert Known(configs, path[i..])[1..] == Known(configs, path[i + 1..]);
  }

  /** A firewall nobody knows is passed over. */
  lemma WalkSkips(configs: map<string, Config>, path: seq<string>, i: nat)
    requires i < |path| && path[i] !in configs
    ensures Known(configs, path[i..]) == Known(configs, path[i + 1..])
  {
    assert path[i..][1..] == path[i + 1..];
  }

  // ---- The simulation object ------------------------------------------------

  class MultiFirewallSimulation {
    var firewalls: map<string, FirewallSimulator>
    var topology: Topology

    constructor ()
      ensures firewalls == map[] && topology == map[]
    {
      firewalls, topology := map[], map[];
    }

    function Configurations(): (configs: map<string, Config>)
      reads this, firewalls.Values
      ensures configs.Keys == firewalls.Keys
    {
      map id | id in firewalls :: firewalls[id].Configuration()
    }

    method AddFirewall(firewall: FirewallSimulator)
      modifies this`firewalls
      ensures firewalls == old(firewalls)[firewall.firewallId := firewall]
    {
      firewalls := firewalls[firewall.firewallId := firewall];
    }

    method SetTopology(t: Topology)
      modifies this`topology
      ensures topology == t
    {
      topology := t;
    }

    /** The inner loop of the search: look at each neighbour of the node just popped. */
    method ScanNeighbors(source: string, dest: string, current: Entry, queue0: seq<Entry>, visited0: set<string>,
                         ghost done: set<string>, ghost d: nat, ghost near: nat)
      returns (found: bool, queue: seq<Entry>, visited: set<string>)
      requires Frontier(topology, source, dest, queue0, visited0, done, d, near)
      requires GoodEntry(topology, source, dest, visited0, current) && |current.path| == d + 1
      requires visited0 <= Nodes(topology, source)
      ensures found ==> IsShortest(topology, source, dest, current.path + [dest])
      ensures !found ==>
                && Frontier(topology, source, dest, queue, visited, done, d, near)
                && visited0 <= visited <= Nodes(topology, source)
                && (visited == visited0 ==> queue == queue0)
                && forall w :: w in Neighbors(topology, current.node) ==> w in visited && w != dest
    {
      queue, visited := queue0, visited0;
      var neighbors := Neighbors(topology, current.node);
      for j := 0 to |neighbors|
        invariant Frontier(topology, source, dest, queue, visited, done, d, near)
        invariant GoodEntry(topology, source, dest, visited, current)
        invariant forall m :: 0 <= m < j ==> neighbors[m] in visited && neighbors[m] != dest
        invariant visited0 <= visited <= Nodes(topology, source)
        invariant visited == visited0 ==> queue == queue0
      {
        var neighbor := neighbors[j];
        if neighbor == dest {
          FoundIsShortest(topology, source, dest, queue, visited, done, d, near, current);
          return true, queue, visited;
        }
        if neighbor !in visited {
          PushKeepsFrontier(topology, source, dest, queue, visited, done, d, near, current, neighbor);
          visited := visited + {neighbor};
          queue := queue + [Entry(neighbor, current.path + [neighbor])];
        }
      }
      return false, queue, visited;
    }

    /** Take the first entry off the queue and look at its neighbours. */
    method Expand(source: string, dest: string, queue: seq<Entry>, visited: set<string>,
                  ghost done: set<string>, ghost d: nat, ghost near: nat)
      returns (path: seq<string>, queue': seq<Entry>, visited': set<string>,
               ghost done': set<string>, ghost d': nat, ghost near': nat)
      requires Searching(topology, source, dest, queue, visited, done, d, near) && queue != []
      ensures path != [] ==> IsShortest(topology, source, dest, path)
      ensures path == [] ==> Searching(topology, source, dest, queue', visited', done', d', near')
      ensures path == [] ==> visited <= visited' && (visited' == visited ==> queue' == queue[1..])
    {
      var current := queue[0];
      PopKeepsFrontier(topology, source, dest, queue, visited, done, d, near);
      var found;
      found, queue', visited' :=
        ScanNeighbors(source, dest, current, queue[1..], visited, done + {current.node}, d, near - 1);
      done', d', near' := done + {current.node}, d, near;
      if found { return current.path + [dest], queue', visited', done', d', near'; }
      d', near' := FinishNode(topology, source, dest, queue', visited, visited', done, current.node, d, near - 1);
      path := [];
    }

    /** A shortest path between two firewalls, or nothing when there is none. */
    method CalculatePath(source: string, dest: string) returns (path: seq<string>)
      ensures path == [] <==> !Reachable(topology, source, dest)
      ensures path != [] ==> IsShortest(topology, source, dest, path)
    {
      if source == dest {
        assert IsPath(topology, source, dest, [source]);
        return [source];
      }
      var visited, queue := {source}, [Entry(source, [source])];
      ghost var done: set<string>, d: nat, near: nat := {}, 0, 1;
      StartIsFrontier(topology, source, dest);
      while queue != []
        invariant Searching(topology, source, dest, queue, visited, done, d, near)
        decreases Nodes(topology, source) - visited, |queue|
      {
        path, queue, visited, done, d, near := Expand(source, dest, queue, visited, done, d, near);
        if path != [] { return; }
      }
      ExhaustedIsUnreachable(topology, source, dest, visited, done, d);
      return [];
    }

    method WalkPath(path: seq<string>, packet: Packet, ghost configs: map<string, Config>)
      returns (results: seq<Hop>)
      requires configs == Configurations()
      ensures results == Walk(configs, Known(configs, path), packet)
    {
      var current := packet;
      results := [];
      assert path[0..] == path;
      for i := 0 to |path|
        invariant configs.Keys == firewalls.Keys
        invariant forall id :: id in firewalls ==> firewalls[id].Configuration() == configs[id]
        invariant Walk(configs, Known(configs, path), packet)
                  == results + Walk(configs, Known(configs, path[i..]), current)
      {
        var id := path[i];
        if id !in firewalls {
          WalkSkips(configs, path, i);
          continue;
        }
        var result := firewalls[id].SimulatePacket(current);
        WalkHops(configs, path, i, current, result, results);
        results := results + [Hop(id, firewalls[id].firewallName, result)];
        if Blocks(result.action) { return; }
        if result.translation.pre.Some? || result.translation.post.Some? { current := NextPacket(current, result); }
      }
    }

    /** Walk the packet along a shortest path until it arrives or is blocked. */
    method SimulateEndToEnd(source: string, dest: string, packet: Packet) returns (outcome: Outcome)
      ensures outcome.NoPath? <==> !Reachable(topology, source, dest)
      ensures outcome.NoPath? ==> outcome == NoPath(source, dest)
      ensures outcome.Traversed? ==>
                && IsShortest(topology, source, dest, outcome.path)
                && outcome.results == Walk(Configurations(), Known(Configurations(), outcome.path), packet)
                && outcome.hops == |outcome.results|
                && outcome.finalAction == FinalAction(outcome.results)
    {
      ghost var configs := Configurations();
      var path := CalculatePath(source, dest);
      if path == [] { return NoPath(source, dest); }
      var results := WalkPath(path, packet, configs);
      assert results == Walk(configs, Known(configs, path), packet);
      outcome := Traversed(path, |results|, FinalAction(results), results);
    }
  }
}
