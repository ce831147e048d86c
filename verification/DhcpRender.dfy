/** The DHCP agent's Kea configurations, and why a payload copied from a sound console
    store loses nothing in them. */
module DhcpRender {
  import opened Wrappers
  import opened Text
  import opened Sequences
  import opened Dhcp

  // ---- Payload --------------------------------------------------------------------

  datatype Item<T> = Item(id: nat, row: Row<T>)

  /** A reservation as the payload carries it: its flag is not a column of the row. */
  datatype HostItem = HostItem(item: Item<Reservation>, enabled: bool)

  datatype SubnetPayload = SubnetPayload(id: nat, row: Subnet, pools: seq<Item<Pool>>,
                                         reservations: seq<HostItem>, options: seq<Item<DhcpOption>>)

  datatype Payload = Payload(server: Server, subnets: seq<SubnetPayload>)

  /** Every row of the subnet, once each, in any order. */
  predicate CopiesRows<T(==)>(items: seq<Item<T>>, rows: map<nat, Row<T>>, subnet: nat) {
    && (forall i :: 0 <= i < |items| ==> items[i].id in rows && rows[items[i].id] == items[i].row && items[i].row.subnet == subnet)
    && (forall i, j :: 0 <= i < j < |items| ==> items[i].id != items[j].id)
    && forall id :: id in rows && rows[id].subnet == subnet ==> exists i :: 0 <= i < |items| && items[i].id == id
  }

  function ItemsOf(hosts: seq<HostItem>): (items: seq<Item<Reservation>>)
    ensures |items| == |hosts| && forall i :: 0 <= i < |hosts| ==> items[i] == hosts[i].item
  {
    seq(|hosts|, i requires 0 <= i < |hosts| => hosts[i].item)
  }

  predicate CopiesSubnet(sp: SubnetPayload, s: Store, server: nat) {
    && sp.id in s.subnets && s.subnets[sp.id] == sp.row && sp.row.server == server
    && CopiesRows(sp.pools, s.pools, sp.id)
    && CopiesRows(ItemsOf(sp.reservations), s.reservations, sp.id)
    && (forall i :: 0 <= i < |sp.reservations| ==> sp.reservations[i].enabled)
    && CopiesRows(sp.options, s.options, sp.id)
  }

  /** The payload a server's rows make: each of its subnets once, in any order. */
  predicate Copies(p: Payload, s: Store, server: nat) {
    && server in s.servers && p.server == s.servers[server]
    && (forall i :: 0 <= i < |p.subnets| ==> CopiesSubnet(p.subnets[i], s, server))
    && (forall i, j :: 0 <= i < j < |p.subnets| ==> p.subnets[i].id != p.subnets[j].id)
    && forall id :: id in s.subnets && s.subnets[id].server == server ==>
         exists i :: 0 <= i < |p.subnets| && p.subnets[i].id == id
  }

  // ---- What is rendered ------------------------------------------------------------

  datatype OptionEntry = OptionEntry(name: string, code: Option<nat>, data: string)

  datatype HostEntry = V4Host(hw: string, ip: string, hostname: string) | V6Host(duid: string, ip: string, hostname: string)

  datatype Timers =
    | V4Timers(valid: int, minValid: int, maxValid: int)
    | V6Timers(preferred: int, valid: int, renew: int, rebind: int)

  datatype SubnetConfig = SubnetConfig(id: nat, cidr: string, timers: Timers, options: seq<OptionEntry>,
                                       pools: seq<string>, reservations: seq<HostEntry>,
                                       relays: seq<string>, interface: string)

  function Named(name: string, values: seq<string>): seq<OptionEntry> {
    if values == [] then [] else [OptionEntry(name, None, Join(values, ", "))]
  }

  function NamedText(name: string, value: string): seq<OptionEntry> {
    if value == "" then [] else [OptionEntry(name, None, value)]
  }

  /** The options every subnet row carries in its own columns. */
  function ColumnOptions(s: Subnet, family: Family): seq<OptionEntry> {
    if family.V4? then
      Named("routers", s.routers) + Named("domain-name-servers", s.dns)
      + NamedText("domain-name", s.domain) + Named("ntp-servers", s.ntp)
    else
      Named("dns-servers", s.dns) + NamedText("domain-search", s.domain) + Named("sntp-servers", s.ntp)
  }

  function OptionOf(b: DhcpOption): OptionEntry {
    OptionEntry(b.name, Some(b.code), b.value)
  }

  function PoolOf(b: Pool): string {
    b.start + " - " + b.end
  }

  function HostOf(b: Reservation, family: Family): HostEntry {
    if family.V4? then V4Host(b.hw, b.ip, b.hostname) else V6Host(b.hw, b.ip, b.hostname)
  }

  /** The renderer's filters: rows of another family are skipped. */
  function OptionsFor(family: Family): Item<DhcpOption> -> seq<OptionEntry> {
    (item: Item<DhcpOption>) => if item.row.family != family then [] else [OptionOf(item.row.body)]
  }

  function PoolsFor(family: Family): Item<Pool> -> seq<string> {
    (item: Item<Pool>) => if item.row.body.enabled && item.row.family == family then [PoolOf(item.row.body)] else []
  }

  function HostsFor(family: Family): HostItem -> seq<HostEntry> {
    (host: HostItem) =>
      if !host.enabled || host.item.row.family != family then [] else [HostOf(host.item.row.body, family)]
  }

  function TimersOf(s: Subnet, family: Family): Timers {
    if family.V4? then V4Timers(s.leaseDefault, s.leaseMin, s.leaseMax)
    else V6Timers(s.leaseDefault, s.leaseMax, s.leaseMin, s.leaseDefault)
  }

  function SubnetEntry(sp: SubnetPayload, family: Family): SubnetConfig {
    SubnetConfig(sp.id, sp.row.cidr, TimersOf(sp.row, family),
                 ColumnOptions(sp.row, family) + Flat(OptionsFor(family), sp.options),
                 Flat(PoolsFor(family), sp.pools), Flat(HostsFor(family), sp.reservations),
                 sp.row.relays, sp.row.interface)
  }

  function SubnetsFor(family: Family): SubnetPayload -> seq<SubnetConfig> {
    (sp: SubnetPayload) => if sp.row.enabled && sp.row.family == family then [SubnetEntry(sp, family)] else []
  }

  /** One family's configuration: the interfaces it listens on, its subnets, and the peers of
      its HA hook. */
  datatype Config = Config(interfaces: set<string>, subnets: seq<SubnetConfig>, peers: seq<string>)

  /** The interfaces the family's subnets name, enabled or not; all of them when none does. */
  function InterfacesOf(subnets: seq<SubnetPayload>, family: Family): set<string> {
    var named := set i | 0 <= i < |subnets| && subnets[i].row.interface != "" && subnets[i].row.family == family
                       :: subnets[i].row.interface;
    if named == {} then {"*"} else named
  }

  function HaPeers(server: Server): seq<string> {
    if !server.ha || server.peer == "" then [] else [server.peer]
  }

  function Rendered(p: Payload, family: Family): Config {
    Config(InterfacesOf(p.subnets, family), Flat(SubnetsFor(family), p.subnets), HaPeers(p.server))
  }

  /** The files that applying a payload writes. */
  datatype Files = Files(dhcp4: Option<Config>, dhcp6: Option<Config>)

  function Applied(p: Payload): Files {
    Files(if p.server.v4 then Some(Rendered(p, V4)) else None, if p.server.v6 then Some(Rendered(p, V6)) else None)
  }

  // ---- The renderer ------------------------------------------------------------------

  method BuildOptionData(sp: SubnetPayload, family: Family) returns (options: seq<OptionEntry>)
    ensures options == SubnetEntry(sp, family).options
  {
    options := ColumnOptions(sp.row, family);
    var rows := BuildOptionRows(sp.options, family);
    options := options + rows;
  }

  method BuildOptionRows(items: seq<Item<DhcpOption>>, family: Family) returns (rows: seq<OptionEntry>)
    ensures rows == Flat(OptionsFor(family), items)
  {
    rows := [];
    for i := 0 to |items|
      invariant rows == Flat(OptionsFor(family), items[..i])
    {
      FlatStep(OptionsFor(family), items, i);
      if items[i].row.family != family { continue; }
      rows := rows + [OptionOf(items[i].row.body)];
    }
    assert items[..|items|] == items;
  }

  method BuildReservations(sp: SubnetPayload, family: Family) returns (hosts: seq<HostEntry>)
    ensures hosts == SubnetEntry(sp, family).reservations
  {
    hosts := [];
    for i := 0 to |sp.reservations|
      invariant hosts == Flat(HostsFor(family), sp.reservations[..i])
    {
      FlatStep(HostsFor(family), sp.reservations, i);
      var host := sp.reservations[i];
      if !host.enabled || host.item.row.family != family { continue; }
      hosts := hosts + [HostOf(host.item.row.body, family)];
    }
    assert sp.reservations[..|sp.reservations|] == sp.reservations;
  }

  method BuildSubnet(sp: SubnetPayload, family: Family) returns (config: SubnetConfig)
    ensures config == SubnetEntry(sp, family)
  {
    var options := BuildOptionData(sp, family);
    var hosts := BuildReservations(sp, family);
    config := SubnetConfig(sp.id, sp.row.cidr, TimersOf(sp.row, family), options, Flat(PoolsFor(family), sp.pools), hosts,
                           sp.row.relays, sp.row.interface);
  }

  method RenderConfig(p: Payload, family: Family) returns (config: Config)
    ensures config == Rendered(p, family)
  {
    var subnets := [];
    for i := 0 to |p.subnets|
      invariant subnets == Flat(SubnetsFor(family), p.subnets[..i])
    {
      FlatStep(SubnetsFor(family), p.subnets, i);
      if p.subnets[i].row.enabled && p.subnets[i].row.family == family {
        var entry := BuildSubnet(p.subnets[i], family);
        subnets := subnets + [entry];
      }
    }
    assert p.subnets[..|p.subnets|] == p.subnets;
    config := Config(InterfacesOf(p.subnets, family), subnets, HaPeers(p.server));
  }

  datatype Command = TestConfig(family: Family) | Restart(family: Family) | RestartAgent

  function TestsOf(server: Server): seq<Command> {
    (if server.v4 then [TestConfig(V4)] else []) + if server.v6 then [TestConfig(V6)] else []
  }

  function RestartsOf(server: Server): seq<Command> {
    (if server.v4 then [Restart(V4)] else []) + (if server.v6 then [Restart(V6)] else []) + [RestartAgent]
  }

  predicate AllZero(ran: seq<Command>, codes: Command -> int) {
    forall c :: c in ran ==> codes(c) == 0
  }

  /** Write the files and run the commands, where commands are allowed; fail when one of
      them did. `codes` are their return codes. */
  method ApplyConfig(p: Payload, allowed: bool, codes: Command -> int) returns (files: Files, ran: seq<Command>, ok: bool)
    ensures files == Applied(p)
    ensures ran == if allowed then TestsOf(p.server) + RestartsOf(p.server) else []
    ensures ok <==> AllZero(ran, codes)
  {
    files, ran := WriteConfigs(p, allowed);
    if allowed {
      ran := ran + RestartsOf(p.server);
    }
    ok := NoneFailed(ran, codes);
  }

  method WriteConfigs(p: Payload, allowed: bool) returns (files: Files, ran: seq<Command>)
    ensures files == Applied(p) && ran == if allowed then TestsOf(p.server) else []
  {
    files, ran := Files(None, None), [];
    if p.server.v4 {
      var config := RenderConfig(p, V4);
      files := files.(dhcp4 := Some(config));
      if allowed { ran := ran + [TestConfig(V4)]; }
    }
    if p.server.v6 {
      var config := RenderConfig(p, V6);
      files := files.(dhcp6 := Some(config));
      if allowed { ran := ran + [TestConfig(V6)]; }
    }
  }

  /** Look through the results for a code other than zero. */
  method NoneFailed(ran: seq<Command>, codes: Command -> int) returns (ok: bool)
    ensures ok <==> AllZero(ran, codes)
  {
    for i := 0 to |ran|
      invariant AllZero(ran[..i], codes)
    {
      if codes(ran[i]) != 0 { return false; }
    }
    assert ran[..|ran|] == ran;
    ok := true;
  }

  // ---- Nothing is lost -----------------------------------------------------------------

  /** The subnet's entry with every option, every enabled pool and every reservation. */
  function Complete(sp: SubnetPayload): SubnetConfig {
    SubnetConfig(sp.id, sp.row.cidr, TimersOf(sp.row, sp.row.family),
                 ColumnOptions(sp.row, sp.row.family) + Flat(EveryOption, sp.options),
                 Flat(EnabledPool, sp.pools), Flat(HostsOf(sp.row.family), sp.reservations),
                 sp.row.relays, sp.row.interface)
  }

  function EveryOption(item: Item<DhcpOption>): seq<OptionEntry> {
    [OptionOf(item.row.body)]
  }

  function EnabledPool(item: Item<Pool>): seq<string> {
    if item.row.body.enabled then [PoolOf(item.row.body)] else []
  }

  function HostsOf(family: Family): HostItem -> seq<HostEntry> {
    (host: HostItem) => [HostOf(host.item.row.body, family)]
  }

  lemma {:induction false} FlatAgrees<A, B>(f: A -> seq<B>, g: A -> seq<B>, s: seq<A>)
    requires forall i :: 0 <= i < |s| ==> f(s[i]) == g(s[i])
    ensures Flat(f, s) == Flat(g, s)
  {
    if s != [] { FlatAgrees(f, g, s[..|s| - 1]); }
  }

  /** Rows copied from a sound store all have the subnet's family, and the reservations are
      enabled. */
  predicate OneFamily(sp: SubnetPayload) {
    && (forall i :: 0 <= i < |sp.pools| ==> sp.pools[i].row.family == sp.row.family)
    && (forall i :: 0 <= i < |sp.reservations| ==>
          sp.reservations[i].enabled && sp.reservations[i].item.row.family == sp.row.family)
    && forall i :: 0 <= i < |sp.options| ==> sp.options[i].row.family == sp.row.family
  }

  lemma EntryIsComplete(sp: SubnetPayload)
    requires OneFamily(sp)
    ensures SubnetEntry(sp, sp.row.family) == Complete(sp)
  {
    var family := sp.row.family;
    FlatAgrees(OptionsFor(family), EveryOption, sp.options);
    FlatAgrees(PoolsFor(family), EnabledPool, sp.pools);
    FlatAgrees(HostsFor(family), HostsOf(family), sp.reservations);
  }

  /** Every enabled subnet of the family, complete, and nothing else. */
  function CompleteFor(family: Family): SubnetPayload -> seq<SubnetConfig> {
    (sp: SubnetPayload) => if sp.row.enabled && sp.row.family == family then [Complete(sp)] else []
  }

  /** A payload copied from a sound store renders to its enabled subnets, each complete, in
      the configuration of its own family, in order. */
  lemma RenderedIsComplete(p: Payload, s: Store, server: nat, family: Family)
    requires Sound(s) && Copies(p, s, server)
    ensures Rendered(p, family).subnets == Flat(CompleteFor(family), p.subnets)
  {
    forall i | 0 <= i < |p.subnets| ensures SubnetsFor(family)(p.subnets[i]) == CompleteFor(family)(p.subnets[i]) {
      EntryIsComplete(p.subnets[i]);
    }
    FlatAgrees(SubnetsFor(family), CompleteFor(family), p.subnets);
  }

  // ---- What an entry says -------------------------------------------------------------------

  predicate TimersSay(t: Timers, s: Subnet) {
    match t
    case V4Timers(valid, minValid, maxValid) =>
      s.family.V4? && valid == s.leaseDefault && minValid == s.leaseMin && maxValid == s.leaseMax
    case V6Timers(preferred, valid, renew, rebind) =>
      && s.family.V6? && preferred == s.leaseDefault && valid == s.leaseMax
      && renew == s.leaseMin && rebind == s.leaseDefault
  }

  /** The option is one of the subnet's own columns: a list that is not empty, its members
      joined, or a domain that is not. */
  predicate ColumnSays(o: OptionEntry, s: Subnet) {
    && o.code == None
    && match s.family
       case V4 =>
         || (o.name == "routers" && s.routers != [] && o.data == Join(s.routers, ", "))
         || (o.name == "domain-name-servers" && s.dns != [] && o.data == Join(s.dns, ", "))
         || (o.name == "domain-name" && s.domain != "" && o.data == s.domain)
         || (o.name == "ntp-servers" && s.ntp != [] && o.data == Join(s.ntp, ", "))
       case V6 =>
         || (o.name == "dns-servers" && s.dns != [] && o.data == Join(s.dns, ", "))
         || (o.name == "domain-search" && s.domain != "" && o.data == s.domain)
         || (o.name == "sntp-servers" && s.ntp != [] && o.data == Join(s.ntp, ", "))
  }

  predicate HostSays(h: HostEntry, r: Reservation, family: Family) {
    match h
    case V4Host(hw, ip, hostname) => family.V4? && hw == r.hw && ip == r.ip && hostname == r.hostname
    case V6Host(duid, ip, hostname) => family.V6? && duid == r.hw && ip == r.ip && hostname == r.hostname
  }

  lemma NamedSays(o: OptionEntry, name: string, values: seq<string>)
    ensures o in Named(name, values) <==> values != [] && o == OptionEntry(name, None, Join(values, ", "))
  {
  }

  lemma NamedTextSays(o: OptionEntry, name: string, value: string)
    ensures o in NamedText(name, value) <==> value != "" && o == OptionEntry(name, None, value)
  {
  }

  lemma ColumnsSay(o: OptionEntry, s: Subnet)
    ensures o in ColumnOptions(s, s.family) <==> ColumnSays(o, s)
  {
    assert o == OptionEntry(o.name, o.code, o.data);
    if s.family.V4? {
      NamedSays(o, "routers", s.routers);
      NamedSays(o, "domain-name-servers", s.dns);
      NamedTextSays(o, "domain-name", s.domain);
      NamedSays(o, "ntp-servers", s.ntp);
    } else {
      NamedSays(o, "dns-servers", s.dns);
      NamedTextSays(o, "domain-search", s.domain);
      NamedSays(o, "sntp-servers", s.ntp);
    }
  }

  lemma {:induction false} OptionRows(items: seq<Item<DhcpOption>>)
    ensures |Flat(EveryOption, items)| == |items|
    ensures forall i :: 0 <= i < |items| ==>
              Flat(EveryOption, items)[i]
              == OptionEntry(items[i].row.body.name, Some(items[i].row.body.code), items[i].row.body.value)
  {
    if items != [] { OptionRows(items[..|items| - 1]); }
  }

  lemma {:induction false} HostRows(hosts: seq<HostItem>, family: Family)
    ensures |Flat(HostsOf(family), hosts)| == |hosts|
    ensures forall i :: 0 <= i < |hosts| ==> HostSays(Flat(HostsOf(family), hosts)[i], hosts[i].item.row.body, family)
  {
    if hosts != [] { HostRows(hosts[..|hosts| - 1], family); }
  }

  /** A pool that is enabled, as its range. */
  predicate PoolSays(text: string, item: Item<Pool>) {
    item.row.body.enabled && text == item.row.body.start + " - " + item.row.body.end
  }

  lemma PoolRows(items: seq<Item<Pool>>, text: string)
    ensures text in Flat(EnabledPool, items) <==> exists item :: item in items && PoolSays(text, item)
  {
    FlatMembers(EnabledPool, items, text);
    forall item | item in items ensures text in EnabledPool(item) <==> PoolSays(text, item) {}
  }

  /** A complete entry, in the subnet's own terms: its address block, relays and interface, the
      lease times each in its place, its columns and then its option rows as options, its
      enabled pools, and its reservations in order. */
  lemma EntrySays(sp: SubnetPayload, o: OptionEntry, text: string)
    ensures var e, s := Complete(sp), sp.row;
            && e.id == sp.id && e.cidr == s.cidr && e.relays == s.relays && e.interface == s.interface
            && TimersSay(e.timers, s)
            && |e.options| >= |sp.options|
            && (o in e.options[..|e.options| - |sp.options|] <==> ColumnSays(o, s))
            && (forall i :: 0 <= i < |sp.options| ==>
                  e.options[|e.options| - |sp.options| + i]
                  == OptionEntry(sp.options[i].row.body.name, Some(sp.options[i].row.body.code), sp.options[i].row.body.value))
            && (text in e.pools <==> exists item :: item in sp.pools && PoolSays(text, item))
            && |e.reservations| == |sp.reservations|
            && forall i :: 0 <= i < |sp.reservations| ==>
                 HostSays(e.reservations[i], sp.reservations[i].item.row.body, s.family)
  {
    var columns, rows := ColumnOptions(sp.row, sp.row.family), Flat(EveryOption, sp.options);
    ColumnsSay(o, sp.row);
    OptionRows(sp.options);
    HostRows(sp.reservations, sp.row.family);
    PoolRows(sp.pools, text);
    assert (columns + rows)[..|columns|] == columns;
  }

  // ---- Each subnet exactly once -----------------------------------------------------------

  function CountId(configs: seq<SubnetConfig>, id: nat): nat {
    if configs == [] then 0 else CountId(configs[..|configs| - 1], id) + if configs[|configs| - 1].id == id then 1 else 0
  }

  lemma CountOne(configs: seq<SubnetConfig>, more: seq<SubnetConfig>, id: nat)
    requires |more| <= 1
    ensures CountId(configs + more, id) == CountId(configs, id) + if more != [] && more[0].id == id then 1 else 0
  {
    if more == [] {
      assert configs + more == configs;
    } else {
      assert (configs + more)[..|configs|] == configs;
    }
  }

  predicate DistinctSubnets(subnets: seq<SubnetPayload>) {
    forall i, j :: 0 <= i < j < |subnets| ==> subnets[i].id != subnets[j].id
  }

  /** Whether the subnet belongs in the family's configuration. */
  predicate Belongs(sp: SubnetPayload, family: Family) {
    sp.row.enabled && sp.row.family == family
  }

  lemma CountStep(subnets: seq<SubnetPayload>, family: Family, id: nat)
    requires subnets != []
    ensures var front, last := subnets[..|subnets| - 1], subnets[|subnets| - 1];
            CountId(Flat(CompleteFor(family), subnets), id)
            == CountId(Flat(CompleteFor(family), front), id) + if Belongs(last, family) && last.id == id then 1 else 0
  {
    CountOne(Flat(CompleteFor(family), subnets[..|subnets| - 1]), CompleteFor(family)(subnets[|subnets| - 1]), id);
  }

  lemma {:induction false} NotCounted(subnets: seq<SubnetPayload>, family: Family, id: nat)
    requires forall i :: 0 <= i < |subnets| ==> subnets[i].id != id
    ensures CountId(Flat(CompleteFor(family), subnets), id) == 0
  {
    if subnets != [] {
      NotCounted(subnets[..|subnets| - 1], family, id);
      CountStep(subnets, family, id);
    }
  }

  lemma {:induction false} CountedOnce(subnets: seq<SubnetPayload>, family: Family, i: nat)
    requires DistinctSubnets(subnets) && i < |subnets|
    ensures CountId(Flat(CompleteFor(family), subnets), subnets[i].id) == if Belongs(subnets[i], family) then 1 else 0
  {
    var front, last := subnets[..|subnets| - 1], subnets[|subnets| - 1];
    var id := subnets[i].id;
    CountStep(subnets, family, id);
    if i < |front| {
      assert front[i] == subnets[i] && last.id != id;
      CountedOnce(front, family, i);
    } else {
      NotCounted(front, family, id);
    }
  }

  function ConfigOf(files: Files, family: Family): Option<Config> {
    if family.V4? then files.dhcp4 else files.dhcp6
  }

  function Other(family: Family): Family {
    if family.V4? then V6 else V4
  }

  /** After applying a payload copied from a sound store, every enabled subnet of the server
      stands exactly once, complete, in the configuration of its family, and not at all in
      the other one. */
  lemma EnabledSubnetExactlyOnce(p: Payload, s: Store, server: nat, id: nat)
    requires Sound(s) && Copies(p, s, server)
    requires id in s.subnets && s.subnets[id].server == server && s.subnets[id].enabled
    ensures var family := s.subnets[id].family;
            && ConfigOf(Applied(p), family).Some?
            && CountId(ConfigOf(Applied(p), family).value.subnets, id) == 1
            && (exists sp :: sp in p.subnets && sp.id == id && Complete(sp) in ConfigOf(Applied(p), family).value.subnets)
            && (ConfigOf(Applied(p), Other(family)).Some?
                ==> CountId(ConfigOf(Applied(p), Other(family)).value.subnets, id) == 0)
  {
    var family := s.subnets[id].family;
    assert SubnetSound(s.subnets[id], s.servers);
    var i := PayloadIndex(p, s, server, id);
    RenderedIsComplete(p, s, server, family);
    RenderedIsComplete(p, s, server, Other(family));
    CountedOnce(p.subnets, family, i);
    CountedOnce(p.subnets, Other(family), i);
    EntryPresent(p.subnets, family, i);
  }

  lemma PayloadIndex(p: Payload, s: Store, server: nat, id: nat) returns (i: nat)
    requires Copies(p, s, server) && id in s.subnets && s.subnets[id].server == server
    ensures i < |p.subnets| && p.subnets[i].id == id && p.subnets[i].row == s.subnets[id]
    ensures DistinctSubnets(p.subnets)
  {
    i :| 0 <= i < |p.subnets| && p.subnets[i].id == id;
    assert CopiesSubnet(p.subnets[i], s, server);
  }

  lemma EntryPresent(subnets: seq<SubnetPayload>, family: Family, i: nat)
    requires i < |subnets| && Belongs(subnets[i], family)
    ensures subnets[i] in subnets && Complete(subnets[i]) in Flat(CompleteFor(family), subnets)
  {
    FlatMembers(CompleteFor(family), subnets, Complete(subnets[i]));
  }

  /** Every rendered entry is an enabled subnet of the server, in its own family. */
  lemma EveryEntryIsASubnet(p: Payload, s: Store, server: nat, family: Family, entry: SubnetConfig)
    requires Sound(s) && Copies(p, s, server)
    requires ConfigOf(Applied(p), family).Some? && entry in ConfigOf(Applied(p), family).value.subnets
    ensures exists sp :: sp in p.subnets && Belongs(sp, family) && entry == Complete(sp) && s.subnets[sp.id] == sp.row
  {
    RenderedIsComplete(p, s, server, family);
    var i := EntryOf(p.subnets, family, entry);
    assert p.subnets[i] in p.subnets;
  }

  lemma EntryOf(subnets: seq<SubnetPayload>, family: Family, entry: SubnetConfig) returns (i: nat)
    requires entry in Flat(CompleteFor(family), subnets)
    ensures i < |subnets| && Belongs(subnets[i], family) && entry == Complete(subnets[i])
  {
    FlatMembers(CompleteFor(family), subnets, entry);
    var sp :| sp in subnets && entry in CompleteFor(family)(sp);
    i :| 0 <= i < |subnets| && subnets[i] == sp;
  }

  /** Kea's timer order: minimum, default and maximum in one family; renew, rebind and valid
      in the other, with the preferred lifetime within the valid one. */
  predicate TimersOrdered(t: Timers) {
    match t
    case V4Timers(valid, minValid, maxValid) => minValid <= valid <= maxValid
    case V6Timers(preferred, valid, renew, rebind) => renew <= rebind <= valid && preferred <= valid
  }

  /** The HA hook is there exactly when HA is on, and some configuration is written. */
  lemma HookFollowsHa(p: Payload, s: Store, server: nat, family: Family)
    requires Sound(s) && Copies(p, s, server)
    ensures |Rendered(p, family).peers| == if s.servers[server].ha then 1 else 0
    ensures ConfigOf(Applied(p), V4).Some? || ConfigOf(Applied(p), V6).Some?
  {
    assert HaOk(s.servers[server]) && FamiliesOk(s.servers[server]);
  }

  /** Every entry's timers are in the order Kea wants. */
  lemma EntriesKeepTimerOrder(p: Payload, s: Store, server: nat, family: Family, entry: SubnetConfig)
    requires Sound(s) && Copies(p, s, server) && entry in Rendered(p, family).subnets
    ensures TimersOrdered(entry.timers)
  {
    RenderedIsComplete(p, s, server, family);
    var i := EntryOf(p.subnets, family, entry);
    assert SubnetSound(s.subnets[p.subnets[i].id], s.servers);
  }

  // ---- What the invariant is for -----------------------------------------------------------

  lemma {:induction false} FewerPools(family: Family, items: seq<Item<Pool>>)
    ensures |Flat(PoolsFor(family), items)| <= |Flat(EnabledPool, items)|
  {
    if items != [] { FewerPools(family, items[..|items| - 1]); }
  }

  /** A subnet's enabled pools are all rendered exactly when none has another family: without
      the handlers' check, a mismatched pool disappears without an error. */
  lemma {:induction false} PoolsKeptIff(family: Family, items: seq<Item<Pool>>)
    ensures Flat(PoolsFor(family), items) == Flat(EnabledPool, items)
            <==> forall i :: 0 <= i < |items| && items[i].row.body.enabled ==> items[i].row.family == family
  {
    if items != [] {
      var front, last := items[..|items| - 1], items[|items| - 1];
      PoolsKeptIff(family, front);
      FewerPools(family, front);
      var kept, all := Flat(PoolsFor(family), front), Flat(EnabledPool, front);
      var k, a := PoolsFor(family)(last), EnabledPool(last);
      if kept + k == all + a && |k| == |a| {
        assert kept == (kept + k)[..|kept|] && all == (all + a)[..|all|];
      }
      assert forall i :: 0 <= i < |front| ==> front[i] == items[i];
    }
  }
}
