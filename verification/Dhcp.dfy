/** The console's DHCP handlers: servers, subnets, and the pools, reservations and options
    below them, with the checks that keep families, leases and HA settings in order. */
module Dhcp {
  import opened Wrappers

  // ---- Rows ---------------------------------------------------------------------

  datatype Family = V4 | V6

  /** A patched field: absent from the request, sent as null, or sent with a value. */
  datatype Patch<T> = Keep | Null | Set(value: T)

  /** Flags and texts a request may null out; null reads as false and as "". */
  function Patched<T>(p: Patch<T>, current: T, empty: T): T {
    match p
    case Keep => current
    case Null => empty
    case Set(v) => v
  }

  datatype Server = Server(v4: bool, v6: bool, ha: bool, peer: string)

  datatype Subnet = Subnet(server: nat, family: Family, cidr: string, enabled: bool,
                           leaseMin: int, leaseDefault: int, leaseMax: int,
                           routers: seq<string>, dns: seq<string>, ntp: seq<string>, domain: string,
                           relays: seq<string>, interface: string)

  /** A row below a subnet, with its own copy of the family. */
  datatype Row<T> = Row(subnet: nat, family: Family, body: T)

  datatype Pool = Pool(start: string, end: string, enabled: bool)

  datatype Reservation = Reservation(hostname: string, ip: string, hw: string)

  datatype DhcpOption = DhcpOption(code: nat, name: string, value: string)

  datatype Store = Store(servers: map<nat, Server>, subnets: map<nat, Subnet>,
                         pools: map<nat, Row<Pool>>, reservations: map<nat, Row<Reservation>>,
                         options: map<nat, Row<DhcpOption>>, next: nat)

  const Empty: Store := Store(map[], map[], map[], map[], map[], 0)

  /** Done, unknown id, refused by a check, or an unhandled error before anything is stored. */
  datatype Outcome = Done | NotFound | Rejected | Crashed

  // ---- Checks ---------------------------------------------------------------------

  predicate Serves(server: Server, family: Family) {
    if family.V4? then server.v4 else server.v6
  }

  predicate FamiliesOk(server: Server) {
    server.v4 || server.v6
  }

  predicate HaOk(server: Server) {
    server.ha ==> server.peer != ""
  }

  predicate LeasesOk(subnet: Subnet) {
    subnet.leaseMin <= subnet.leaseDefault <= subnet.leaseMax
  }

  datatype ServerPatch = ServerPatch(v4: Patch<bool>, v6: Patch<bool>, ha: Patch<bool>, peer: Patch<string>, nameNull: bool)

  function PatchedServer(server: Server, p: ServerPatch): Server {
    Server(Patched(p.v4, server.v4, false), Patched(p.v6, server.v6, false),
           Patched(p.ha, server.ha, false), Patched(p.peer, server.peer, ""))
  }

  /** A subnet of the server whose family `server` would not serve. */
  predicate Strands(subnet: Subnet, id: nat, server: Server) {
    subnet.server == id && !Serves(server, subnet.family)
  }

  predicate StrandsSome(subnets: map<nat, Subnet>, id: nat, server: Server) {
    exists k :: k in subnets && Strands(subnets[k], id, server)
  }

  /** A family goes from served to not served. */
  predicate Narrows(before: Server, after: Server) {
    (before.v4 && !after.v4) || (before.v6 && !after.v6)
  }

  datatype SubnetPatch = SubnetPatch(enabled: Patch<bool>, leaseMin: Patch<int>, leaseDefault: Patch<int>, leaseMax: Patch<int>,
                                     routers: Patch<seq<string>>, dns: Patch<seq<string>>, ntp: Patch<seq<string>>,
                                     domain: Patch<string>, relays: Patch<seq<string>>, interface: Patch<string>,
                                     cidr: Patch<string>, nameNull: bool)

  function PatchedSubnet(s: Subnet, p: SubnetPatch): Subnet {
    Subnet(s.server, s.family, Patched(p.cidr, s.cidr, ""), Patched(p.enabled, s.enabled, false),
           Patched(p.leaseMin, s.leaseMin, 0), Patched(p.leaseDefault, s.leaseDefault, 0),
           Patched(p.leaseMax, s.leaseMax, 0),
           Patched(p.routers, s.routers, []), Patched(p.dns, s.dns, []), Patched(p.ntp, s.ntp, []),
           Patched(p.domain, s.domain, ""), Patched(p.relays, s.relays, []), Patched(p.interface, s.interface, ""))
  }

  /** The lease check compares numbers; a null in a comparison it reaches is a type error. */
  function LeaseVerdict(s: Subnet, p: SubnetPatch): Outcome {
    var after := PatchedSubnet(s, p);
    if p.leaseMin.Null? || p.leaseDefault.Null? then Crashed
    else if after.leaseMin > after.leaseDefault then Rejected
    else if p.leaseMax.Null? then Crashed
    else if after.leaseDefault > after.leaseMax then Rejected
    else Done
  }

  // ---- The handlers as functions -----------------------------------------------------

  function CreatedServer(s: Store, instance: bool, server: Server): (Outcome, Store) {
    if !instance then (NotFound, s)
    else if !FamiliesOk(server) || !HaOk(server) then (Rejected, s)
    else (Done, s.(servers := s.servers[s.next := server], next := s.next + 1))
  }

  function UpdatedServer(s: Store, id: nat, p: ServerPatch): (Outcome, Store) {
    if id !in s.servers then (NotFound, s)
    else
      var after := PatchedServer(s.servers[id], p);
      if !FamiliesOk(after) || !HaOk(after) then (Rejected, s)
      else if Narrows(s.servers[id], after) && StrandsSome(s.subnets, id, after) then (Rejected, s)
      else if p.nameNull then (Crashed, s)
      else (Done, s.(servers := s.servers[id := after]))
  }

  function Under<T>(rows: map<nat, Row<T>>, subnets: set<nat>): map<nat, Row<T>> {
    map id | id in rows && rows[id].subnet in subnets :: rows[id]
  }

  /** Remaining rows once the subnets are cut to `kept`: deletes cascade. */
  function CutTo(s: Store, kept: map<nat, Subnet>): Store {
    s.(subnets := kept, pools := Under(s.pools, kept.Keys),
       reservations := Under(s.reservations, kept.Keys), options := Under(s.options, kept.Keys))
  }

  function SubnetsElsewhere(subnets: map<nat, Subnet>, server: nat): map<nat, Subnet> {
    map id | id in subnets && subnets[id].server != server :: subnets[id]
  }

  function DeletedServer(s: Store, id: nat): (Outcome, Store) {
    if id !in s.servers then (NotFound, s)
    else (Done, CutTo(s.(servers := s.servers - {id}), SubnetsElsewhere(s.subnets, id)))
  }

  function CreatedSubnet(s: Store, server: nat, subnet: Subnet): (Outcome, Store) {
    if server !in s.servers then (NotFound, s)
    else if !Serves(s.servers[server], subnet.family) || !LeasesOk(subnet) then (Rejected, s)
    else (Done, s.(subnets := s.subnets[s.next := subnet.(server := server)], next := s.next + 1))
  }

  function UpdatedSubnet(s: Store, id: nat, p: SubnetPatch): (Outcome, Store) {
    if id !in s.subnets then (NotFound, s)
    else
      var verdict := LeaseVerdict(s.subnets[id], p);
      if !verdict.Done? then (verdict, s)
      else if p.nameNull || p.cidr.Null? then (Crashed, s)
      else (Done, s.(subnets := s.subnets[id := PatchedSubnet(s.subnets[id], p)]))
  }

  function DeletedSubnet(s: Store, id: nat): (Outcome, Store) {
    if id !in s.subnets then (NotFound, s) else (Done, CutTo(s, s.subnets - {id}))
  }

  // The rows below a subnet share one shape of handler.

  function CreatedRow<T>(rows: map<nat, Row<T>>, id: nat, subnets: map<nat, Subnet>, subnet: nat, family: Family, body: T)
    : (Outcome, map<nat, Row<T>>)
  {
    if subnet !in subnets then (NotFound, rows)
    else if family != subnets[subnet].family then (Rejected, rows)
    else (Done, rows[id := Row(subnet, family, body)])
  }

  /** `body` is None when a column that may not be null would become null. */
  function UpdatedRow<T>(rows: map<nat, Row<T>>, id: nat, body: Option<T>): (Outcome, map<nat, Row<T>>)
    requires id in rows
  {
    if body.None? then (Crashed, rows) else (Done, rows[id := rows[id].(body := body.value)])
  }

  function DeletedRow<T>(rows: map<nat, Row<T>>, id: nat): (Outcome, map<nat, Row<T>>) {
    if id !in rows then (NotFound, rows) else (Done, rows - {id})
  }

  datatype PoolPatch = PoolPatch(start: Patch<string>, end: Patch<string>, enabled: Patch<bool>)

  function PatchedPool(b: Pool, p: PoolPatch): Option<Pool> {
    if p.start.Null? || p.end.Null? then None
    else Some(Pool(Patched(p.start, b.start, ""), Patched(p.end, b.end, ""), Patched(p.enabled, b.enabled, false)))
  }

  datatype ReservationPatch = ReservationPatch(hostname: Patch<string>, ip: Patch<string>, hw: Patch<string>)

  function PatchedReservation(b: Reservation, p: ReservationPatch): Option<Reservation> {
    if p.ip.Null? || p.hw.Null? then None
    else Some(Reservation(Patched(p.hostname, b.hostname, ""), Patched(p.ip, b.ip, ""), Patched(p.hw, b.hw, "")))
  }

  datatype OptionPatch = OptionPatch(code: Patch<nat>, name: Patch<string>, value: Patch<string>)

  function PatchedOption(b: DhcpOption, p: OptionPatch): Option<DhcpOption> {
    if p.code.Null? || p.name.Null? || p.value.Null? then None
    else Some(DhcpOption(Patched(p.code, b.code, 0), Patched(p.name, b.name, ""), Patched(p.value, b.value, "")))
  }

  // ---- Events and their steps -----------------------------------------------------------

  datatype Event =
    | CreateServer(instance: bool, server: Server)
    | UpdateServer(id: nat, serverPatch: ServerPatch)
    | DeleteServer(id: nat)
    | CreateSubnet(id: nat, subnet: Subnet)
    | UpdateSubnet(id: nat, subnetPatch: SubnetPatch)
    | DeleteSubnet(id: nat)
    | CreatePool(id: nat, family: Family, pool: Pool)
    | UpdatePool(id: nat, poolPatch: PoolPatch)
    | DeletePool(id: nat)
    | CreateReservation(id: nat, family: Family, reservation: Reservation)
    | UpdateReservation(id: nat, reservationPatch: ReservationPatch)
    | DeleteReservation(id: nat)
    | CreateOption(id: nat, family: Family, option: DhcpOption)
    | UpdateOption(id: nat, optionPatch: OptionPatch)
    | DeleteOption(id: nat)

  function WithPools(s: Store, r: (Outcome, map<nat, Row<Pool>>), used: nat): (Outcome, Store) {
    (r.0, s.(pools := r.1, next := s.next + if r.0.Done? then used else 0))
  }

  function WithReservations(s: Store, r: (Outcome, map<nat, Row<Reservation>>), used: nat): (Outcome, Store) {
    (r.0, s.(reservations := r.1, next := s.next + if r.0.Done? then used else 0))
  }

  function WithOptions(s: Store, r: (Outcome, map<nat, Row<DhcpOption>>), used: nat): (Outcome, Store) {
    (r.0, s.(options := r.1, next := s.next + if r.0.Done? then used else 0))
  }

  /** One counter hands out every id; a created row uses one. */
  function Step(s: Store, e: Event): (Outcome, Store) {
    match e
    case CreateServer(instance, server) => CreatedServer(s, instance, server)
    case UpdateServer(id, p) => UpdatedServer(s, id, p)
    case DeleteServer(id) => DeletedServer(s, id)
    case CreateSubnet(id, subnet) => CreatedSubnet(s, id, subnet)
    case UpdateSubnet(id, p) => UpdatedSubnet(s, id, p)
    case DeleteSubnet(id) => DeletedSubnet(s, id)
    case CreatePool(id, family, b) => WithPools(s, CreatedRow(s.pools, s.next, s.subnets, id, family, b), 1)
    case UpdatePool(id, p) =>
      if id !in s.pools then (NotFound, s) else WithPools(s, UpdatedRow(s.pools, id, PatchedPool(s.pools[id].body, p)), 0)
    case DeletePool(id) => WithPools(s, DeletedRow(s.pools, id), 0)
    case CreateReservation(id, family, b) => WithReservations(s, CreatedRow(s.reservations, s.next, s.subnets, id, family, b), 1)
    case UpdateReservation(id, p) =>
      if id !in s.reservations then (NotFound, s)
      else WithReservations(s, UpdatedRow(s.reservations, id, PatchedReservation(s.reservations[id].body, p)), 0)
    case DeleteReservation(id) => WithReservations(s, DeletedRow(s.reservations, id), 0)
    case CreateOption(id, family, b) => WithOptions(s, CreatedRow(s.options, s.next, s.subnets, id, family, b), 1)
    case UpdateOption(id, p) =>
      if id !in s.options then (NotFound, s) else WithOptions(s, UpdatedRow(s.options, id, PatchedOption(s.options[id].body, p)), 0)
    case DeleteOption(id) => WithOptions(s, DeletedRow(s.options, id), 0)
  }

  function Run(s: Store, events: seq<Event>): Store
    decreases |events|
  {
    if events == [] then s else Run(Step(s, events[0]).1, events[1..])
  }

  // ---- The handlers ----------------------------------------------------------------------

  class Console {
    var servers: map<nat, Server>
    var subnets: map<nat, Subnet>
    var pools: map<nat, Row<Pool>>
    var reservations: map<nat, Row<Reservation>>
    var options: map<nat, Row<DhcpOption>>
    var next: nat

    constructor ()
      ensures Contents() == Empty
    {
      servers, subnets, pools, reservations, options, next := map[], map[], map[], map[], map[], 0;
    }

    ghost function Contents(): Store
      reads this
    {
      Store(servers, subnets, pools, reservations, options, next)
    }

    method AddServer(instance: bool, server: Server) returns (outcome: Outcome)
      modifies this
      ensures outcome == Step(old(Contents()), CreateServer(instance, server)).0
      ensures Contents() == Step(old(Contents()), CreateServer(instance, server)).1
    {
      if !instance { return NotFound; }
      if !FamiliesOk(server) || !HaOk(server) { return Rejected; }
      servers := servers[next := server];
      next := next + 1;
      outcome := Done;
    }

    method PatchServer(id: nat, p: ServerPatch) returns (outcome: Outcome)
      modifies this`servers
      ensures outcome == Step(old(Contents()), UpdateServer(id, p)).0
      ensures Contents() == Step(old(Contents()), UpdateServer(id, p)).1
    {
      if id !in servers { return NotFound; }
      var after := PatchedServer(servers[id], p);
      if !FamiliesOk(after) || !HaOk(after) { return Rejected; }
      if Narrows(servers[id], after) {
        var strands := FindStranded(id, after);
        if strands { return Rejected; }
      }
      if p.nameNull { return Crashed; }
      servers := servers[id := after];
      outcome := Done;
    }

    /** Look through the server's subnets for one the patched server would not serve. */
    method FindStranded(id: nat, after: Server) returns (found: bool)
      ensures found == StrandsSome(subnets, id, after)
    {
      var left := subnets.Keys;
      while left != {}
        invariant left <= subnets.Keys
        invariant forall k :: k in subnets && k !in left ==> !Strands(subnets[k], id, after)
        decreases |left|
      {
        var k :| k in left;
        if Strands(subnets[k], id, after) { return true; }
        left := left - {k};
      }
      found := false;
    }

    method RemoveServer(id: nat) returns (outcome: Outcome)
      modifies this
      ensures outcome == Step(old(Contents()), DeleteServer(id)).0
      ensures Contents() == Step(old(Contents()), DeleteServer(id)).1
    {
      if id !in servers { return NotFound; }
      servers := servers - {id};
      subnets := SubnetsElsewhere(subnets, id);
      Cascade();
      outcome := Done;
    }

    method Cascade()
      modifies this`pools, this`reservations, this`options
      ensures pools == Under(old(pools), subnets.Keys) && reservations == Under(old(reservations), subnets.Keys)
      ensures options == Under(old(options), subnets.Keys)
    {
      pools, reservations := Under(pools, subnets.Keys), Under(reservations, subnets.Keys);
      options := Under(options, subnets.Keys);
    }

    method AddSubnet(server: nat, subnet: Subnet) returns (outcome: Outcome)
      modifies this
      ensures outcome == Step(old(Contents()), CreateSubnet(server, subnet)).0
      ensures Contents() == Step(old(Contents()), CreateSubnet(server, subnet)).1
    {
      if server !in servers { return NotFound; }
      if !Serves(servers[server], subnet.family) { return Rejected; }
      if !LeasesOk(subnet) { return Rejected; }
      subnets := subnets[next := subnet.(server := server)];
      next := next + 1;
      outcome := Done;
    }

    method PatchSubnet(id: nat, p: SubnetPatch) returns (outcome: Outcome)
      modifies this`subnets
      ensures outcome == Step(old(Contents()), UpdateSubnet(id, p)).0
      ensures Contents() == Step(old(Contents()), UpdateSubnet(id, p)).1
    {
      if id !in subnets { return NotFound; }
      var verdict := LeaseVerdict(subnets[id], p);
      if !verdict.Done? { return verdict; }
      if p.nameNull || p.cidr.Null? { return Crashed; }
      subnets := subnets[id := PatchedSubnet(subnets[id], p)];
      outcome := Done;
    }

    method RemoveSubnet(id: nat) returns (outcome: Outcome)
      modifies this
      ensures outcome == Step(old(Contents()), DeleteSubnet(id)).0
      ensures Contents() == Step(old(Contents()), DeleteSubnet(id)).1
    {
      if id !in subnets { return NotFound; }
      subnets := subnets - {id};
      Cascade();
      outcome := Done;
    }

    method AddPool(subnet: nat, family: Family, body: Pool) returns (outcome: Outcome)
      modifies this`pools, this`next
      ensures outcome == Step(old(Contents()), CreatePool(subnet, family, body)).0
      ensures Contents() == Step(old(Contents()), CreatePool(subnet, family, body)).1
    {
      if subnet !in subnets { return NotFound; }
      if family != subnets[subnet].family { return Rejected; }
      pools := pools[next := Row(subnet, family, body)];
      next := next + 1;
      outcome := Done;
    }

    method PatchPool(id: nat, p: PoolPatch) returns (outcome: Outcome)
      modifies this`pools
      ensures outcome == Step(old(Contents()), UpdatePool(id, p)).0
      ensures Contents() == Step(old(Contents()), UpdatePool(id, p)).1
    {
      if id !in pools { return NotFound; }
      var body := PatchedPool(pools[id].body, p);
      if body.None? { return Crashed; }
      pools := pools[id := pools[id].(body := body.value)];
      outcome := Done;
    }

    method RemovePool(id: nat) returns (outcome: Outcome)
      modifies this`pools
      ensures outcome == Step(old(Contents()), DeletePool(id)).0
      ensures Contents() == Step(old(Contents()), DeletePool(id)).1
    {
      if id !in pools { return NotFound; }
      pools := pools - {id};
      outcome := Done;
    }

    method AddReservation(subnet: nat, family: Family, body: Reservation) returns (outcome: Outcome)
      modifies this`reservations, this`next
      ensures outcome == Step(old(Contents()), CreateReservation(subnet, family, body)).0
      ensures Contents() == Step(old(Contents()), CreateReservation(subnet, family, body)).1
    {
      if subnet !in subnets { return NotFound; }
      if family != subnets[subnet].family { return Rejected; }
      reservations := reservations[next := Row(subnet, family, body)];
      next := next + 1;
      outcome := Done;
    }

    method PatchReservation(id: nat, p: ReservationPatch) returns (outcome: Outcome)
      modifies this`reservations
      ensures outcome == Step(old(Contents()), UpdateReservation(id, p)).0
      ensures Contents() == Step(old(Contents()), UpdateReservation(id, p)).1
    {
      if id !in reservations { return NotFound; }
      var body := PatchedReservation(reservations[id].body, p);
      if body.None? { return Crashed; }
      reservations := reservations[id := reservations[id].(body := body.value)];
      outcome := Done;
    }

    method RemoveReservation(id: nat) returns (outcome: Outcome)
      modifies this`reservations
      ensures outcome == Step(old(Contents()), DeleteReservation(id)).0
      ensures Contents() == Step(old(Contents()), DeleteReservation(id)).1
    {
      if id !in reservations { return NotFound; }
      reservations := reservations - {id};
      outcome := Done;
    }

    method AddOption(subnet: nat, family: Family, body: DhcpOption) returns (outcome: Outcome)
      modifies this`options, this`next
      ensures outcome == Step(old(Contents()), CreateOption(subnet, family, body)).0
      ensures Contents() == Step(old(Contents()), CreateOption(subnet, family, body)).1
    {
      if subnet !in subnets { return NotFound; }
      if family != subnets[subnet].family { return Rejected; }
      options := options[next := Row(subnet, family, body)];
      next := next + 1;
      outcome := Done;
    }

    method PatchOption(id: nat, p: OptionPatch) returns (outcome: Outcome)
      modifies this`options
      ensures outcome == Step(old(Contents()), UpdateOption(id, p)).0
      ensures Contents() == Step(old(Contents()), UpdateOption(id, p)).1
    {
      if id !in options { return NotFound; }
      var body := PatchedOption(options[id].body, p);
      if body.None? { return Crashed; }
      options := options[id := options[id].(body := body.value)];
      outcome := Done;
    }

    method RemoveOption(id: nat) returns (outcome: Outcome)
      modifies this`options
      ensures outcome == Step(old(Contents()), DeleteOption(id)).0
      ensures Contents() == Step(old(Contents()), DeleteOption(id)).1
    {
      if id !in options { return NotFound; }
      options := options - {id};
      outcome := Done;
    }
  }

  // ---- The invariant -----------------------------------------------------------------

  predicate ServersSound(servers: map<nat, Server>, next: nat) {
    forall id :: id in servers ==> id < next && FamiliesOk(servers[id]) && HaOk(servers[id])
  }

  predicate SubnetSound(subnet: Subnet, servers: map<nat, Server>) {
    subnet.server in servers && Serves(servers[subnet.server], subnet.family) && LeasesOk(subnet)
  }

  predicate SubnetsSound(subnets: map<nat, Subnet>, servers: map<nat, Server>, next: nat) {
    forall id :: id in subnets ==> id < next && SubnetSound(subnets[id], servers)
  }

  predicate RowsSound<T>(rows: map<nat, Row<T>>, subnets: map<nat, Subnet>, next: nat) {
    forall id :: id in rows ==>
      id < next && rows[id].subnet in subnets && rows[id].family == subnets[rows[id].subnet].family
  }

  /** Every server serves a family and has a peer when HA is on; every subnet's family is
      served and its lease times are ordered; every row below it has its family. */
  predicate Sound(s: Store) {
    && ServersSound(s.servers, s.next)
    && SubnetsSound(s.subnets, s.servers, s.next)
    && RowsSound(s.pools, s.subnets, s.next)
    && RowsSound(s.reservations, s.subnets, s.next)
    && RowsSound(s.options, s.subnets, s.next)
  }

  // ---- What a request asks to store -----------------------------------------------------

  /** The patched subnet; where the greatest lease time is nulled out, it is the one that
      fits best. */
  function BestFit(subnet: Subnet, p: SubnetPatch): Subnet {
    var after := PatchedSubnet(subnet, p);
    if p.leaseMax.Null? then after.(leaseMax := after.leaseDefault) else after
  }

  /** The store a create or update asks for, checks aside; None when the row it names is
      unknown or a null leaves nothing that could be stored or compared. */
  function Demanded(s: Store, e: Event): Option<Store> {
    match e
    case CreateServer(instance, server) =>
      if instance then Some(s.(servers := s.servers[s.next := server], next := s.next + 1)) else None
    case UpdateServer(id, p) =>
      if id in s.servers then Some(s.(servers := s.servers[id := PatchedServer(s.servers[id], p)])) else None
    case DeleteServer(_) => None
    case CreateSubnet(id, subnet) =>
      if id in s.servers then Some(s.(subnets := s.subnets[s.next := subnet.(server := id)], next := s.next + 1))
      else None
    case UpdateSubnet(id, p) =>
      if id in s.subnets && !p.leaseMin.Null? && !p.leaseDefault.Null? then
        Some(s.(subnets := s.subnets[id := BestFit(s.subnets[id], p)]))
      else None
    case DeleteSubnet(_) => None
    case CreatePool(id, family, b) =>
      if id in s.subnets then Some(s.(pools := s.pools[s.next := Row(id, family, b)], next := s.next + 1)) else None
    case UpdatePool(id, p) =>
      if id !in s.pools then None
      else
        var b := PatchedPool(s.pools[id].body, p);
        if b.None? then None else Some(s.(pools := s.pools[id := s.pools[id].(body := b.value)]))
    case DeletePool(_) => None
    case CreateReservation(id, family, b) =>
      if id in s.subnets then Some(s.(reservations := s.reservations[s.next := Row(id, family, b)], next := s.next + 1))
      else None
    case UpdateReservation(id, p) =>
      if id !in s.reservations then None
      else
        var b := PatchedReservation(s.reservations[id].body, p);
        if b.None? then None
        else Some(s.(reservations := s.reservations[id := s.reservations[id].(body := b.value)]))
    case DeleteReservation(_) => None
    case CreateOption(id, family, b) =>
      if id in s.subnets then Some(s.(options := s.options[s.next := Row(id, family, b)], next := s.next + 1)) else None
    case UpdateOption(id, p) =>
      if id !in s.options then None
      else
        var b := PatchedOption(s.options[id].body, p);
        if b.None? then None else Some(s.(options := s.options[id := s.options[id].(body := b.value)]))
    case DeleteOption(_) => None
  }

  /** A counter that moves on disturbs nothing. */
  lemma NextMayGrow(s: Store, next: nat)
    requires Sound(s) && next >= s.next
    ensures Sound(s.(next := next))
  {
  }

  lemma NewServerIff(s: Store, server: Server)
    requires Sound(s)
    ensures Sound(s.(servers := s.servers[s.next := server], next := s.next + 1)) <==> FamiliesOk(server) && HaOk(server)
  {
    var servers := s.servers[s.next := server];
    NextMayGrow(s, s.next + 1);
    assert s.next in servers;
    forall k | k in s.subnets ensures SubnetSound(s.subnets[k], servers) { assert SubnetSound(s.subnets[k], s.servers); }
  }

  /** A patched server is in order exactly when it strands no subnet. */
  lemma PatchedServerIff(s: Store, id: nat, after: Server)
    requires Sound(s) && id in s.servers
    ensures Sound(s.(servers := s.servers[id := after]))
            <==> FamiliesOk(after) && HaOk(after) && !StrandsSome(s.subnets, id, after)
  {
    var servers := s.servers[id := after];
    assert id in servers;
    forall k | k in s.subnets ensures SubnetSound(s.subnets[k], servers) <==> !Strands(s.subnets[k], id, after) {
      assert SubnetSound(s.subnets[k], s.servers);
    }
    if StrandsSome(s.subnets, id, after) { var k :| k in s.subnets && Strands(s.subnets[k], id, after); }
  }

  /** The check is made only when a family is turned off, and that is enough. */
  lemma NarrowingCatchesAll(s: Store, id: nat, after: Server)
    requires Sound(s) && id in s.servers && StrandsSome(s.subnets, id, after)
    ensures Narrows(s.servers[id], after)
  {
    var k :| k in s.subnets && Strands(s.subnets[k], id, after);
    assert SubnetSound(s.subnets[k], s.servers);
  }

  lemma NewSubnetIff(s: Store, id: nat, subnet: Subnet)
    requires Sound(s) && id in s.servers
    ensures Sound(s.(subnets := s.subnets[s.next := subnet.(server := id)], next := s.next + 1))
            <==> Serves(s.servers[id], subnet.family) && LeasesOk(subnet)
  {
    var subnets := s.subnets[s.next := subnet.(server := id)];
    NextMayGrow(s, s.next + 1);
    assert s.next in subnets;
    assert subnets[s.next].server == id && subnets[s.next].family == subnet.family;
  }

  lemma PatchedSubnetIff(s: Store, id: nat, after: Subnet)
    requires Sound(s) && id in s.subnets && after.server == s.subnets[id].server && after.family == s.subnets[id].family
    ensures Sound(s.(subnets := s.subnets[id := after])) <==> LeasesOk(after)
  {
    var subnets := s.subnets[id := after];
    assert id in subnets && SubnetSound(s.subnets[id], s.servers);
  }

  lemma NewRowIff<T>(rows: map<nat, Row<T>>, subnets: map<nat, Subnet>, next: nat, subnet: nat, family: Family, body: T)
    requires RowsSound(rows, subnets, next) && subnet in subnets
    ensures RowsSound(rows[next := Row(subnet, family, body)], subnets, next + 1) <==> family == subnets[subnet].family
  {
    assert next in rows[next := Row(subnet, family, body)];
  }

  /** A request breaks the invariant: it asks for something that would. */
  predicate Breaks(s: Store, e: Event) {
    Demanded(s, e).Some? && !Sound(Demanded(s, e).value)
  }

  /** In a sound state a create or update is refused exactly when storing what it asks for
      would break the invariant. */
  lemma RejectedIff(s: Store, e: Event)
    requires Sound(s)
    ensures Step(s, e).0.Rejected? <==> Breaks(s, e)
  {
    match e
    case CreateServer(_, server) => NewServerIff(s, server);
    case UpdateServer(id, p) => RejectedServerIff(s, id, p);
    case DeleteServer(_) =>
    case CreateSubnet(id, subnet) => if id in s.servers { NewSubnetIff(s, id, subnet); }
    case UpdateSubnet(id, p) => RejectedSubnetIff(s, id, p);
    case DeleteSubnet(_) =>
    case CreatePool(id, family, b) => RejectedPoolIff(s, id, family, b);
    case UpdatePool(_, _) => RowUpdatesBreakNothing(s, e);
    case DeletePool(_) =>
    case CreateReservation(id, family, b) => RejectedReservationIff(s, id, family, b);
    case UpdateReservation(_, _) => RowUpdatesBreakNothing(s, e);
    case DeleteReservation(_) =>
    case CreateOption(id, family, b) => RejectedOptionIff(s, id, family, b);
    case UpdateOption(_, _) => RowUpdatesBreakNothing(s, e);
    case DeleteOption(_) =>
  }

  /** What a create or update stores is what it asks for. */
  lemma DoneStoresDemanded(s: Store, e: Event)
    ensures Step(s, e).0.Done? && Demanded(s, e).Some? ==> Step(s, e).1 == Demanded(s, e).value
  {
  }

  lemma RejectedServerIff(s: Store, id: nat, p: ServerPatch)
    requires Sound(s)
    ensures Step(s, UpdateServer(id, p)).0.Rejected? <==> Breaks(s, UpdateServer(id, p))
  {
    if id in s.servers {
      var after := PatchedServer(s.servers[id], p);
      PatchedServerIff(s, id, after);
      if StrandsSome(s.subnets, id, after) { NarrowingCatchesAll(s, id, after); }
    }
  }

  lemma RejectedSubnetIff(s: Store, id: nat, p: SubnetPatch)
    requires Sound(s)
    ensures Step(s, UpdateSubnet(id, p)).0.Rejected? <==> Breaks(s, UpdateSubnet(id, p))
  {
    if id in s.subnets { PatchedSubnetIff(s, id, BestFit(s.subnets[id], p)); }
  }

  /** A patch reaches neither a row's family nor its subnet. */
  lemma RowUpdatesBreakNothing(s: Store, e: Event)
    requires Sound(s) && (e.UpdatePool? || e.UpdateReservation? || e.UpdateOption?)
    ensures !Step(s, e).0.Rejected? && !Breaks(s, e)
  {
  }

  lemma RejectedPoolIff(s: Store, id: nat, family: Family, b: Pool)
    requires Sound(s)
    ensures Step(s, CreatePool(id, family, b)).0.Rejected? <==> Breaks(s, CreatePool(id, family, b))
  {
    NextMayGrow(s, s.next + 1);
    if id in s.subnets { NewRowIff(s.pools, s.subnets, s.next, id, family, b); }
  }

  lemma RejectedReservationIff(s: Store, id: nat, family: Family, b: Reservation)
    requires Sound(s)
    ensures Step(s, CreateReservation(id, family, b)).0.Rejected? <==> Breaks(s, CreateReservation(id, family, b))
  {
    NextMayGrow(s, s.next + 1);
    if id in s.subnets { NewRowIff(s.reservations, s.subnets, s.next, id, family, b); }
  }

  lemma RejectedOptionIff(s: Store, id: nat, family: Family, b: DhcpOption)
    requires Sound(s)
    ensures Step(s, CreateOption(id, family, b)).0.Rejected? <==> Breaks(s, CreateOption(id, family, b))
  {
    NextMayGrow(s, s.next + 1);
    if id in s.subnets { NewRowIff(s.options, s.subnets, s.next, id, family, b); }
  }

  /** Deletes cascade to everything below. */
  lemma DeletesKeepSound(s: Store, e: Event)
    requires Sound(s) && (e.DeleteServer? || e.DeleteSubnet? || e.DeletePool? || e.DeleteReservation? || e.DeleteOption?)
    ensures Sound(Step(s, e).1)
  {
  }

  /** A request that is not done stores nothing. */
  lemma OnlyDoneStores(s: Store, e: Event)
    ensures !Step(s, e).0.Done? ==> Step(s, e).1 == s
  {
  }

  lemma StepKeepsSound(s: Store, e: Event)
    requires Sound(s)
    ensures Sound(Step(s, e).1)
  {
    if Step(s, e).0.Done? {
      if Demanded(s, e).Some? {
        RejectedIff(s, e);
        DoneStoresDemanded(s, e);
      } else {
        DeletesKeepSound(s, e);
      }
    } else {
      OnlyDoneStores(s, e);
    }
  }

  /** The invariant holds in every state the handlers can reach. */
  lemma {:induction false} RunsAreSound(s: Store, events: seq<Event>)
    requires Sound(s)
    ensures Sound(Run(s, events))
    decreases |events|
  {
    if events != [] {
      StepKeepsSound(s, events[0]);
      RunsAreSound(Step(s, events[0]).1, events[1..]);
    }
  }

  /** So in every reachable state a server update is refused exactly when it would leave no
      family, leave HA without a peer, or strand a subnet, though the subnets are looked at
      only when a family is turned off. */
  lemma UpdateServerRefusedIff(events: seq<Event>, id: nat, p: ServerPatch)
    requires id in Run(Empty, events).servers
    ensures var s := Run(Empty, events);
            var after := PatchedServer(s.servers[id], p);
            Step(s, UpdateServer(id, p)).0.Rejected?
            <==> !FamiliesOk(after) || !HaOk(after) || StrandsSome(s.subnets, id, after)
  {
    var s := Run(Empty, events);
    RunsAreSound(Empty, events);
    PatchedServerIff(s, id, PatchedServer(s.servers[id], p));
    RejectedIff(s, UpdateServer(id, p));
  }

  // ---- What each request changes -------------------------------------------------------------

  /** The tables agree everywhere else. */
  ghost predicate OnlyAt<T>(before: map<nat, T>, after: map<nat, T>, id: nat) {
    forall k :: k != id ==> (k in after <==> k in before) && (k in after ==> after[k] == before[k])
  }

  /** The entry is gone, and no other. */
  ghost predicate OnlyGone<T>(before: map<nat, T>, after: map<nat, T>, id: nat) {
    OnlyAt(before, after, id) && id in before && id !in after
  }

  /** Exactly the rows whose subnet is one of these remain, unchanged. */
  ghost predicate RemainUnder<T>(before: map<nat, Row<T>>, after: map<nat, Row<T>>, subnets: map<nat, Subnet>) {
    forall k :: (k in after <==> k in before && before[k].subnet in subnets) && (k in after ==> after[k] == before[k])
  }

  /** Deleting a server: the other servers stay, exactly their subnets stay, exactly the rows
      below those stay, and nothing that stays changes. */
  lemma ServerDeleted(s: Store, id: nat)
    requires id in s.servers
    ensures var t := Step(s, DeleteServer(id)).1;
            && Step(s, DeleteServer(id)).0 == Done && t.next == s.next
            && OnlyGone(s.servers, t.servers, id)
            && (forall k :: (k in t.subnets <==> k in s.subnets && s.subnets[k].server != id)
                            && (k in t.subnets ==> t.subnets[k] == s.subnets[k]))
            && RemainUnder(s.pools, t.pools, t.subnets) && RemainUnder(s.reservations, t.reservations, t.subnets)
            && RemainUnder(s.options, t.options, t.subnets)
  {
  }

  /** Deleting a subnet takes it away, and the rows below it. */
  lemma SubnetDeleted(s: Store, id: nat)
    requires id in s.subnets
    ensures var t := Step(s, DeleteSubnet(id)).1;
            && Step(s, DeleteSubnet(id)).0 == Done && t.next == s.next && t.servers == s.servers
            && OnlyGone(s.subnets, t.subnets, id)
            && RemainUnder(s.pools, t.pools, t.subnets) && RemainUnder(s.reservations, t.reservations, t.subnets)
            && RemainUnder(s.options, t.options, t.subnets)
  {
  }

  /** Deleting a row takes that row away, and nothing else. */
  lemma RowDeleted(s: Store, id: nat)
    ensures id in s.pools ==>
              var (outcome, t) := Step(s, DeletePool(id));
              outcome == Done && t == s.(pools := t.pools) && OnlyGone(s.pools, t.pools, id)
    ensures id in s.reservations ==>
              var (outcome, t) := Step(s, DeleteReservation(id));
              outcome == Done && t == s.(reservations := t.reservations) && OnlyGone(s.reservations, t.reservations, id)
    ensures id in s.options ==>
              var (outcome, t) := Step(s, DeleteOption(id));
              outcome == Done && t == s.(options := t.options) && OnlyGone(s.options, t.options, id)
  {
  }

  /** A create stores what was sent under a new id, and nothing else. */
  lemma CreateStores(s: Store, e: Event)
    requires Step(s, e).0 == Done
    ensures var t := Step(s, e).1;
            match e
            case CreateServer(_, server) =>
              && t == s.(servers := t.servers, next := s.next + 1) && OnlyAt(s.servers, t.servers, s.next)
              && s.next in t.servers && t.servers[s.next] == server
            case CreateSubnet(id, subnet) =>
              && t == s.(subnets := t.subnets, next := s.next + 1) && OnlyAt(s.subnets, t.subnets, s.next)
              && s.next in t.subnets && t.subnets[s.next] == subnet.(server := id)
            case CreatePool(id, family, b) =>
              && t == s.(pools := t.pools, next := s.next + 1) && OnlyAt(s.pools, t.pools, s.next)
              && s.next in t.pools && t.pools[s.next] == Row(id, family, b)
            case CreateReservation(id, family, b) =>
              && t == s.(reservations := t.reservations, next := s.next + 1)
              && OnlyAt(s.reservations, t.reservations, s.next)
              && s.next in t.reservations && t.reservations[s.next] == Row(id, family, b)
            case CreateOption(id, family, b) =>
              && t == s.(options := t.options, next := s.next + 1) && OnlyAt(s.options, t.options, s.next)
              && s.next in t.options && t.options[s.next] == Row(id, family, b)
            case _ => t.next == s.next
  {
  }

  /** A field that was not sent stays, one sent as null is emptied, and one sent with a value
      has it. */
  predicate FieldBy<T(==)>(p: Patch<T>, before: T, empty: T, after: T) {
    && (p.Keep? ==> after == before)
    && (p.Null? ==> after == empty)
    && (p.Set? ==> after == p.value)
  }

  predicate ServerBy(p: ServerPatch, before: Server, after: Server) {
    && FieldBy(p.v4, before.v4, false, after.v4) && FieldBy(p.v6, before.v6, false, after.v6)
    && FieldBy(p.ha, before.ha, false, after.ha) && FieldBy(p.peer, before.peer, "", after.peer)
  }

  predicate SubnetBy(p: SubnetPatch, before: Subnet, after: Subnet) {
    && after.server == before.server && after.family == before.family
    && FieldBy(p.cidr, before.cidr, "", after.cidr) && FieldBy(p.enabled, before.enabled, false, after.enabled)
    && FieldBy(p.leaseMin, before.leaseMin, 0, after.leaseMin)
    && FieldBy(p.leaseDefault, before.leaseDefault, 0, after.leaseDefault)
    && FieldBy(p.leaseMax, before.leaseMax, 0, after.leaseMax)
    && FieldBy(p.routers, before.routers, [], after.routers) && FieldBy(p.dns, before.dns, [], after.dns)
    && FieldBy(p.ntp, before.ntp, [], after.ntp) && FieldBy(p.domain, before.domain, "", after.domain)
    && FieldBy(p.relays, before.relays, [], after.relays)
    && FieldBy(p.interface, before.interface, "", after.interface)
  }

  /** An update changes the sent fields of its own row, and nothing else. */
  lemma UpdateStores(s: Store, e: Event)
    requires Step(s, e).0 == Done
    ensures var t := Step(s, e).1;
            match e
            case UpdateServer(id, p) =>
              && t == s.(servers := t.servers) && OnlyAt(s.servers, t.servers, id)
              && id in s.servers && id in t.servers && ServerBy(p, s.servers[id], t.servers[id])
            case UpdateSubnet(id, p) =>
              && t == s.(subnets := t.subnets) && OnlyAt(s.subnets, t.subnets, id)
              && id in s.subnets && id in t.subnets && SubnetBy(p, s.subnets[id], t.subnets[id])
            case UpdatePool(id, p) =>
              && t == s.(pools := t.pools) && OnlyAt(s.pools, t.pools, id) && id in s.pools && id in t.pools
              && var (b, a) := (s.pools[id], t.pools[id]);
                 && a == b.(body := a.body) && FieldBy(p.start, b.body.start, "", a.body.start)
                 && FieldBy(p.end, b.body.end, "", a.body.end) && FieldBy(p.enabled, b.body.enabled, false, a.body.enabled)
            case UpdateReservation(id, p) =>
              && t == s.(reservations := t.reservations) && OnlyAt(s.reservations, t.reservations, id)
              && id in s.reservations && id in t.reservations
              && var (b, a) := (s.reservations[id], t.reservations[id]);
                 && a == b.(body := a.body) && FieldBy(p.hostname, b.body.hostname, "", a.body.hostname)
                 && FieldBy(p.ip, b.body.ip, "", a.body.ip) && FieldBy(p.hw, b.body.hw, "", a.body.hw)
            case UpdateOption(id, p) =>
              && t == s.(options := t.options) && OnlyAt(s.options, t.options, id) && id in s.options && id in t.options
              && var (b, a) := (s.options[id], t.options[id]);
                 && a == b.(body := a.body) && FieldBy(p.code, b.body.code, 0, a.body.code)
                 && FieldBy(p.name, b.body.name, "", a.body.name) && FieldBy(p.value, b.body.value, "", a.body.value)
            case _ => true
  {
  }

  /** The request names a row that is not there. */
  predicate NamesUnknown(s: Store, e: Event) {
    match e
    case CreateServer(instance, _) => !instance
    case UpdateServer(id, _) => id !in s.servers
    case DeleteServer(id) => id !in s.servers
    case CreateSubnet(id, _) => id !in s.servers
    case UpdateSubnet(id, _) => id !in s.subnets
    case DeleteSubnet(id) => id !in s.subnets
    case CreatePool(id, _, _) => id !in s.subnets
    case UpdatePool(id, _) => id !in s.pools
    case DeletePool(id) => id !in s.pools
    case CreateReservation(id, _, _) => id !in s.subnets
    case UpdateReservation(id, _) => id !in s.reservations
    case DeleteReservation(id) => id !in s.reservations
    case CreateOption(id, _, _) => id !in s.subnets
    case UpdateOption(id, _) => id !in s.options
    case DeleteOption(id) => id !in s.options
  }

  /** A null reaches a comparison or a column that may not hold one. */
  predicate NullTrips(s: Store, e: Event) {
    match e
    case UpdateServer(_, p) => p.nameNull
    case UpdateSubnet(id, p) =>
      || p.leaseMin.Null? || p.leaseDefault.Null? || p.leaseMax.Null? || p.nameNull || p.cidr.Null?
    case UpdatePool(_, p) => p.start.Null? || p.end.Null?
    case UpdateReservation(_, p) => p.ip.Null? || p.hw.Null?
    case UpdateOption(_, p) => p.code.Null? || p.name.Null? || p.value.Null?
    case _ => false
  }

  /** How a request ends: not found exactly when it names an unknown row, an unhandled error
      exactly when a null trips it before a check refuses it. */
  lemma Ends(s: Store, e: Event)
    ensures Step(s, e).0 == NotFound <==> NamesUnknown(s, e)
    ensures Step(s, e).0 == Crashed <==> !NamesUnknown(s, e) && NullTrips(s, e) && Step(s, e).0 != Rejected
  {
  }

  // ---- Whole lives ------------------------------------------------------------------------------

  datatype Table = Servers | Subnets | Pools | Reservations | Options

  predicate Has(s: Store, table: Table, id: nat) {
    match table
    case Servers => id in s.servers
    case Subnets => id in s.subnets
    case Pools => id in s.pools
    case Reservations => id in s.reservations
    case Options => id in s.options
  }

  /** A subnet with its server; ids come from the counter. */
  predicate SubnetHangs(s: Store, subnet: nat) {
    subnet in s.subnets && subnet < s.next && s.subnets[subnet].server in s.servers
  }

  /** A row with all it hangs below. */
  predicate Hangs(s: Store, table: Table, id: nat) {
    && id < s.next
    && match table
       case Servers => id in s.servers
       case Subnets => SubnetHangs(s, id)
       case Pools => id in s.pools && SubnetHangs(s, s.pools[id].subnet)
       case Reservations => id in s.reservations && SubnetHangs(s, s.reservations[id].subnet)
       case Options => id in s.options && SubnetHangs(s, s.options[id].subnet)
  }

  lemma SoundHangs(s: Store, table: Table, id: nat)
    requires Sound(s) && Has(s, table, id)
    ensures Hangs(s, table, id)
  {
    forall k | k in s.subnets ensures SubnetHangs(s, k) { assert SubnetSound(s.subnets[k], s.servers); }
  }

  /** Deleting the subnet takes what hangs below it, be it asked for itself or with its server. */
  predicate TakesSubnet(s: Store, subnet: nat, e: Event)
    requires subnet in s.subnets
  {
    e == DeleteSubnet(subnet) || e == DeleteServer(s.subnets[subnet].server)
  }

  /** The requests that end the row's life. */
  predicate Kills(s: Store, table: Table, id: nat, e: Event)
    requires Hangs(s, table, id)
  {
    match table
    case Servers => e == DeleteServer(id)
    case Subnets => TakesSubnet(s, id, e)
    case Pools => e == DeletePool(id) || TakesSubnet(s, s.pools[id].subnet, e)
    case Reservations => e == DeleteReservation(id) || TakesSubnet(s, s.reservations[id].subnet, e)
    case Options => e == DeleteOption(id) || TakesSubnet(s, s.options[id].subnet, e)
  }

  lemma SubnetStep(s: Store, subnet: nat, e: Event)
    requires SubnetHangs(s, subnet)
    ensures var t := Step(s, e).1;
            && (subnet in t.subnets <==> !TakesSubnet(s, subnet, e))
            && (subnet in t.subnets ==> SubnetHangs(t, subnet) && t.subnets[subnet].server == s.subnets[subnet].server)
  {
  }

  lemma ServerStep(s: Store, id: nat, e: Event)
    requires id in s.servers && id < s.next
    ensures id in Step(s, e).1.servers <==> e != DeleteServer(id)
    ensures s.next <= Step(s, e).1.next
  {
  }

  lemma PoolStep(s: Store, id: nat, e: Event)
    requires id in s.pools && id < s.next && SubnetHangs(s, s.pools[id].subnet)
    ensures var pools := Step(s, e).1.pools;
            && (id in pools <==> e != DeletePool(id) && !TakesSubnet(s, s.pools[id].subnet, e))
            && (id in pools ==> pools[id].subnet == s.pools[id].subnet)
  {
  }

  lemma ReservationStep(s: Store, id: nat, e: Event)
    requires id in s.reservations && id < s.next && SubnetHangs(s, s.reservations[id].subnet)
    ensures var reservations := Step(s, e).1.reservations;
            && (id in reservations <==> e != DeleteReservation(id) && !TakesSubnet(s, s.reservations[id].subnet, e))
            && (id in reservations ==> reservations[id].subnet == s.reservations[id].subnet)
  {
  }

  lemma OptionStep(s: Store, id: nat, e: Event)
    requires id in s.options && id < s.next && SubnetHangs(s, s.options[id].subnet)
    ensures var options := Step(s, e).1.options;
            && (id in options <==> e != DeleteOption(id) && !TakesSubnet(s, s.options[id].subnet, e))
            && (id in options ==> options[id].subnet == s.options[id].subnet)
  {
  }

  lemma CounterStep(s: Store, e: Event)
    ensures s.next <= Step(s, e).1.next
  {
  }

  /** A row survives a request unless that ends its life, and stays where it hangs. */
  lemma StepSpares(s: Store, table: Table, id: nat, e: Event)
    requires Hangs(s, table, id)
    ensures var t := Step(s, e).1;
            && (Has(t, table, id) <==> !Kills(s, table, id, e))
            && (Has(t, table, id) ==> Hangs(t, table, id))
  {
    CounterStep(s, e);
    match table
    case Servers => ServerStep(s, id, e);
    case Subnets => SubnetStep(s, id, e);
    case Pools =>
      SubnetStep(s, s.pools[id].subnet, e);
      PoolStep(s, id, e);
    case Reservations =>
      SubnetStep(s, s.reservations[id].subnet, e);
      ReservationStep(s, id, e);
    case Options =>
      SubnetStep(s, s.options[id].subnet, e);
      OptionStep(s, id, e);
  }

  lemma SameKillers(s: Store, table: Table, id: nat, e: Event, later: Event)
    requires Hangs(s, table, id) && Has(Step(s, e).1, table, id)
    ensures Hangs(Step(s, e).1, table, id)
    ensures Kills(Step(s, e).1, table, id, later) <==> Kills(s, table, id, later)
  {
    StepSpares(s, table, id, e);
    match table
    case Servers =>
    case Subnets => SubnetStep(s, id, e);
    case Pools =>
      SubnetStep(s, s.pools[id].subnet, e);
      PoolStep(s, id, e);
    case Reservations =>
      SubnetStep(s, s.reservations[id].subnet, e);
      ReservationStep(s, id, e);
    case Options =>
      SubnetStep(s, s.options[id].subnet, e);
      OptionStep(s, id, e);
  }

  lemma StepMakesNew(s: Store, table: Table, id: nat, e: Event)
    requires !Has(s, table, id) && id < s.next
    ensures !Has(Step(s, e).1, table, id)
  {
    match table
    case Servers =>
    case Subnets =>
    case Pools =>
    case Reservations =>
    case Options =>
  }

  lemma {:induction false} GoneForGood(s: Store, table: Table, id: nat, events: seq<Event>)
    requires !Has(s, table, id) && id < s.next
    ensures !Has(Run(s, events), table, id)
    decreases |events|
  {
    if events != [] {
      StepMakesNew(s, table, id, events[0]);
      CounterStep(s, events[0]);
      GoneForGood(Step(s, events[0]).1, table, id, events[1..]);
    }
  }

  predicate NoneKills(s: Store, table: Table, id: nat, events: seq<Event>)
    requires Hangs(s, table, id)
  {
    forall i :: 0 <= i < |events| ==> !Kills(s, table, id, events[i])
  }

  lemma NoneKillsRest(s: Store, table: Table, id: nat, events: seq<Event>)
    requires Hangs(s, table, id) && events != [] && !Kills(s, table, id, events[0])
    ensures Hangs(Step(s, events[0]).1, table, id)
    ensures NoneKills(s, table, id, events) <==> NoneKills(Step(s, events[0]).1, table, id, events[1..])
  {
    var next, rest := Step(s, events[0]).1, events[1..];
    StepSpares(s, table, id, events[0]);
    forall later ensures Kills(next, table, id, later) <==> Kills(s, table, id, later) {
      SameKillers(s, table, id, events[0], later);
    }
    if NoneKills(next, table, id, rest) {
      forall i | 0 <= i < |events| ensures !Kills(s, table, id, events[i]) {
        if i > 0 { assert rest[i - 1] == events[i]; }
      }
    }
  }

  /** Over any run a row that was there is there at the end if and only if no request of the
      run deleted it, its subnet, or its subnet's server. */
  lemma {:induction false} LivesIff(s: Store, table: Table, id: nat, events: seq<Event>)
    requires Hangs(s, table, id)
    ensures Has(Run(s, events), table, id) <==> NoneKills(s, table, id, events)
    decreases |events|
  {
    if events != [] {
      var next := Step(s, events[0]).1;
      StepSpares(s, table, id, events[0]);
      if Kills(s, table, id, events[0]) {
        CounterStep(s, events[0]);
        GoneForGood(next, table, id, events[1..]);
      } else {
        NoneKillsRest(s, table, id, events);
        LivesIff(next, table, id, events[1..]);
      }
    }
  }

  /** So it is in every state the handlers can reach. */
  lemma ReachedLivesIff(before: seq<Event>, table: Table, id: nat, events: seq<Event>)
    requires Has(Run(Empty, before), table, id)
    ensures Hangs(Run(Empty, before), table, id)
    ensures Has(Run(Run(Empty, before), events), table, id) <==> NoneKills(Run(Empty, before), table, id, events)
  {
    RunsAreSound(Empty, before);
    SoundHangs(Run(Empty, before), table, id);
    LivesIff(Run(Empty, before), table, id, events);
  }
}
