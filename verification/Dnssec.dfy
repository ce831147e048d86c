/** The console's DNSSEC key lifecycle: create, update, delete, sign, unsign and roll over,
    and the DNSSEC part of the zone file rendered from what they leave behind. */
module Dnssec {
  import opened Wrappers
  import opened Text
  import opened Sequences

  // ---- Rows -------------------------------------------------------------------

  datatype KeyKind = KSK | ZSK

  /** One key row. Times are whatever clock the handlers read. */
  datatype Key = Key(id: nat, zone: nat, kind: KeyKind, dnskey: string, ds: Option<string>,
                     active: bool, rotatedAt: Option<int>)

  /** The flag is a nullable column: None is a null. */
  datatype Zone = Zone(name: string, signed: Option<bool>, ds: Option<string>)

  datatype Store = Store(zones: map<nat, Zone>, nextZone: nat, keys: seq<Key>, nextKey: nat)

  /** What a key is generated from: its tag, its public blob and that blob's digest. */
  datatype Material = Material(tag: nat, blob: string, digest: string)

  function DnskeyText(zone: string, m: Material): (line: string)
    ensures line != ""
  {
    zone + ". 3600 IN DNSKEY 257 3 13 " + m.blob
  }

  function DsText(zone: string, m: Material): (line: string)
    ensures line != ""
  {
    zone + ". IN DS " + PrintInt(m.tag) + " 13 2 " + m.digest
  }

  function NewKey(id: nat, zone: nat, name: string, kind: KeyKind, m: Material): Key {
    Key(id, zone, kind, DnskeyText(name, m), if kind.KSK? then Some(DsText(name, m)) else None, true, None)
  }

  // ---- Selecting and retiring keys ----------------------------------------------

  /** The kinds a handler's query asks for: all of them, or one. */
  predicate Covers(which: Option<KeyKind>, kind: KeyKind) {
    which == None || which == Some(kind)
  }

  predicate Selected(key: Key, zone: nat, which: Option<KeyKind>) {
    key.zone == zone && Covers(which, key.kind) && key.active
  }

  function RetireOne(key: Key, zone: nat, which: Option<KeyKind>, now: int): Key {
    if Selected(key, zone, which) then key.(active := false, rotatedAt := Some(now)) else key
  }

  function Retire(keys: seq<Key>, zone: nat, which: Option<KeyKind>, now: int): (r: seq<Key>)
    ensures |r| == |keys|
  {
    if keys == [] then [] else [RetireOne(keys[0], zone, which, now)] + Retire(keys[1..], zone, which, now)
  }

  /** The zone's active keys of one kind. */
  function Active(keys: seq<Key>, zone: nat, kind: KeyKind): seq<Key> {
    if keys == [] then []
    else (if Selected(keys[0], zone, Some(kind)) then [keys[0]] else []) + Active(keys[1..], zone, kind)
  }

  function KeysOf(keys: seq<Key>, zone: nat): seq<Key> {
    if keys == [] then [] else (if keys[0].zone == zone then [keys[0]] else []) + KeysOf(keys[1..], zone)
  }

  /** Deleting a zone row deletes its key rows. */
  function WithoutZone(keys: seq<Key>, zone: nat): seq<Key> {
    if keys == [] then [] else (if keys[0].zone != zone then [keys[0]] else []) + WithoutZone(keys[1..], zone)
  }

  lemma {:induction false} RetireAppend(a: seq<Key>, key: Key, zone: nat, which: Option<KeyKind>, now: int)
    ensures Retire(a + [key], zone, which, now) == Retire(a, zone, which, now) + [RetireOne(key, zone, which, now)]
  {
    if a == [] {
      assert a + [key] == [key];
    } else {
      RetireAppend(a[1..], key, zone, which, now);
      assert (a + [key])[1..] == a[1..] + [key];
    }
  }

  lemma {:induction false} ActiveAppend(a: seq<Key>, b: seq<Key>, zone: nat, kind: KeyKind)
    ensures Active(a + b, zone, kind) == Active(a, zone, kind) + Active(b, zone, kind)
  {
    if a == [] {
      assert a + b == b;
    } else {
      ActiveAppend(a[1..], b, zone, kind);
      ConsAppend(a, b);
      var head := if Selected(a[0], zone, Some(kind)) then [a[0]] else [];
      Associates(head, Active(a[1..], zone, kind), Active(b, zone, kind));
    }
  }

  /** Retiring empties exactly what was selected. */
  lemma {:induction false} ActiveAfterRetire(keys: seq<Key>, zone: nat, which: Option<KeyKind>, now: int,
                                             z: nat, kind: KeyKind)
    ensures Active(Retire(keys, zone, which, now), z, kind)
            == if z == zone && Covers(which, kind) then [] else Active(keys, z, kind)
  {
    if keys != [] { ActiveAfterRetire(keys[1..], zone, which, now, z, kind); }
  }

  lemma {:induction false} ActiveAfterDelete(keys: seq<Key>, zone: nat, z: nat, kind: KeyKind)
    ensures Active(WithoutZone(keys, zone), z, kind) == if z == zone then [] else Active(keys, z, kind)
  {
    if keys != [] {
      var head := if keys[0].zone != zone then [keys[0]] else [];
      ActiveAfterDelete(keys[1..], zone, z, kind);
      ActiveAppend(head, WithoutZone(keys[1..], zone), z, kind);
    }
  }

  lemma OneReplaced<T>(before: seq<T>, after: seq<T>, i: nat, x: T)
    requires i < |before| == |after| && after == before[i := x]
    ensures after[..i + 1] == before[..i] + [x]
  {
  }

  // ---- The handlers as functions -------------------------------------------------

  function Created(s: Store, name: string, signed: bool): Store {
    s.(zones := s.zones[s.nextZone := Zone(RStripDots(name), Some(signed), None)], nextZone := s.nextZone + 1)
  }

  /** What an update says of the flag: nothing, or a value that may be null. */
  datatype Change = Keep | Set(flag: Option<bool>)

  /** An update reaches only the flag; the name and the DS record are not in its schema. */
  function Updated(s: Store, zone: nat, change: Change): Store
    requires zone in s.zones
  {
    if change.Keep? then s else s.(zones := s.zones[zone := s.zones[zone].(signed := change.flag)])
  }

  function Deleted(s: Store, zone: nat): Store {
    s.(zones := s.zones - {zone}, keys := WithoutZone(s.keys, zone))
  }

  function Signed(s: Store, zone: nat, ksk: Material, zsk: Material, now: int): Store
    requires zone in s.zones
  {
    var name := s.zones[zone].name;
    Store(s.zones[zone := Zone(name, Some(true), Some(DsText(name, ksk)))], s.nextZone,
          Retire(s.keys, zone, None, now)
          + [NewKey(s.nextKey, zone, name, KSK, ksk), NewKey(s.nextKey + 1, zone, name, ZSK, zsk)],
          s.nextKey + 2)
  }

  function Unsigned(s: Store, zone: nat, now: int): Store
    requires zone in s.zones
  {
    s.(zones := s.zones[zone := Zone(s.zones[zone].name, Some(false), None)], keys := Retire(s.keys, zone, None, now))
  }

  function RolledOver(s: Store, zone: nat, kind: KeyKind, m: Material, now: int): Store
    requires zone in s.zones
  {
    var z := s.zones[zone];
    var ds := if kind.KSK? then Some(DsText(z.name, m)) else z.ds;
    Store(s.zones[zone := Zone(z.name, Some(true), ds)], s.nextZone,
          Retire(s.keys, zone, Some(kind), now) + [NewKey(s.nextKey, zone, z.name, kind, m)],
          s.nextKey + 1)
  }

  // ---- The handlers ---------------------------------------------------------------

  /** `Unanswered`: stored, but the answer cannot be built. */
  datatype Outcome = Done | Unanswered | NotFound | InvalidKeyType

  class Console {
    var zones: map<nat, Zone>
    var nextZone: nat
    var keys: seq<Key>
    var nextKey: nat

    constructor ()
      ensures Contents() == Empty
    {
      zones, nextZone, keys, nextKey := map[], 0, [], 0;
    }

    ghost function Contents(): Store
      reads this
    {
      Store(zones, nextZone, keys, nextKey)
    }

    method CreateZone(name: string, signed: bool) returns (id: nat)
      modifies this
      ensures id == old(nextZone) && Contents() == Created(old(Contents()), name, signed)
    {
      id := nextZone;
      zones := zones[id := Zone(RStripDots(name), Some(signed), None)];
      nextZone := nextZone + 1;
    }

    /** The row is committed before the answer is built, and the answer asks for a bool. */
    method UpdateZone(zone: nat, change: Change) returns (outcome: Outcome)
      modifies this
      ensures Contents() == if zone in old(zones) then Updated(old(Contents()), zone, change) else old(Contents())
      ensures outcome == if zone !in old(zones) then NotFound
                         else if zones[zone].signed.None? then Unanswered else Done
    {
      if zone !in zones { return NotFound; }
      if change.Set? { zones := zones[zone := zones[zone].(signed := change.flag)]; }
      if zones[zone].signed.None? { return Unanswered; }
      outcome := Done;
    }

    method DeleteZone(zone: nat) returns (outcome: Outcome)
      modifies this
      ensures outcome == (if zone in old(zones) then Done else NotFound)
      ensures Contents() == if outcome.Done? then Deleted(old(Contents()), zone) else old(Contents())
    {
      if zone !in zones { return NotFound; }
      zones, keys := zones - {zone}, WithoutZone(keys, zone);
      outcome := Done;
    }

    /** Every selected key row loses its active flag, one row at a time. */
    method RetireKeys(zone: nat, which: Option<KeyKind>, now: int)
      modifies this`keys
      ensures keys == Retire(old(keys), zone, which, now)
    {
      ghost var was := keys;
      var i := 0;
      while i < |keys|
        invariant 0 <= i <= |keys| == |was|
        invariant keys[..i] == Retire(was[..i], zone, which, now)
        invariant forall j :: i <= j < |was| ==> keys[j] == was[j]
      {
        ghost var before := keys;
        RetireAppend(was[..i], was[i], zone, which, now);
        assert was[..i + 1] == was[..i] + [was[i]];
        if Selected(keys[i], zone, which) {
          keys := keys[i := keys[i].(active := false, rotatedAt := Some(now))];
        }
        OneReplaced(before, keys, i, RetireOne(was[i], zone, which, now));
        i := i + 1;
      }
      assert keys[..i] == keys && was[..i] == was;
    }

    method SignZone(zone: nat, ksk: Material, zsk: Material, now: int) returns (outcome: Outcome)
      modifies this
      ensures outcome == (if zone in old(zones) then Done else NotFound)
      ensures Contents() == if outcome.Done? then Signed(old(Contents()), zone, ksk, zsk, now) else old(Contents())
    {
      if zone !in zones { return NotFound; }
      zones := zones[zone := zones[zone].(signed := Some(true))];
      RetireKeys(zone, None, now);
      var name := zones[zone].name;
      var kskRow := NewKey(nextKey, zone, name, KSK, ksk);
      var zskRow := NewKey(nextKey + 1, zone, name, ZSK, zsk);
      keys := keys + [kskRow, zskRow];
      nextKey := nextKey + 2;
      zones := zones[zone := zones[zone].(ds := kskRow.ds)];
      outcome := Done;
    }

    method UnsignZone(zone: nat, now: int) returns (outcome: Outcome)
      modifies this
      ensures outcome == (if zone in old(zones) then Done else NotFound)
      ensures Contents() == if outcome.Done? then Unsigned(old(Contents()), zone, now) else old(Contents())
    {
      if zone !in zones { return NotFound; }
      zones := zones[zone := zones[zone].(signed := Some(false), ds := None)];
      RetireKeys(zone, None, now);
      outcome := Done;
    }

    /** `requested` is None for a key type that is neither KSK nor ZSK. */
    method Rollover(zone: nat, requested: Option<KeyKind>, m: Material, now: int) returns (outcome: Outcome)
      modifies this
      ensures outcome == if zone !in old(zones) then NotFound else if requested.None? then InvalidKeyType else Done
      ensures Contents() == if outcome.Done? then RolledOver(old(Contents()), zone, requested.value, m, now)
                            else old(Contents())
    {
      if zone !in zones { return NotFound; }
      if requested.None? { return InvalidKeyType; }
      var kind := requested.value;
      RetireKeys(zone, requested, now);
      var row := NewKey(nextKey, zone, zones[zone].name, kind, m);
      keys := keys + [row];
      nextKey := nextKey + 1;
      if kind.KSK? { zones := zones[zone := zones[zone].(ds := row.ds)]; }
      zones := zones[zone := zones[zone].(signed := Some(true))];
      outcome := Done;
    }
  }

  // ---- The invariant ----------------------------------------------------------------

  const Empty: Store := Store(map[], 0, [], 0)

  predicate KeySound(s: Store, key: Key) {
    && key.id < s.nextKey && key.zone < s.nextZone && key.dnskey != ""
    && (key.kind.KSK? ==> key.ds.Some? && key.ds.value != "")
    && (key.kind.ZSK? ==> key.ds.None?)
    && (!key.active <==> key.rotatedAt.Some?)
  }

  predicate KeysSound(s: Store) {
    forall i :: 0 <= i < |s.keys| ==> KeySound(s, s.keys[i])
  }

  predicate DistinctIds(keys: seq<Key>) {
    forall i, j :: 0 <= i < j < |keys| ==> keys[i].id != keys[j].id
  }

  /** At most one active key of each kind, and the stored DS is the active KSK's. */
  predicate ZoneSound(s: Store, zone: nat)
    requires zone in s.zones
  {
    var ksk := Active(s.keys, zone, KSK);
    && |ksk| <= 1 && |Active(s.keys, zone, ZSK)| <= 1
    && s.zones[zone].ds == if ksk == [] then None else ksk[0].ds
  }

  predicate Sound(s: Store) {
    && KeysSound(s) && DistinctIds(s.keys)
    && (forall zone :: zone in s.zones ==> zone < s.nextZone)
    && forall zone :: zone in s.zones ==> ZoneSound(s, zone)
  }

  lemma {:induction false} RetiredAt(keys: seq<Key>, zone: nat, which: Option<KeyKind>, now: int, i: nat)
    requires i < |keys|
    ensures Retire(keys, zone, which, now)[i] == RetireOne(keys[i], zone, which, now)
  {
    if i > 0 { RetiredAt(keys[1..], zone, which, now, i - 1); }
  }

  lemma RetireKeepsRows(s: Store, zone: nat, which: Option<KeyKind>, now: int)
    requires KeysSound(s) && DistinctIds(s.keys)
    ensures var r := s.(keys := Retire(s.keys, zone, which, now)); KeysSound(r) && DistinctIds(r.keys)
  {
    var r := Retire(s.keys, zone, which, now);
    forall i | 0 <= i < |r| ensures r[i] == RetireOne(s.keys[i], zone, which, now) {
      RetiredAt(s.keys, zone, which, now, i);
    }
  }

  lemma {:induction false} KeptRow(keys: seq<Key>, zone: nat, i: nat) returns (j: nat)
    requires i < |WithoutZone(keys, zone)|
    ensures i <= j < |keys| && WithoutZone(keys, zone)[i] == keys[j]
  {
    if keys[0].zone != zone && i == 0 { return 0; }
    j := KeptRow(keys[1..], zone, if keys[0].zone != zone then i - 1 else i);
    j := j + 1;
  }

  lemma {:induction false} DeleteKeepsIds(keys: seq<Key>, zone: nat)
    requires DistinctIds(keys)
    ensures DistinctIds(WithoutZone(keys, zone))
  {
    if keys != [] {
      DeleteKeepsIds(keys[1..], zone);
      var rest := WithoutZone(keys[1..], zone);
      forall i | 0 <= i < |rest| ensures rest[i].id != keys[0].id { var j := KeptRow(keys[1..], zone, i); }
    }
  }

  lemma NoKeysYet(keys: seq<Key>, zone: nat, kind: KeyKind)
    requires forall i :: 0 <= i < |keys| ==> keys[i].zone != zone
    ensures Active(keys, zone, kind) == []
  {
    if keys != [] { NoKeysYet(keys[1..], zone, kind); }
  }

  lemma CreateKeepsSound(s: Store, name: string, signed: bool)
    requires Sound(s)
    ensures Sound(Created(s, name, signed))
  {
    var r := Created(s, name, signed);
    forall i | 0 <= i < |r.keys| ensures KeySound(r, r.keys[i]) { assert KeySound(s, s.keys[i]); }
    forall kind ensures Active(r.keys, s.nextZone, kind) == [] {
      forall i | 0 <= i < |s.keys| ensures s.keys[i].zone != s.nextZone { assert KeySound(s, s.keys[i]); }
      NoKeysYet(s.keys, s.nextZone, kind);
    }
    forall z | z in r.zones ensures ZoneSound(r, z) { if z != s.nextZone { assert ZoneSound(s, z); } }
  }

  lemma DeleteKeepsSound(s: Store, zone: nat)
    requires Sound(s)
    ensures Sound(Deleted(s, zone))
  {
    var r := Deleted(s, zone);
    forall i | 0 <= i < |r.keys| ensures KeySound(r, r.keys[i]) {
      var j := KeptRow(s.keys, zone, i);
      assert KeySound(s, s.keys[j]);
    }
    DeleteKeepsIds(s.keys, zone);
    forall z | z in r.zones ensures ZoneSound(r, z) {
      assert ZoneSound(s, z);
      ActiveAfterDelete(s.keys, zone, z, KSK);
      ActiveAfterDelete(s.keys, zone, z, ZSK);
    }
  }

  lemma UnsignKeepsSound(s: Store, zone: nat, now: int)
    requires Sound(s) && zone in s.zones
    ensures Sound(Unsigned(s, zone, now))
  {
    var r := Unsigned(s, zone, now);
    RetireKeepsRows(s, zone, None, now);
    assert KeysSound(s.(keys := r.keys));
    forall i | 0 <= i < |r.keys| ensures KeySound(r, r.keys[i]) { assert KeySound(s.(keys := r.keys), r.keys[i]); }
    forall z | z in r.zones ensures ZoneSound(r, z) {
      assert ZoneSound(s, z);
      ActiveAfterRetire(s.keys, zone, None, now, z, KSK);
      ActiveAfterRetire(s.keys, zone, None, now, z, ZSK);
    }
  }

  lemma SignKeepsSound(s: Store, zone: nat, ksk: Material, zsk: Material, now: int)
    requires Sound(s) && zone in s.zones
    ensures Sound(Signed(s, zone, ksk, zsk, now))
  {
    var r := Signed(s, zone, ksk, zsk, now);
    var name := s.zones[zone].name;
    RetireKeepsRows(s, zone, None, now);
    NewKeySound(r, s.nextKey, zone, name, KSK, ksk);
    NewKeySound(r, s.nextKey + 1, zone, name, ZSK, zsk);
    forall z | z in r.zones ensures ZoneSound(r, z) { SignKeepsZone(s, zone, ksk, zsk, now, z); }
  }

  lemma NewKeySound(s: Store, id: nat, zone: nat, name: string, kind: KeyKind, m: Material)
    requires id < s.nextKey && zone < s.nextZone
    ensures KeySound(s, NewKey(id, zone, name, kind, m))
  {
  }

  lemma SignKeepsZone(s: Store, zone: nat, ksk: Material, zsk: Material, now: int, z: nat)
    requires Sound(s) && zone in s.zones && z in s.zones
    ensures ZoneSound(Signed(s, zone, ksk, zsk, now), z)
  {
    assert ZoneSound(s, z);
    ActiveAfterSign(s, zone, ksk, zsk, now, z);
  }

  /** Signing leaves the zone with exactly the two new keys, and other zones as they were. */
  lemma ActiveAfterSign(s: Store, zone: nat, ksk: Material, zsk: Material, now: int, z: nat)
    requires zone in s.zones
    ensures var r, name := Signed(s, zone, ksk, zsk, now), s.zones[zone].name;
            && Active(r.keys, z, KSK)
               == (if z == zone then [NewKey(s.nextKey, zone, name, KSK, ksk)] else Active(s.keys, z, KSK))
            && Active(r.keys, z, ZSK)
               == (if z == zone then [NewKey(s.nextKey + 1, zone, name, ZSK, zsk)] else Active(s.keys, z, ZSK))
  {
    var name := s.zones[zone].name;
    var kept := Retire(s.keys, zone, None, now);
    var a, b := NewKey(s.nextKey, zone, name, KSK, ksk), NewKey(s.nextKey + 1, zone, name, ZSK, zsk);
    assert kept + [a, b] == (kept + [a]) + [b];
    forall kind ensures Active(kept + [a, b], z, kind)
                        == if z != zone then Active(s.keys, z, kind) else if kind.KSK? then [a] else [b] {
      ActiveAfterRetire(s.keys, zone, None, now, z, kind);
      ActiveGrows(kept, a, z, kind);
      ActiveGrows(kept + [a], b, z, kind);
    }
  }

  /** A rollover replaces the keys of its kind by one new key and touches nothing else. */
  lemma ActiveAfterRollover(s: Store, zone: nat, kind: KeyKind, m: Material, now: int, z: nat, k: KeyKind)
    requires zone in s.zones
    ensures Active(RolledOver(s, zone, kind, m, now).keys, z, k)
            == if z == zone && k == kind then [NewKey(s.nextKey, zone, s.zones[zone].name, kind, m)]
               else Active(s.keys, z, k)
  {
    var row := NewKey(s.nextKey, zone, s.zones[zone].name, kind, m);
    ActiveAppend(Retire(s.keys, zone, Some(kind), now), [row], z, k);
    ActiveAfterRetire(s.keys, zone, Some(kind), now, z, k);
    assert Active([row], z, k) == if z == zone && k == kind then [row] else [];
  }

  lemma RolloverKeepsSound(s: Store, zone: nat, kind: KeyKind, m: Material, now: int)
    requires Sound(s) && zone in s.zones
    ensures Sound(RolledOver(s, zone, kind, m, now))
  {
    var r := RolledOver(s, zone, kind, m, now);
    RetireKeepsRows(s, zone, Some(kind), now);
    NewKeySound(r, s.nextKey, zone, s.zones[zone].name, kind, m);
    forall z | z in r.zones ensures ZoneSound(r, z) {
      assert ZoneSound(s, z);
      ActiveAfterRollover(s, zone, kind, m, now, z, KSK);
      ActiveAfterRollover(s, zone, kind, m, now, z, ZSK);
    }
  }

  // ---- Whole runs -------------------------------------------------------------------

  datatype Event =
    | Create(name: string, signed: bool)
    | Update(zone: nat, change: Change)
    | Delete(zone: nat)
    | Sign(zone: nat, ksk: Material, zsk: Material, now: int)
    | Unsign(zone: nat, now: int)
    | Roll(zone: nat, requested: Option<KeyKind>, m: Material, now: int)

  function Step(s: Store, e: Event): Store {
    match e
    case Create(name, signed) => Created(s, name, signed)
    case Update(zone, change) => if zone in s.zones then Updated(s, zone, change) else s
    case Delete(zone) => if zone in s.zones then Deleted(s, zone) else s
    case Sign(zone, ksk, zsk, now) => if zone in s.zones then Signed(s, zone, ksk, zsk, now) else s
    case Unsign(zone, now) => if zone in s.zones then Unsigned(s, zone, now) else s
    case Roll(zone, requested, m, now) =>
      if zone in s.zones && requested.Some? then RolledOver(s, zone, requested.value, m, now) else s
  }

  function Run(s: Store, events: seq<Event>): Store
    decreases |events|
  {
    if events == [] then s else Run(Step(s, events[0]), events[1..])
  }

  lemma StepKeepsSound(s: Store, e: Event)
    requires Sound(s)
    ensures Sound(Step(s, e))
  {
    match e
    case Create(name, signed) => CreateKeepsSound(s, name, signed);
    case Update(zone, change) =>
    case Delete(zone) => DeleteKeepsSound(s, zone);
    case Sign(zone, ksk, zsk, now) => if zone in s.zones { SignKeepsSound(s, zone, ksk, zsk, now); }
    case Unsign(zone, now) => if zone in s.zones { UnsignKeepsSound(s, zone, now); }
    case Roll(zone, requested, m, now) =>
      if zone in s.zones && requested.Some? { RolloverKeepsSound(s, zone, requested.value, m, now); }
  }

  /** In every reachable state each zone has at most one active key of each kind and its
      DS record is the active KSK's. */
  lemma {:induction false} RunsAreSound(s: Store, events: seq<Event>)
    requires Sound(s)
    ensures Sound(Run(s, events))
    decreases |events|
  {
    if events != [] {
      StepKeepsSound(s, events[0]);
      RunsAreSound(Step(s, events[0]), events[1..]);
    }
  }

  /** No row with this id is active. */
  predicate Retired(s: Store, id: nat) {
    forall i :: 0 <= i < |s.keys| && s.keys[i].id == id ==> !s.keys[i].active
  }

  lemma StepKeepsRetired(s: Store, e: Event, id: nat)
    requires Sound(s) && id < s.nextKey && Retired(s, id)
    ensures id < Step(s, e).nextKey && Retired(Step(s, e), id)
  {
    var r := Step(s, e);
    forall i | 0 <= i < |r.keys| && r.keys[i].id == id ensures !r.keys[i].active {
      match e
      case Create(name, signed) =>
      case Update(zone, change) =>
      case Delete(zone) => if zone in s.zones { var j := KeptRow(s.keys, zone, i); }
      case Sign(zone, ksk, zsk, now) => if zone in s.zones { OldRow(s, zone, None, now, r, i); }
      case Unsign(zone, now) => if zone in s.zones { OldRow(s, zone, None, now, r, i); }
      case Roll(zone, requested, m, now) =>
        if zone in s.zones && requested.Some? { OldRow(s, zone, requested, now, r, i); }
    }
  }

  lemma OldRow(s: Store, zone: nat, which: Option<KeyKind>, now: int, r: Store, i: nat)
    requires i < |r.keys| && Retire(s.keys, zone, which, now) <= r.keys
    requires r.keys[i].id < s.nextKey
    requires forall j :: |s.keys| <= j < |r.keys| ==> r.keys[j].id >= s.nextKey
    ensures i < |s.keys| && r.keys[i] == RetireOne(s.keys[i], zone, which, now)
  {
    RetiredAt(s.keys, zone, which, now, i);
  }

  /** Over any run a key that is not active is never active again. */
  lemma {:induction false} RetiredForGood(s: Store, events: seq<Event>, id: nat)
    requires Sound(s) && id < s.nextKey && Retired(s, id)
    ensures Retired(Run(s, events), id)
    decreases |events|
  {
    if events != [] {
      StepKeepsRetired(s, events[0], id);
      StepKeepsSound(s, events[0]);
      RetiredForGood(Step(s, events[0]), events[1..], id);
    }
  }

  // ---- What an event leaves alone ------------------------------------------------------

  /** The zone an event is about; a new zone gets the next id. */
  function ZoneOf(s: Store, e: Event): nat {
    match e
    case Create(_, _) => s.nextZone
    case Update(zone, _) => zone
    case Delete(zone) => zone
    case Sign(zone, _, _, _) => zone
    case Unsign(zone, _) => zone
    case Roll(zone, _, _, _) => zone
  }

  lemma {:induction false} KeysOfRetired(keys: seq<Key>, zone: nat, which: Option<KeyKind>, now: int, other: nat)
    requires other != zone
    ensures KeysOf(Retire(keys, zone, which, now), other) == KeysOf(keys, other)
  {
    if keys != [] { KeysOfRetired(keys[1..], zone, which, now, other); }
  }

  lemma {:induction false} KeysOfRemaining(keys: seq<Key>, zone: nat, other: nat)
    requires other != zone
    ensures KeysOf(WithoutZone(keys, zone), other) == KeysOf(keys, other)
  {
    if keys != [] {
      var rest := WithoutZone(keys[1..], zone);
      KeysOfRemaining(keys[1..], zone, other);
      if keys[0].zone != zone {
        assert ([keys[0]] + rest)[1..] == rest;
      } else {
        assert [] + rest == rest && [] + KeysOf(keys[1..], other) == KeysOf(keys[1..], other);
      }
    }
  }

  lemma {:induction false} KeysOfAppend(keys: seq<Key>, key: Key, other: nat)
    requires key.zone != other
    ensures KeysOf(keys + [key], other) == KeysOf(keys, other)
  {
    if keys == [] {
      assert keys + [key] == [key];
    } else {
      KeysOfAppend(keys[1..], key, other);
      ConsAppend(keys, [key]);
    }
  }

  /** A new zone has the requested flag under the name without its last dots, and nothing
      else changes. */
  lemma CreateStores(s: Store, name: string, signed: bool)
    ensures var t := Step(s, Create(name, signed));
            && t.nextZone == s.nextZone + 1 && t.keys == s.keys && t.nextKey == s.nextKey
            && s.nextZone in t.zones && t.zones[s.nextZone] == Zone(RStripDots(name), Some(signed), None)
            && forall zone :: zone != s.nextZone ==>
                 (zone in t.zones <==> zone in s.zones) && (zone in t.zones ==> t.zones[zone] == s.zones[zone])
  {
  }

  /** Every other zone keeps its row and all its keys, retired ones included. */
  lemma OthersUntouched(s: Store, e: Event, other: nat)
    requires other in s.zones && other < s.nextZone && other != ZoneOf(s, e)
    ensures other in Step(s, e).zones && Step(s, e).zones[other] == s.zones[other]
    ensures KeysOf(Step(s, e).keys, other) == KeysOf(s.keys, other)
  {
    match e
    case Create(_, _) =>
    case Update(_, _) =>
    case Delete(zone) => KeysOfRemaining(s.keys, zone, other);
    case Unsign(zone, now) => KeysOfRetired(s.keys, zone, None, now, other);
    case Sign(zone, ksk, zsk, now) =>
      if zone in s.zones {
        var kept, name := Retire(s.keys, zone, None, now), s.zones[zone].name;
        var a, b := NewKey(s.nextKey, zone, name, KSK, ksk), NewKey(s.nextKey + 1, zone, name, ZSK, zsk);
        KeysOfRetired(s.keys, zone, None, now, other);
        KeysOfAppend(kept, a, other);
        KeysOfAppend(kept + [a], b, other);
        assert kept + [a, b] == (kept + [a]) + [b];
      }
    case Roll(zone, requested, m, now) =>
      if zone in s.zones && requested.Some? {
        KeysOfRetired(s.keys, zone, requested, now, other);
        KeysOfAppend(Retire(s.keys, zone, requested, now),
                     NewKey(s.nextKey, zone, s.zones[zone].name, requested.value, m), other);
      }
  }

  /** A key row is never lost but with its zone, and changes only by being retired, at the
      time the event gives. */
  lemma RowsKept(s: Store, e: Event, i: nat)
    requires i < |s.keys| && !e.Delete?
    ensures var row, keys := s.keys[i], Step(s, e).keys;
            && i < |keys|
            && (keys[i] == row
                || (row.active && row.zone == ZoneOf(s, e) && (e.Sign? || e.Unsign? || e.Roll?)
                    && keys[i] == row.(active := false, rotatedAt := Some(e.now))))
  {
    match e
    case Create(_, _) =>
    case Update(_, _) =>
    case Sign(zone, _, _, now) => if zone in s.zones { RetiredAt(s.keys, zone, None, now, i); }
    case Unsign(zone, now) => if zone in s.zones { RetiredAt(s.keys, zone, None, now, i); }
    case Roll(zone, requested, _, now) =>
      if zone in s.zones && requested.Some? { RetiredAt(s.keys, zone, requested, now, i); }
  }

  // ---- The rendered zone file --------------------------------------------------------

  datatype Record = Record(isSoa: bool, text: string)

  datatype Line = Ttl(ttl: nat) | DefaultSoa | Resource(text: string) | KeyLine(text: string) | DsLine(text: string)

  function KeyLines(key: Key): seq<Line> {
    (if key.active && key.dnskey != "" then [KeyLine(key.dnskey)] else [])
    + (if key.active && key.ds.Some? && key.ds.value != "" then [DsLine(key.ds.value)] else [])
  }

  function AllKeyLines(keys: seq<Key>): seq<Line> {
    if keys == [] then [] else AllKeyLines(keys[..|keys| - 1]) + KeyLines(keys[|keys| - 1])
  }

  lemma AllKeyLinesStep(keys: seq<Key>, n: nat)
    requires n < |keys|
    ensures AllKeyLines(keys[..n + 1]) == AllKeyLines(keys[..n]) + KeyLines(keys[n])
  {
    assert keys[..n + 1][..n] == keys[..n];
  }

  function Resources(records: seq<Record>): seq<Line> {
    seq(|records|, i requires 0 <= i < |records| => Resource(records[i].text))
  }

  predicate HasSoa(records: seq<Record>) {
    exists i :: 0 <= i < |records| && records[i].isSoa
  }

  function Preamble(ttl: nat, records: seq<Record>): seq<Line> {
    [Ttl(ttl)]
    + (if HasSoa(records) then [] else [DefaultSoa])
    + Resources(records)
  }

  function ZoneLines(ttl: nat, records: seq<Record>, keys: seq<Key>, dnssec: bool): seq<Line> {
    Preamble(ttl, records) + if dnssec then AllKeyLines(keys) else []
  }

  method RenderZone(ttl: nat, records: seq<Record>, keys: seq<Key>, dnssec: bool) returns (lines: seq<Line>)
    ensures lines == ZoneLines(ttl, records, keys, dnssec)
  {
    lines := [Ttl(ttl)];
    if !HasSoa(records) { lines := lines + [DefaultSoa]; }
    lines := lines + Resources(records);
    assert lines == Preamble(ttl, records);
    if dnssec {
      lines := AppendAllKeyLines(lines, keys);
    } else {
      assert lines + [] == lines;
    }
  }

  method AppendAllKeyLines(before: seq<Line>, keys: seq<Key>) returns (lines: seq<Line>)
    ensures lines == before + AllKeyLines(keys)
  {
    lines := before;
    for n := 0 to |keys|
      invariant lines == before + AllKeyLines(keys[..n])
    {
      AllKeyLinesStep(keys, n);
      Associates(before, AllKeyLines(keys[..n]), KeyLines(keys[n]));
      lines := AppendKeyLines(lines, keys[n]);
    }
    assert keys[..|keys|] == keys;
  }

  method AppendKeyLines(before: seq<Line>, key: Key) returns (lines: seq<Line>)
    ensures lines == before + KeyLines(key)
  {
    lines := before;
    if key.active && key.dnskey != "" { lines := lines + [KeyLine(key.dnskey)]; }
    if key.active && key.ds.Some? && key.ds.value != "" { lines := lines + [DsLine(key.ds.value)]; }
  }

  /** The DS lines of a file, in order. */
  function DsTexts(lines: seq<Line>): seq<string> {
    if lines == [] then [] else (if lines[0].DsLine? then [lines[0].text] else []) + DsTexts(lines[1..])
  }

  lemma {:induction false} TextsAppend(a: seq<Line>, b: seq<Line>)
    ensures DsTexts(a + b) == DsTexts(a) + DsTexts(b)
  {
    if a == [] {
      assert a + b == b;
    } else {
      TextsAppend(a[1..], b);
      ConsAppend(a, b);
      Associates(if a[0].DsLine? then [a[0].text] else [], DsTexts(a[1..]), DsTexts(b));
    }
  }

  lemma {:induction false} NoDsTexts(lines: seq<Line>)
    requires forall i :: 0 <= i < |lines| ==> !lines[i].DsLine?
    ensures DsTexts(lines) == []
  {
    if lines != [] { NoDsTexts(lines[1..]); }
  }

  /** The payload keys a zone file renders: the zone's rows in any order. */
  predicate PayloadOf(payload: seq<Key>, s: Store, zone: nat) {
    multiset(payload) == multiset(KeysOf(s.keys, zone))
  }

  function DsOf(key: Key): Option<string> {
    if key.ds.Some? && key.ds.value != "" then key.ds else None
  }

  /** The keys' DS texts, in order. */
  function DsValues(keys: seq<Key>): seq<string> {
    if keys == [] then []
    else DsValues(keys[..|keys| - 1]) + OptionSeq(DsOf(keys[|keys| - 1]))
  }

  function OptionSeq<T>(o: Option<T>): seq<T> {
    if o.Some? then [o.value] else []
  }

  lemma ActiveGrows(keys: seq<Key>, key: Key, zone: nat, kind: KeyKind)
    ensures Active(keys + [key], zone, kind)
            == if Selected(key, zone, Some(kind)) then Active(keys, zone, kind) + [key] else Active(keys, zone, kind)
  {
    ActiveAppend(keys, [key], zone, kind);
    assert Active([key], zone, kind) == if Selected(key, zone, Some(kind)) then [key] else [];
  }

  predicate OnlyKsksHaveDs(keys: seq<Key>, zone: nat) {
    forall i :: 0 <= i < |keys| ==> keys[i].zone == zone && (keys[i].kind.KSK? <==> DsOf(keys[i]).Some?)
  }

  /** Only the zone's active keys of kind KSK put a DS in the file. */
  lemma {:induction false} DsOfKeys(keys: seq<Key>, zone: nat)
    requires OnlyKsksHaveDs(keys, zone)
    ensures DsTexts(AllKeyLines(keys)) == DsValues(Active(keys, zone, KSK))
  {
    if keys != [] {
      var front, key := keys[..|keys| - 1], keys[|keys| - 1];
      assert keys == front + [key];
      DsOfKeys(front, zone);
      TextsAppend(AllKeyLines(front), KeyLines(key));
      DsOfKey(key);
      ActiveGrows(front, key, zone, KSK);
    }
  }

  lemma DsOfKey(key: Key)
    ensures DsTexts(KeyLines(key)) == if key.active then OptionSeq(DsOf(key)) else []
  {
    var a := if key.active && key.dnskey != "" then [KeyLine(key.dnskey)] else [];
    var b := if key.active && key.ds.Some? && key.ds.value != "" then [DsLine(key.ds.value)] else [];
    TextsAppend(a, b);
  }

  lemma {:induction false} ActiveInKeysOf(keys: seq<Key>, zone: nat, kind: KeyKind)
    ensures Active(KeysOf(keys, zone), zone, kind) == Active(keys, zone, kind)
  {
    if keys != [] {
      ActiveInKeysOf(keys[1..], zone, kind);
      var head := if keys[0].zone == zone then [keys[0]] else [];
      ActiveAppend(head, KeysOf(keys[1..], zone), zone, kind);
    }
  }

  /** How often a row occurs among the active ones depends only on how often it occurs. */
  lemma {:induction false} ActiveCounts(keys: seq<Key>, zone: nat, kind: KeyKind, key: Key)
    ensures multiset(Active(keys, zone, kind))[key] == if Selected(key, zone, Some(kind)) then multiset(keys)[key] else 0
  {
    if keys != [] {
      ActiveCounts(keys[1..], zone, kind, key);
      var head := if Selected(keys[0], zone, Some(kind)) then [keys[0]] else [];
      assert keys == [keys[0]] + keys[1..];
      assert multiset(Active(keys, zone, kind)) == multiset(head) + multiset(Active(keys[1..], zone, kind));
    }
  }

  lemma {:induction false} ActiveMember(keys: seq<Key>, zone: nat, kind: KeyKind, key: Key)
    requires key in Active(keys, zone, kind)
    ensures key in keys && Selected(key, zone, Some(kind))
  {
    if !(Selected(keys[0], zone, Some(kind)) && keys[0] == key) { ActiveMember(keys[1..], zone, kind, key); }
  }

  lemma SameActive(a: seq<Key>, b: seq<Key>, zone: nat, kind: KeyKind)
    requires multiset(a) == multiset(b) && |Active(b, zone, kind)| <= 1
    ensures Active(a, zone, kind) == Active(b, zone, kind)
  {
    var p, q := Active(a, zone, kind), Active(b, zone, kind);
    forall key ensures multiset(p)[key] == multiset(q)[key] {
      ActiveCounts(a, zone, kind, key);
      ActiveCounts(b, zone, kind, key);
    }
    SmallPermutation(p, q);
  }

  lemma SmallPermutation<T>(p: seq<T>, q: seq<T>)
    requires multiset(p) == multiset(q) && |q| <= 1
    ensures p == q
  {
    assert |multiset(p)| == |p| && |multiset(q)| == |q|;
    if |q| == 1 {
      assert p == [p[0]] && q == [q[0]];
      assert p[0] in multiset(q);
    }
  }

  lemma PayloadRows(s: Store, zone: nat, payload: seq<Key>)
    requires KeysSound(s) && PayloadOf(payload, s, zone)
    ensures forall i :: 0 <= i < |payload| ==> payload[i].zone == zone && KeySound(s, payload[i])
  {
    forall i | 0 <= i < |payload| ensures payload[i].zone == zone && KeySound(s, payload[i]) {
      assert payload[i] in multiset(payload);
      assert payload[i] in KeysOf(s.keys, zone);
      InKeysOf(s.keys, zone, payload[i]);
    }
  }

  lemma {:induction false} InKeysOf(keys: seq<Key>, zone: nat, key: Key)
    requires key in KeysOf(keys, zone)
    ensures key in keys && key.zone == zone
  {
    if keys != [] && !(keys[0].zone == zone && keys[0] == key) { InKeysOf(keys[1..], zone, key); }
  }

  /** Everything but the key lines carries no DS. */
  lemma DsOfFile(ttl: nat, records: seq<Record>, keys: seq<Key>, dnssec: bool)
    ensures DsTexts(ZoneLines(ttl, records, keys, dnssec)) == if dnssec then DsTexts(AllKeyLines(keys)) else []
  {
    var plain := Preamble(ttl, records);
    NoDsTexts(plain);
    if dnssec { TextsAppend(plain, AllKeyLines(keys)); } else { assert plain + [] == plain; }
  }

  /** A zone file with DNSSEC carries exactly the zone's DS record, whatever order the
      rows come in, and without DNSSEC carries none. */
  lemma RenderedDs(s: Store, zone: nat, payload: seq<Key>, ttl: nat, records: seq<Record>, dnssec: bool)
    requires Sound(s) && zone in s.zones && PayloadOf(payload, s, zone)
    ensures DsTexts(ZoneLines(ttl, records, payload, dnssec))
            == if dnssec && s.zones[zone].ds.Some? then [s.zones[zone].ds.value] else []
  {
    DsOfFile(ttl, records, payload, dnssec);
    if dnssec {
      DsOfPayload(s, zone, payload);
      DsOfZone(s, zone);
    }
  }

  lemma DsOfPayload(s: Store, zone: nat, payload: seq<Key>)
    requires Sound(s) && zone in s.zones && PayloadOf(payload, s, zone)
    ensures DsTexts(AllKeyLines(payload)) == DsValues(Active(s.keys, zone, KSK))
  {
    assert ZoneSound(s, zone);
    PayloadRows(s, zone, payload);
    DsOfKeys(payload, zone);
    ActiveInKeysOf(s.keys, zone, KSK);
    SameActive(payload, KeysOf(s.keys, zone), zone, KSK);
  }

  lemma DsOfZone(s: Store, zone: nat)
    requires Sound(s) && zone in s.zones
    ensures DsValues(Active(s.keys, zone, KSK)) == OptionSeq(s.zones[zone].ds)
  {
    assert ZoneSound(s, zone);
    var ksk := Active(s.keys, zone, KSK);
    if ksk != [] {
      ActiveMember(s.keys, zone, KSK, ksk[0]);
      assert KeySound(s, ksk[0]);
    }
  }

  // ---- The other lines of the file --------------------------------------------------

  /** The DNSKEY lines of a file, in order. */
  function KeyTexts(lines: seq<Line>): seq<string> {
    if lines == [] then []
    else
      var last := lines[|lines| - 1];
      KeyTexts(lines[..|lines| - 1]) + if last.KeyLine? then [last.text] else []
  }

  /** Its record lines, in order. */
  function RecordTexts(lines: seq<Line>): seq<string> {
    if lines == [] then []
    else
      var last := lines[|lines| - 1];
      RecordTexts(lines[..|lines| - 1]) + if last.Resource? then [last.text] else []
  }

  lemma {:induction false} FileTextsAppend(a: seq<Line>, b: seq<Line>)
    ensures KeyTexts(a + b) == KeyTexts(a) + KeyTexts(b)
    ensures RecordTexts(a + b) == RecordTexts(a) + RecordTexts(b)
  {
    if b == [] {
      assert a + b == a;
    } else {
      var front, last := b[..|b| - 1], b[|b| - 1];
      FileTextsAppend(a, front);
      assert (a + b)[..|a + b| - 1] == a + front && (a + b)[|a + b| - 1] == last;
      Associates(KeyTexts(a), KeyTexts(front), if last.KeyLine? then [last.text] else []);
      Associates(RecordTexts(a), RecordTexts(front), if last.Resource? then [last.text] else []);
    }
  }

  lemma {:induction false} NoKeyTexts(lines: seq<Line>)
    requires forall i :: 0 <= i < |lines| ==> !lines[i].KeyLine?
    ensures KeyTexts(lines) == []
  {
    if lines != [] { NoKeyTexts(lines[..|lines| - 1]); }
  }

  lemma {:induction false} NoRecordTexts(lines: seq<Line>)
    requires forall i :: 0 <= i < |lines| ==> !lines[i].Resource?
    ensures RecordTexts(lines) == []
  {
    if lines != [] { NoRecordTexts(lines[..|lines| - 1]); }
  }

  lemma OneText(line: Line)
    ensures KeyTexts([line]) == if line.KeyLine? then [line.text] else []
    ensures RecordTexts([line]) == if line.Resource? then [line.text] else []
  {
    assert [line][..0] == [];
  }

  function Dnskeys(keys: seq<Key>): seq<string> {
    if keys == [] then [] else Dnskeys(keys[..|keys| - 1]) + [keys[|keys| - 1].dnskey]
  }

  /** The DNSKEYs of the zone's active keys, of either kind. */
  function ActiveDnskeys(keys: seq<Key>, zone: nat): multiset<string> {
    multiset(Dnskeys(Active(keys, zone, KSK))) + multiset(Dnskeys(Active(keys, zone, ZSK)))
  }

  lemma KeyTextsOfKey(key: Key)
    requires key.dnskey != ""
    ensures KeyTexts(KeyLines(key)) == if key.active then [key.dnskey] else []
  {
    var a := if key.active && key.dnskey != "" then [KeyLine(key.dnskey)] else [];
    var b := if key.active && key.ds.Some? && key.ds.value != "" then [DsLine(key.ds.value)] else [];
    FileTextsAppend(a, b);
    NoKeyTexts(b);
    OneText(KeyLine(key.dnskey));
  }

  predicate ZonesOwn(keys: seq<Key>, zone: nat) {
    forall i :: 0 <= i < |keys| ==> keys[i].zone == zone && keys[i].dnskey != ""
  }

  lemma DnskeysGrow(keys: seq<Key>, key: Key)
    ensures Dnskeys(keys + [key]) == Dnskeys(keys) + [key.dnskey]
  {
    assert (keys + [key])[..|keys|] == keys;
  }

  /** How often a list holds a text. */
  function Count(s: seq<string>, text: string): nat {
    if s == [] then 0 else Count(s[..|s| - 1], text) + if s[|s| - 1] == text then 1 else 0
  }

  lemma CountOneMore(s: seq<string>, x: string, text: string)
    ensures Count(s + [x], text) == Count(s, text) + if x == text then 1 else 0
  {
    assert (s + [x])[..|s|] == s;
  }

  lemma {:induction false} CountIsMultiplicity(s: seq<string>, text: string)
    ensures Count(s, text) == multiset(s)[text]
  {
    if s != [] {
      var front := s[..|s| - 1];
      CountIsMultiplicity(front, text);
      assert s == front + [s[|s| - 1]];
    }
  }

  /** How often a text is the DNSKEY of an active key of this kind. */
  function KindCount(keys: seq<Key>, zone: nat, kind: KeyKind, text: string): nat {
    Count(Dnskeys(Active(keys, zone, kind)), text)
  }

  function LineCount(keys: seq<Key>, text: string): nat {
    Count(KeyTexts(AllKeyLines(keys)), text)
  }

  lemma KindDnskeysGrow(front: seq<Key>, key: Key, zone: nat, kind: KeyKind, text: string)
    requires key.zone == zone
    ensures KindCount(front + [key], zone, kind, text)
            == KindCount(front, zone, kind, text)
               + if key.active && key.kind == kind && key.dnskey == text then 1 else 0
  {
    ActiveGrows(front, key, zone, kind);
    DnskeysGrow(Active(front, zone, kind), key);
    CountOneMore(Dnskeys(Active(front, zone, kind)), key.dnskey, text);
  }

  lemma KeyTextsGrow(front: seq<Key>, key: Key)
    requires key.dnskey != ""
    ensures KeyTexts(AllKeyLines(front + [key]))
            == KeyTexts(AllKeyLines(front)) + if key.active then [key.dnskey] else []
  {
    assert (front + [key])[..|front|] == front;
    FileTextsAppend(AllKeyLines(front), KeyLines(key));
    KeyTextsOfKey(key);
  }

  lemma KeyTextCount(front: seq<Key>, key: Key, text: string)
    requires key.dnskey != ""
    ensures LineCount(front + [key], text)
            == LineCount(front, text) + if key.active && key.dnskey == text then 1 else 0
  {
    KeyTextsGrow(front, key);
    if key.active {
      CountOneMore(KeyTexts(AllKeyLines(front)), key.dnskey, text);
    } else {
      assert KeyTexts(AllKeyLines(front)) + [] == KeyTexts(AllKeyLines(front));
    }
  }

  lemma {:induction false} KeyTextCounts(keys: seq<Key>, zone: nat, text: string)
    requires ZonesOwn(keys, zone)
    ensures LineCount(keys, text) == KindCount(keys, zone, KSK, text) + KindCount(keys, zone, ZSK, text)
  {
    if keys != [] {
      var front, key := keys[..|keys| - 1], keys[|keys| - 1];
      KeyTextCounts(front, zone, text);
      KeyTextCountsMore(front, key, zone, text);
      assert keys == front + [key];
    }
  }

  lemma KeyTextCountsMore(front: seq<Key>, key: Key, zone: nat, text: string)
    requires key.zone == zone && key.dnskey != ""
    requires LineCount(front, text) == KindCount(front, zone, KSK, text) + KindCount(front, zone, ZSK, text)
    ensures var keys := front + [key];
            LineCount(keys, text) == KindCount(keys, zone, KSK, text) + KindCount(keys, zone, ZSK, text)
  {
    KeyTextCount(front, key, text);
    KindDnskeysGrow(front, key, zone, KSK, text);
    KindDnskeysGrow(front, key, zone, ZSK, text);
  }

  /** The active keys of both kinds, and no others, put a DNSKEY in the file. */
  lemma KeyTextsOfKeys(keys: seq<Key>, zone: nat)
    requires ZonesOwn(keys, zone)
    ensures multiset(KeyTexts(AllKeyLines(keys))) == ActiveDnskeys(keys, zone)
  {
    var texts := KeyTexts(AllKeyLines(keys));
    var ksk, zsk := Dnskeys(Active(keys, zone, KSK)), Dnskeys(Active(keys, zone, ZSK));
    forall text ensures multiset(texts)[text] == (multiset(ksk) + multiset(zsk))[text] {
      KeyTextCounts(keys, zone, text);
      CountIsMultiplicity(texts, text);
      CountIsMultiplicity(ksk, text);
      CountIsMultiplicity(zsk, text);
      Multiplicities(multiset(ksk), multiset(zsk), text);
    }
  }

  lemma Multiplicities<T>(a: multiset<T>, b: multiset<T>, x: T)
    ensures (a + b)[x] == a[x] + b[x]
  {
  }

  lemma KeyTextsOfFile(ttl: nat, records: seq<Record>, keys: seq<Key>, dnssec: bool)
    ensures KeyTexts(ZoneLines(ttl, records, keys, dnssec)) == if dnssec then KeyTexts(AllKeyLines(keys)) else []
  {
    var front := Preamble(ttl, records);
    NoKeyTexts(front);
    FileTextsAppend(front, if dnssec then AllKeyLines(keys) else []);
  }

  /** A zone file with DNSSEC carries exactly the DNSKEYs of the zone's active keys, whatever
      order the rows come in, and without DNSSEC carries none. */
  lemma RenderedDnskeys(s: Store, zone: nat, payload: seq<Key>, ttl: nat, records: seq<Record>, dnssec: bool)
    requires Sound(s) && zone in s.zones && PayloadOf(payload, s, zone)
    ensures multiset(KeyTexts(ZoneLines(ttl, records, payload, dnssec)))
            == if dnssec then ActiveDnskeys(s.keys, zone) else multiset{}
  {
    KeyTextsOfFile(ttl, records, payload, dnssec);
    if dnssec {
      assert ZoneSound(s, zone);
      PayloadRows(s, zone, payload);
      KeyTextsOfKeys(payload, zone);
      ActiveInKeysOf(s.keys, zone, KSK);
      ActiveInKeysOf(s.keys, zone, ZSK);
      SameActive(payload, KeysOf(s.keys, zone), zone, KSK);
      SameActive(payload, KeysOf(s.keys, zone), zone, ZSK);
    }
  }

  lemma OneDnskey(key: Key)
    ensures Dnskeys([key]) == [key.dnskey]
  {
    DnskeysGrow([], key);
    assert [] + [key] == [key];
  }

  /** So signing publishes the two new keys, and nothing else. */
  lemma DnskeysAfterSign(s: Store, zone: nat, ksk: Material, zsk: Material, now: int, payload: seq<Key>, ttl: nat,
                         records: seq<Record>)
    requires Sound(s) && zone in s.zones && PayloadOf(payload, Signed(s, zone, ksk, zsk, now), zone)
    ensures var name := s.zones[zone].name;
            multiset(KeyTexts(ZoneLines(ttl, records, payload, true)))
            == multiset{name + ". 3600 IN DNSKEY 257 3 13 " + ksk.blob, name + ". 3600 IN DNSKEY 257 3 13 " + zsk.blob}
  {
    var r, name := Signed(s, zone, ksk, zsk, now), s.zones[zone].name;
    SignKeepsSound(s, zone, ksk, zsk, now);
    RenderedDnskeys(r, zone, payload, ttl, records, true);
    ActiveAfterSign(s, zone, ksk, zsk, now, zone);
    OneDnskey(NewKey(s.nextKey, zone, name, KSK, ksk));
    OneDnskey(NewKey(s.nextKey + 1, zone, name, ZSK, zsk));
  }

  /** And it publishes the DS of the new KSK. */
  lemma DsAfterSign(s: Store, zone: nat, ksk: Material, zsk: Material, now: int, payload: seq<Key>, ttl: nat,
                    records: seq<Record>)
    requires Sound(s) && zone in s.zones && PayloadOf(payload, Signed(s, zone, ksk, zsk, now), zone)
    ensures DsTexts(ZoneLines(ttl, records, payload, true))
            == [s.zones[zone].name + ". IN DS " + PrintInt(ksk.tag) + " 13 2 " + ksk.digest]
  {
    SignKeepsSound(s, zone, ksk, zsk, now);
    RenderedDs(Signed(s, zone, ksk, zsk, now), zone, payload, ttl, records, true);
  }

  function OtherKind(kind: KeyKind): KeyKind {
    if kind.KSK? then ZSK else KSK
  }

  /** A rollover publishes the new key and the old one of the other kind. */
  lemma DnskeysAfterRollover(s: Store, zone: nat, kind: KeyKind, m: Material, now: int, payload: seq<Key>, ttl: nat,
                             records: seq<Record>)
    requires Sound(s) && zone in s.zones && PayloadOf(payload, RolledOver(s, zone, kind, m, now), zone)
    ensures multiset(KeyTexts(ZoneLines(ttl, records, payload, true)))
            == multiset{s.zones[zone].name + ". 3600 IN DNSKEY 257 3 13 " + m.blob}
               + multiset(Dnskeys(Active(s.keys, zone, OtherKind(kind))))
  {
    var r, name := RolledOver(s, zone, kind, m, now), s.zones[zone].name;
    RolloverKeepsSound(s, zone, kind, m, now);
    RenderedDnskeys(r, zone, payload, ttl, records, true);
    ActiveAfterRollover(s, zone, kind, m, now, zone, KSK);
    ActiveAfterRollover(s, zone, kind, m, now, zone, ZSK);
    OneDnskey(NewKey(s.nextKey, zone, name, kind, m));
  }

  /** After unsigning there is none to publish. */
  lemma DnskeysAfterUnsign(s: Store, zone: nat, now: int, payload: seq<Key>, ttl: nat, records: seq<Record>,
                           dnssec: bool)
    requires Sound(s) && zone in s.zones && PayloadOf(payload, Unsigned(s, zone, now), zone)
    ensures KeyTexts(ZoneLines(ttl, records, payload, dnssec)) == []
  {
    UnsignKeepsSound(s, zone, now);
    RenderedDnskeys(Unsigned(s, zone, now), zone, payload, ttl, records, dnssec);
    ActiveAfterRetire(s.keys, zone, None, now, zone, KSK);
    ActiveAfterRetire(s.keys, zone, None, now, zone, ZSK);
    NoneIn(KeyTexts(ZoneLines(ttl, records, payload, dnssec)));
  }

  lemma NoneIn<T>(s: seq<T>)
    ensures multiset(s) == multiset{} ==> s == []
  {
    if s != [] { assert s[0] in multiset(s); }
  }

  lemma {:induction false} RecordsInOrder(records: seq<Record>)
    ensures |RecordTexts(Resources(records))| == |records|
    ensures forall i :: 0 <= i < |records| ==> RecordTexts(Resources(records))[i] == records[i].text
  {
    if records != [] {
      var n := |records| - 1;
      RecordsInOrder(records[..n]);
      assert Resources(records)[..n] == Resources(records[..n]) && Resources(records)[n] == Resource(records[n].text);
    }
  }

  lemma {:induction false} KeyLinesOnly(keys: seq<Key>)
    ensures forall i :: 0 <= i < |AllKeyLines(keys)| ==> AllKeyLines(keys)[i].KeyLine? || AllKeyLines(keys)[i].DsLine?
  {
    if keys != [] { KeyLinesOnly(keys[..|keys| - 1]); }
  }

  /** With or without DNSSEC the file starts with the default lifetime, has a default SOA
      exactly when no record is one, and carries every record, in order. */
  lemma RenderedRecords(ttl: nat, records: seq<Record>, keys: seq<Key>, dnssec: bool)
    ensures var lines := ZoneLines(ttl, records, keys, dnssec);
            && lines[0] == Ttl(ttl)
            && (DefaultSoa in lines <==> forall r :: r in records ==> !r.isSoa)
            && RecordTexts(lines) == RecordTexts(Resources(records))
            && |RecordTexts(lines)| == |records|
            && forall i :: 0 <= i < |records| ==> RecordTexts(lines)[i] == records[i].text
  {
    var tail := if dnssec then AllKeyLines(keys) else [];
    KeyLinesOnly(keys);
    RecordTextsOf(ttl, records, tail);
    RecordsInOrder(records);
    SoaPlace(ttl, records, tail);
  }

  lemma RecordTextsOf(ttl: nat, records: seq<Record>, tail: seq<Line>)
    requires forall i :: 0 <= i < |tail| ==> tail[i].KeyLine? || tail[i].DsLine?
    ensures RecordTexts(Preamble(ttl, records) + tail) == RecordTexts(Resources(records))
  {
    var head := [Ttl(ttl)] + (if HasSoa(records) then [] else [DefaultSoa]);
    NoRecordTexts(head);
    NoRecordTexts(tail);
    FileTextsAppend(head, Resources(records));
    FileTextsAppend(Preamble(ttl, records), tail);
    assert [] + RecordTexts(Resources(records)) == RecordTexts(Resources(records));
    assert RecordTexts(Resources(records)) + [] == RecordTexts(Resources(records));
  }

  lemma SoaPlace(ttl: nat, records: seq<Record>, tail: seq<Line>)
    requires forall i :: 0 <= i < |tail| ==> tail[i].KeyLine? || tail[i].DsLine?
    ensures DefaultSoa in Preamble(ttl, records) + tail <==> forall r :: r in records ==> !r.isSoa
  {
    var lines := Preamble(ttl, records) + tail;
    if HasSoa(records) {
      var i :| 0 <= i < |records| && records[i].isSoa;
      assert records[i] in records;
      forall j | 0 <= j < |lines| ensures lines[j] != DefaultSoa {
        if 1 <= j < 1 + |records| { assert lines[j] == Resource(records[j - 1].text); }
      }
    } else {
      assert lines[1] == DefaultSoa;
    }
  }

  // ---- The files the agent writes -------------------------------------------------

  datatype ZoneType = Master | Slave | OtherType

  /** What one pass over a zone writes: the plain file and the signed one, and which of
      the two the name server is pointed at. */
  datatype Files = Files(plain: Option<seq<Line>>, signed: Option<seq<Line>>, served: Pointer)

  datatype Pointer = NoZone | PlainFile | SignedFile

  function FilesOf(zoneType: ZoneType, enabled: bool, flag: bool, ttl: nat, records: seq<Record>, keys: seq<Key>)
    : Files
  {
    if !enabled then Files(None, None, NoZone)
    else
      Files(if zoneType.Slave? then None else Some(ZoneLines(ttl, records, keys, false)),
            if zoneType.Slave? || !flag then None else Some(ZoneLines(ttl, records, keys, true)),
            if flag then SignedFile else PlainFile)
  }

  method WriteZone(zoneType: ZoneType, enabled: bool, flag: bool, ttl: nat, records: seq<Record>, keys: seq<Key>)
    returns (files: Files)
    ensures files == FilesOf(zoneType, enabled, flag, ttl, records, keys)
  {
    if !enabled { return Files(None, None, NoZone); }
    if zoneType.Slave? { return Files(None, None, if flag then SignedFile else PlainFile); }
    var plain := RenderZone(ttl, records, keys, false);
    files := Files(Some(plain), None, PlainFile);
    if flag {
      var text := RenderZone(ttl, records, keys, true);
      files := Files(files.plain, Some(text), SignedFile);
    }
  }

  /** The lines this pass writes into the file that is served, if it writes it. */
  function Published(files: Files): Option<seq<Line>> {
    match files.served
    case NoZone => None
    case PlainFile => files.plain
    case SignedFile => files.signed
  }

  /** The agent takes the zones of one gateway instance in one payload, whose flags must not
      be null. */
  predicate Deliverable(s: Store, pushed: set<nat>) {
    forall zone :: zone in pushed && zone in s.zones ==> s.zones[zone].signed.Some?
  }

  /** What a push of these zones writes into one zone's served file, if anything. */
  function Served(s: Store, pushed: set<nat>, zone: nat, zoneType: ZoneType, enabled: bool, payload: seq<Key>, ttl: nat,
                  records: seq<Record>): Option<seq<Line>>
    requires zone in pushed && zone in s.zones
  {
    if !Deliverable(s, pushed) then None
    else Published(FilesOf(zoneType, enabled, s.zones[zone].signed.value, ttl, records, payload))
  }

  /** After any run, the served file is written exactly for enabled zones that are not
      slaves, provided no flag in the payload is null, and then shows a DS exactly when the
      flag is on and there is an active KSK, that KSK's. */
  lemma PublishedDs(events: seq<Event>, pushed: set<nat>, zone: nat, zoneType: ZoneType, enabled: bool,
                    payload: seq<Key>, ttl: nat, records: seq<Record>)
    requires zone in pushed && zone in Run(Empty, events).zones && PayloadOf(payload, Run(Empty, events), zone)
    ensures var s := Run(Empty, events);
            var file := Served(s, pushed, zone, zoneType, enabled, payload, ttl, records);
            var ksk := Active(s.keys, zone, KSK);
            && (file.Some? <==> Deliverable(s, pushed) && enabled && !zoneType.Slave?)
            && (file.Some? ==>
                  DsTexts(file.value)
                  == if s.zones[zone].signed == Some(true) && ksk != [] && ksk[0].ds.Some? then [ksk[0].ds.value] else [])
  {
    RunsAreSound(Empty, events);
    var s := Run(Empty, events);
    if Deliverable(s, pushed) {
      PublishedIs(zoneType, enabled, s.zones[zone].signed.value, ttl, records, payload);
      if enabled && !zoneType.Slave? { DsOfServed(s, zone, payload, ttl, records); }
    }
  }

  /** And its DNSKEYs are those of the active keys while the flag is on. */
  lemma PublishedDnskeys(events: seq<Event>, pushed: set<nat>, zone: nat, zoneType: ZoneType, enabled: bool,
                         payload: seq<Key>, ttl: nat, records: seq<Record>)
    requires zone in pushed && zone in Run(Empty, events).zones && PayloadOf(payload, Run(Empty, events), zone)
    ensures var s := Run(Empty, events);
            var file := Served(s, pushed, zone, zoneType, enabled, payload, ttl, records);
            file.Some? ==>
              multiset(KeyTexts(file.value))
              == if s.zones[zone].signed == Some(true) then ActiveDnskeys(s.keys, zone) else multiset{}
  {
    RunsAreSound(Empty, events);
    var s := Run(Empty, events);
    if Deliverable(s, pushed) {
      PublishedIs(zoneType, enabled, s.zones[zone].signed.value, ttl, records, payload);
      RenderedDnskeys(s, zone, payload, ttl, records, s.zones[zone].signed.value);
    }
  }

  lemma PublishedIs(zoneType: ZoneType, enabled: bool, flag: bool, ttl: nat, records: seq<Record>, keys: seq<Key>)
    ensures Published(FilesOf(zoneType, enabled, flag, ttl, records, keys))
            == if enabled && !zoneType.Slave? then Some(ZoneLines(ttl, records, keys, flag)) else None
  {
  }

  lemma DsOfServed(s: Store, zone: nat, payload: seq<Key>, ttl: nat, records: seq<Record>)
    requires Sound(s) && zone in s.zones && PayloadOf(payload, s, zone) && s.zones[zone].signed.Some?
    ensures var ksk := Active(s.keys, zone, KSK);
            DsTexts(ZoneLines(ttl, records, payload, s.zones[zone].signed.value))
            == if s.zones[zone].signed.value && ksk != [] && ksk[0].ds.Some? then [ksk[0].ds.value] else []
  {
    assert ZoneSound(s, zone);
    RenderedDs(s, zone, payload, ttl, records, s.zones[zone].signed.value);
  }

  // ---- When the flag and the keys agree ---------------------------------------------

  predicate HasKsk(s: Store, zone: nat) {
    Active(s.keys, zone, KSK) != []
  }

  /** The flag says whether the zone has an active key-signing key. */
  predicate Tied(s: Store, zone: nat)
    requires zone in s.zones
  {
    s.zones[zone].signed == Some(HasKsk(s, zone))
  }

  /** The events that write the zone's flag. */
  predicate WritesFlag(s: Store, e: Event, zone: nat) {
    match e
    case Create(_, _) => zone == s.nextZone
    case Update(z, change) => z == zone && change.Set?
    case Delete(_) => false
    case Sign(z, _, _, _) => z == zone
    case Unsign(z, _) => z == zone
    case Roll(z, requested, _, _) => z == zone && requested.Some?
  }

  /** A new zone must be asked for unsigned, an update must ask for what the keys say, and
      a ZSK may only be rolled where there is a KSK. */
  predicate Ties(s: Store, e: Event, zone: nat) {
    match e
    case Create(_, signed) => !signed
    case Update(_, change) => change == Set(Some(HasKsk(s, zone)))
    case Delete(_) => true
    case Sign(_, _, _, _) => true
    case Unsign(_, _) => true
    case Roll(_, requested, _, _) => requested == Some(KSK) || HasKsk(s, zone)
  }

  lemma CreateTiedIff(s: Store, name: string, signed: bool)
    requires Sound(s)
    ensures Tied(Created(s, name, signed), s.nextZone) <==> !signed
  {
    forall i | 0 <= i < |s.keys| ensures s.keys[i].zone != s.nextZone { assert KeySound(s, s.keys[i]); }
    NoKeysYet(s.keys, s.nextZone, KSK);
  }

  /** One event, exactly: those that do not write the flag leave the tie as it was. */
  lemma StepTiedIff(s: Store, e: Event, zone: nat)
    requires Sound(s) && zone in Step(s, e).zones
    ensures WritesFlag(s, e, zone) ==> (Tied(Step(s, e), zone) <==> Ties(s, e, zone))
    ensures !WritesFlag(s, e, zone) ==> zone in s.zones && (Tied(Step(s, e), zone) <==> Tied(s, zone))
  {
    match e
    case Create(name, signed) => CreateTiedIff(s, name, signed);
    case Update(z, change) =>
    case Delete(z) => ActiveAfterDelete(s.keys, z, zone, KSK);
    case Sign(z, ksk, zsk, now) => if z in s.zones { SignTied(s, z, ksk, zsk, now, zone); }
    case Unsign(z, now) => if z in s.zones { UnsignTied(s, z, now, zone); }
    case Roll(z, requested, m, now) =>
      if z in s.zones && requested.Some? { RollTiedIff(s, z, requested.value, m, now, zone); }
  }

  lemma SignTied(s: Store, z: nat, ksk: Material, zsk: Material, now: int, zone: nat)
    requires z in s.zones && zone in s.zones
    ensures Tied(Signed(s, z, ksk, zsk, now), zone) <==> z == zone || Tied(s, zone)
  {
    ActiveAfterSign(s, z, ksk, zsk, now, zone);
  }

  lemma UnsignTied(s: Store, z: nat, now: int, zone: nat)
    requires z in s.zones && zone in s.zones
    ensures Tied(Unsigned(s, z, now), zone) <==> z == zone || Tied(s, zone)
  {
    ActiveAfterRetire(s.keys, z, None, now, zone, KSK);
  }

  lemma RollTiedIff(s: Store, z: nat, kind: KeyKind, m: Material, now: int, zone: nat)
    requires z in s.zones && zone in s.zones
    ensures Tied(RolledOver(s, z, kind, m, now), zone)
            <==> if z == zone then kind.KSK? || HasKsk(s, zone) else Tied(s, zone)
  {
    ActiveAfterRollover(s, z, kind, m, now, zone, KSK);
  }

  lemma {:induction false} RunStep(s: Store, events: seq<Event>, n: nat)
    requires n < |events|
    ensures Run(s, events[..n + 1]) == Step(Run(s, events[..n]), events[n])
    decreases |events|
  {
    if n == 0 {
      assert events[..1][1..] == [];
    } else {
      RunStep(Step(s, events[0]), events[1..], n - 1);
      assert events[..n + 1][1..] == events[1..][..n] && events[..n][1..] == events[1..][..n - 1];
    }
  }

  /** The run's event `i` is the last of its first `n` to write the zone's flag. */
  predicate LastWrite(s: Store, events: seq<Event>, zone: nat, i: nat, n: nat)
    requires i < n <= |events|
  {
    && WritesFlag(Run(s, events[..i]), events[i], zone)
    && forall j :: i < j < n ==> !WritesFlag(Run(s, events[..j]), events[j], zone)
  }

  /** Over any run, flag and keys agree in a zone exactly when the last event to write the
      flag was one that ties them. */
  lemma {:induction false} RunTiedIff(s: Store, events: seq<Event>, zone: nat, i: nat, n: nat)
    requires Sound(s) && i < n <= |events| && LastWrite(s, events, zone, i, n)
    requires zone in Run(s, events[..n]).zones
    ensures Tied(Run(s, events[..n]), zone) <==> Ties(Run(s, events[..i]), events[i], zone)
    decreases n
  {
    RunsAreSound(s, events[..n - 1]);
    RunStep(s, events, n - 1);
    StepTiedIff(Run(s, events[..n - 1]), events[n - 1], zone);
    if i < n - 1 { RunTiedIff(s, events, zone, i, n - 1); }
  }

  lemma StepNullIff(s: Store, e: Event, zone: nat)
    requires zone in Step(s, e).zones
    ensures WritesFlag(s, e, zone) ==> (Step(s, e).zones[zone].signed.None? <==> e == Update(zone, Set(None)))
    ensures !WritesFlag(s, e, zone) ==> zone in s.zones && Step(s, e).zones[zone].signed == s.zones[zone].signed
  {
  }

  /** Over any run, a zone's flag is null exactly when the last event to write it was an
      update to null. */
  lemma {:induction false} RunNullIff(s: Store, events: seq<Event>, zone: nat, i: nat, n: nat)
    requires i < n <= |events| && LastWrite(s, events, zone, i, n)
    requires zone in Run(s, events[..n]).zones
    ensures Run(s, events[..n]).zones[zone].signed.None? <==> events[i] == Update(zone, Set(None))
    decreases n
  {
    RunStep(s, events, n - 1);
    StepNullIff(Run(s, events[..n - 1]), events[n - 1], zone);
    if i < n - 1 { RunNullIff(s, events, zone, i, n - 1); }
  }

  /** The four ways apart: a zone asked for signed, a flag updated away from its keys or to
      null, and a ZSK rolled where there is no KSK. */
  lemma FlagIsNotTied(name: string, ksk: Material, zsk: Material)
    ensures var s := Run(Empty, [Create(name, true)]);
            0 in s.zones && s.zones[0].signed == Some(true) && !HasKsk(s, 0)
    ensures var s := Run(Empty, [Create(name, false), Sign(0, ksk, zsk, 0), Update(0, Set(Some(false)))]);
            0 in s.zones && s.zones[0].signed == Some(false) && HasKsk(s, 0) && s.zones[0].ds.Some?
    ensures var s := Run(Empty, [Create(name, false), Update(0, Set(None))]);
            0 in s.zones && s.zones[0].signed.None? && forall pushed :: 0 in pushed ==> !Deliverable(s, pushed)
    ensures var s := Run(Empty, [Create(name, false), Roll(0, Some(ZSK), zsk, 0)]);
            0 in s.zones && s.zones[0].signed == Some(true) && !HasKsk(s, 0)
  {
    SignedWithoutKeys(name);
    UnsignedWithKeys(name, ksk, zsk);
    NullFlag(name);
    RolledWithoutKsk(name, zsk);
  }

  lemma SignedWithoutKeys(name: string)
    ensures var s := Run(Empty, [Create(name, true)]);
            0 in s.zones && s.zones[0].signed == Some(true) && !HasKsk(s, 0)
  {
    assert Run(Empty, [Create(name, true)]) == Run(Created(Empty, name, true), []);
  }

  lemma UnsignedWithKeys(name: string, ksk: Material, zsk: Material)
    ensures var s := Run(Empty, [Create(name, false), Sign(0, ksk, zsk, 0), Update(0, Set(Some(false)))]);
            0 in s.zones && s.zones[0].signed == Some(false) && HasKsk(s, 0) && s.zones[0].ds.Some?
  {
    var s0 := Created(Empty, name, false);
    var s1 := Signed(s0, 0, ksk, zsk, 0);
    var off := Update(0, Set(Some(false)));
    var events := [Create(name, false), Sign(0, ksk, zsk, 0), off];
    assert events[1..] == [Sign(0, ksk, zsk, 0), off] && events[1..][1..] == [off];
    assert Run(Empty, events) == Run(s0, events[1..]);
    assert Run(s0, events[1..]) == Run(s1, events[1..][1..]);
    assert Run(s1, [off]) == Run(Updated(s1, 0, Set(Some(false))), []);
    ActiveAfterSign(s0, 0, ksk, zsk, 0, 0);
  }

  lemma NullFlag(name: string)
    ensures var s := Run(Empty, [Create(name, false), Update(0, Set(None))]);
            0 in s.zones && s.zones[0].signed.None? && forall pushed :: 0 in pushed ==> !Deliverable(s, pushed)
  {
    var s0 := Created(Empty, name, false);
    var events := [Create(name, false), Update(0, Set(None))];
    assert events[1..] == [Update(0, Set(None))];
    assert Run(s0, [Update(0, Set(None))]) == Run(Updated(s0, 0, Set(None)), []);
    assert Updated(s0, 0, Set(None)).zones[0].signed.None?;
  }

  lemma RolledWithoutKsk(name: string, zsk: Material)
    ensures var s := Run(Empty, [Create(name, false), Roll(0, Some(ZSK), zsk, 0)]);
            0 in s.zones && s.zones[0].signed == Some(true) && !HasKsk(s, 0)
  {
    var s0 := Created(Empty, name, false);
    var events := [Create(name, false), Roll(0, Some(ZSK), zsk, 0)];
    assert events[1..] == [Roll(0, Some(ZSK), zsk, 0)];
    assert Run(s0, [Roll(0, Some(ZSK), zsk, 0)]) == Run(RolledOver(s0, 0, ZSK, zsk, 0), []);
    ActiveAfterRollover(s0, 0, ZSK, zsk, 0, 0, KSK);
  }
}
