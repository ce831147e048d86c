/** The legacy BIND import: how the parser spells name server targets, dropping the name
    server records the console adds by itself, in place, and sending the rest in batches. */
module BindImport {
  import opened Sequences
  import opened Text

  // ---- Zones and records -----------------------------------------------------------

  datatype RecordType = NS | Other(name: string)

  /** `data` stands for the fields the import only passes on. */
  datatype Record = Record(name: string, rtype: RecordType, content: string, data: int)

  datatype ZonePlan = ZonePlan(origin: string, records: seq<Record>)

  /** A name server record whose content is the server's full name, letter by letter. */
  predicate IsServerNs(r: Record, server: string) {
    r.rtype.NS? && r.content == server
  }

  // ---- What a name says --------------------------------------------------------------

  /** `_ensure_fqdn`. */
  function EnsureFqdn(name: string): (fqdn: string)
    ensures EndsWith(fqdn, ".")
  {
    if EndsWith(name, ".") then name else name + "."
  }

  /** The full name of the zone itself; `origin` has no dot at its end. */
  function ZoneName(origin: string): string {
    origin + "."
  }

  /** What is put behind a relative name. */
  function Tail(origin: string): (tail: string)
    ensures EndsWith(tail, ".")
  {
    if origin == "" then "." else "." + ZoneName(origin)
  }

  /** The full name a record's content stands for: "@" is the zone itself, a name with a
      dot at its end is full already, any other is relative to the zone. */
  function FullName(content: string, origin: string): string {
    if content == "@" then ZoneName(origin)
    else if EndsWith(content, ".") then content
    else content + Tail(origin)
  }

  /** Names differ in letter case without differing. */
  predicate SameHost(a: string, b: string) {
    Lower(a) == Lower(b)
  }

  /** A name server record that names the server, however it spells it. */
  predicate NamesServer(r: Record, origin: string, server: string) {
    r.rtype.NS? && SameHost(FullName(r.content, origin), server)
  }

  /** It names the server in another spelling: relative to the zone, or in other letters. */
  predicate Respells(r: Record, origin: string, server: string) {
    NamesServer(r, origin, server) && r.content != server
  }

  /** A content that is the server's full name names the server; another one does by being
      relative or by its letters. */
  lemma RespellsIff(r: Record, origin: string, name: string)
    ensures var server := EnsureFqdn(name);
            && (IsServerNs(r, server) <==> NamesServer(r, origin, server) && !Respells(r, origin, server))
            && (Respells(r, origin, server) ==>
                  !EndsWith(r.content, ".") || (SameHost(r.content, server) && r.content != server))
  {
    var server := EnsureFqdn(name);
    if r.content == server { DotIsNoAt(server); }
  }

  lemma DotIsNoAt(text: string)
    requires EndsWith(text, ".")
    ensures text != "@"
  {
    assert text[|text| - 1] == text[|text| - 1..][0] == '.';
  }

  // ---- The filter ----------------------------------------------------------------------

  function Kept(server: string): Record -> seq<Record> {
    (r: Record) => if IsServerNs(r, server) then [] else [r]
  }

  function Filtered(zone: ZonePlan, server: string): ZonePlan {
    zone.(records := Flat(Kept(server), zone.records))
  }

  lemma KeptAgain(records: seq<Record>, server: string)
    ensures Flat(Kept(server), Flat(Kept(server), records)) == Flat(Kept(server), records)
  {
    var f := Kept(server);
    forall i | 0 <= i < |records| ensures f(records[i]) == Flat(f, f(records[i])) {
      FlatOne(f, records[i]);
    }
    FlatCompose(f, f, f, records);
  }

  /** Filtering a filtered zone changes nothing. */
  lemma FilterIsIdempotent(zone: ZonePlan, server: string)
    ensures Filtered(Filtered(zone, server), server) == Filtered(zone, server)
  {
    KeptAgain(zone.records, server);
  }

  lemma FilterRemoves(zone: ZonePlan, server: string, r: Record)
    ensures r in Filtered(zone, server).records <==> r in zone.records && !IsServerNs(r, server)
  {
    FlatMembers(Kept(server), zone.records, r);
  }

  // ---- In place, through the first equal slot -----------------------------------------

  method FilterRecords(records: seq<Record>, server: string) returns (kept: seq<Record>)
    ensures kept == Flat(Kept(server), records)
  {
    kept := [];
    for i := 0 to |records|
      invariant kept == Flat(Kept(server), records[..i])
    {
      FlatStep(Kept(server), records, i);
      if !IsServerNs(records[i], server) { kept := kept + [records[i]]; }
    }
    assert records[..|records|] == records;
  }

  /** `list.index`: the first slot that equals the zone. */
  method IndexOf(zones: array<ZonePlan>, zone: ZonePlan) returns (j: nat)
    requires zone in zones[..]
    ensures j < zones.Length && zones[j] == zone && forall i :: 0 <= i < j ==> zones[i] != zone
  {
    j := 0;
    while zones[j] != zone
      invariant j < zones.Length && forall i :: 0 <= i < j ==> zones[i] != zone
      decreases zones.Length - j
    {
      assert exists i :: j < i < zones.Length && zones[i] == zone;
      j := j + 1;
    }
  }

  /** The first `k` slots hold their own zone filtered, the others are untouched. */
  predicate FilteredUpTo(now: seq<ZonePlan>, was: seq<ZonePlan>, k: nat, server: string) {
    && |now| == |was| && k <= |was|
    && (forall i :: 0 <= i < k ==> now[i] == Filtered(was[i], server))
    && forall i :: k <= i < |was| ==> now[i] == was[i]
  }

  /** Writing through an earlier equal slot is writing what is already there. */
  lemma WriteThrough(now: seq<ZonePlan>, was: seq<ZonePlan>, k: nat, j: nat, server: string)
    requires FilteredUpTo(now, was, k, server) && j <= k < |was| && now[j] == now[k]
    ensures FilteredUpTo(now[j := Filtered(now[k], server)], was, k + 1, server)
  {
    if j < k { FilterIsIdempotent(was[j], server); }
    var after := now[j := Filtered(now[k], server)];
    assert after[j] == Filtered(was[j], server) && after[k] == Filtered(was[k], server);
  }

  /** Each zone's filtered form is written to the first slot equal to the zone, which may be
      an earlier one; every slot still ends up with its own zone filtered. */
  method SkipServerNsDuplicate(zones: array<ZonePlan>, server: string)
    modifies zones
    ensures FilteredUpTo(zones[..], old(zones[..]), zones.Length, server)
  {
    ghost var was := zones[..];
    for k := 0 to zones.Length
      invariant FilteredUpTo(zones[..], was, k, server)
    {
      var kept := FilterRecords(zones[k].records, server);
      var filtered := zones[k].(records := kept);
      var j := IndexOf(zones, zones[k]);
      WriteThrough(zones[..], was, k, j, server);
      ghost var now := zones[..];
      zones[j] := filtered;
      assert zones[..] == now[j := filtered];
    }
  }

  // ---- Batches ------------------------------------------------------------------------

  const BULK_LIMIT := 500

  /** The batches in order, end to end. */
  function Concat<T>(batches: seq<seq<T>>): seq<T> {
    Flat((batch: seq<T>) => batch, batches)
  }

  /** Every batch is full, save possibly the last, which is not empty. */
  predicate Batched<T>(batches: seq<seq<T>>, size: nat) {
    && (forall i :: 0 <= i < |batches| ==> 0 < |batches[i]| <= size)
    && forall i :: 0 <= i < |batches| - 1 ==> |batches[i]| == size
  }

  method Chunked<T>(items: seq<T>, size: nat) returns (batches: seq<seq<T>>)
    requires size > 0
    ensures Concat(batches) == items && Batched(batches, size)
  {
    batches := [];
    var i := 0;
    while i < |items|
      invariant 0 <= i && Concat(batches) == items[..if i < |items| then i else |items|]
      invariant Batched(batches, size)
      invariant i < |items| ==> forall b :: 0 <= b < |batches| ==> |batches[b]| == size
    {
      var end := if i + size < |items| then i + size else |items|;
      assert items[..i] + items[i..end] == items[..end];
      batches := batches + [items[i..end]];
      i := i + size;
    }
    assert items[..|items|] == items;
  }

  // ---- What the console ends up with ---------------------------------------------------

  /** The record the console creates with every master zone. */
  function AutoNs(server: string): Record {
    Record("@", NS, server, 0)
  }

  /** The zone's rows after the import. */
  function Imported(zone: ZonePlan, server: string): seq<Record> {
    [AutoNs(server)] + Filtered(zone, server).records
  }

  /** The zone after the import: the automatic record, then the batches. */
  method ImportZone(zone: ZonePlan, server: string) returns (stored: seq<Record>)
    ensures stored == Imported(zone, server)
  {
    stored := [AutoNs(server)];
    var kept := FilterRecords(zone.records, server);
    var batches := Chunked(kept, BULK_LIMIT);
    for i := 0 to |batches|
      invariant stored == [AutoNs(server)] + Concat(batches[..i])
    {
      assert batches[..i + 1] == batches[..i] + [batches[i]];
      stored := stored + batches[i];
    }
    assert batches[..|batches|] == batches;
  }

  // How often the server is named.

  function CountNaming(records: seq<Record>, origin: string, server: string): nat {
    if records == [] then 0
    else CountNaming(records[..|records| - 1], origin, server)
         + if NamesServer(records[|records| - 1], origin, server) then 1 else 0
  }

  function CountRespelled(records: seq<Record>, origin: string, server: string): nat {
    if records == [] then 0
    else CountRespelled(records[..|records| - 1], origin, server)
         + if Respells(records[|records| - 1], origin, server) then 1 else 0
  }

  lemma CountMore(records: seq<Record>, r: Record, origin: string, server: string)
    ensures CountNaming(records + [r], origin, server)
            == CountNaming(records, origin, server) + if NamesServer(r, origin, server) then 1 else 0
  {
    assert (records + [r])[..|records|] == records;
  }

  lemma {:induction false} CountBehind(r: Record, records: seq<Record>, origin: string, server: string)
    ensures CountNaming([r] + records, origin, server)
            == CountNaming(records, origin, server) + if NamesServer(r, origin, server) then 1 else 0
  {
    if records == [] {
      CountMore([], r, origin, server);
      assert [] + [r] == [r] + records;
    } else {
      var front, last := records[..|records| - 1], records[|records| - 1];
      CountBehind(r, front, origin, server);
      CountMore([r] + front, last, origin, server);
      assert ([r] + front) + [last] == [r] + records;
    }
  }

  /** The filter leaves exactly the other spellings. */
  lemma {:induction false} FilterLeavesRespelled(records: seq<Record>, origin: string, name: string)
    ensures var server := EnsureFqdn(name);
            CountNaming(Flat(Kept(server), records), origin, server) == CountRespelled(records, origin, server)
  {
    var server := EnsureFqdn(name);
    if records != [] {
      var front, last := records[..|records| - 1], records[|records| - 1];
      FilterLeavesRespelled(front, origin, name);
      RespellsIff(last, origin, name);
      var kept := Flat(Kept(server), front);
      CountMore(kept, last, origin, server);
      assert kept + [] == kept;
    }
  }

  lemma {:induction false} NoneRespelled(records: seq<Record>, origin: string, server: string)
    ensures CountRespelled(records, origin, server) == 0 <==> forall r :: r in records ==> !Respells(r, origin, server)
  {
    if records != [] {
      NoneRespelled(records[..|records| - 1], origin, server);
      assert records == records[..|records| - 1] + [records[|records| - 1]];
    }
  }

  /** The imported zone names the server once for the automatic record and once more for
      every record that spells it otherwise. */
  lemma ServerNamedTimes(zone: ZonePlan, name: string)
    ensures var server := EnsureFqdn(name);
            CountNaming(Imported(zone, server), zone.origin, server)
            == 1 + CountRespelled(zone.records, zone.origin, server)
  {
    var server := EnsureFqdn(name);
    CountBehind(AutoNs(server), Filtered(zone, server).records, zone.origin, server);
    FilterLeavesRespelled(zone.records, zone.origin, name);
    RespellsIff(AutoNs(server), zone.origin, name);
  }

  /** So it names it exactly once if and only if no record spells it otherwise. */
  lemma ServerNamedOnceIff(zone: ZonePlan, name: string)
    ensures var server := EnsureFqdn(name);
            CountNaming(Imported(zone, server), zone.origin, server) == 1
            <==> forall r :: r in zone.records ==> !Respells(r, zone.origin, server)
  {
    ServerNamedTimes(zone, name);
    NoneRespelled(zone.records, zone.origin, EnsureFqdn(name));
  }

  // What is lost.

  /** Two rows that say the same to a resolver: owner, type, and content, which for a name
      server is the host it stands for. */
  predicate Same(a: Record, b: Record, origin: string) {
    && a.name == b.name && a.rtype == b.rtype
    && (a.content == b.content || (a.rtype.NS? && SameHost(FullName(a.content, origin), FullName(b.content, origin))))
  }

  predicate Survives(r: Record, zone: ZonePlan, server: string) {
    exists k :: k in Imported(zone, server) && Same(r, k, zone.origin)
  }

  /** The zone's records name the server for this owner in another spelling. */
  predicate RespelledAt(zone: ZonePlan, owner: string, server: string) {
    exists k :: k in zone.records && k.name == owner && Respells(k, zone.origin, server)
  }

  /** The import loses no record exactly when every record that spells the server in full is
      at the zone's own name or has another spelling beside it: a delegation to the server
      is dropped like the duplicate, and nothing replaces it. */
  lemma NothingLostIff(zone: ZonePlan, name: string)
    ensures var server := EnsureFqdn(name);
            (forall r :: r in zone.records ==> Survives(r, zone, server))
            <==> forall r :: r in zone.records && IsServerNs(r, server) ==>
                   r.name == "@" || RespelledAt(zone, r.name, server)
  {
    var server := EnsureFqdn(name);
    forall r | r in zone.records
      ensures Survives(r, zone, server)
              <==> (IsServerNs(r, server) ==> r.name == "@" || RespelledAt(zone, r.name, server))
    {
      SurvivesIff(zone, name, r);
    }
  }

  lemma SurvivesIff(zone: ZonePlan, name: string, r: Record)
    requires r in zone.records
    ensures var server := EnsureFqdn(name);
            Survives(r, zone, server) <==> (IsServerNs(r, server) ==> r.name == "@" || RespelledAt(zone, r.name, server))
  {
    var server := EnsureFqdn(name);
    FilterRemoves(zone, server, r);
    if !IsServerNs(r, server) {
      assert r in Imported(zone, server) && Same(r, r, zone.origin);
    } else {
      RespellsIff(r, zone.origin, name);
      if r.name == "@" {
        assert AutoNs(server) in Imported(zone, server) && Same(r, AutoNs(server), zone.origin);
      } else {
        DroppedSurvivesIff(zone, name, r);
      }
    }
  }

  /** A dropped delegation survives only in another spelling of itself. */
  lemma DroppedSurvivesIff(zone: ZonePlan, name: string, r: Record)
    requires r in zone.records && IsServerNs(r, EnsureFqdn(name)) && r.name != "@"
    ensures var server := EnsureFqdn(name); Survives(r, zone, server) <==> RespelledAt(zone, r.name, server)
  {
    var server := EnsureFqdn(name);
    RespellsIff(r, zone.origin, name);
    if k :| k in zone.records && k.name == r.name && Respells(k, zone.origin, server) {
      FilterRemoves(zone, server, k);
      assert k in Imported(zone, server) && Same(r, k, zone.origin);
    }
    if k :| k in Imported(zone, server) && Same(r, k, zone.origin) {
      FilterRemoves(zone, server, k);
      assert k != AutoNs(server);
      assert k in zone.records && Respells(k, zone.origin, server);
    }
  }

  // ---- How the parser spells targets -----------------------------------------------------

  /** A full host name as a zone file gives it: no empty label, no "@" and no escapes. */
  predicate HostName(t: string) {
    && |t| > 1 && EndsWith(t, ".") && t[0] != '.' && '@' !in t && '\\' !in t
    && forall i :: 0 < i < |t| && t[i] == '.' ==> t[i - 1] != '.'
  }

  /** The name lies below the zone, in whatever letters. */
  predicate Below(t: string, origin: string) {
    |t| > |Tail(origin)| && SameHost(t[|t| - |Tail(origin)|..], Tail(origin))
  }

  predicate InZone(t: string, origin: string) {
    SameHost(t, ZoneName(origin)) || Below(t, origin)
  }

  /** The content the parser keeps: names in the zone lose the zone's name. */
  function Relativized(t: string, origin: string): string {
    if SameHost(t, ZoneName(origin)) then "@"
    else if Below(t, origin) then t[..|t| - |Tail(origin)|]
    else t
  }

  /** The content stands for the name it was made from, up to letter case, and spells it in
      full exactly when the name is not in the zone. */
  lemma RelativizedMeans(t: string, origin: string)
    requires HostName(t)
    ensures SameHost(FullName(Relativized(t, origin), origin), t)
    ensures InZone(t, origin) <==> !EndsWith(Relativized(t, origin), ".")
    ensures !InZone(t, origin) ==> Relativized(t, origin) == t
  {
    if SameHost(t, ZoneName(origin)) {
      assert !EndsWith("@", ".");
    } else if Below(t, origin) {
      CutMeans(t, origin, |t| - |Tail(origin)|);
    } else {
      DotIsNoAt(t);
    }
  }

  lemma CutMeans(t: string, origin: string, n: nat)
    requires HostName(t) && 0 < n <= |t| && SameHost(t[n..], Tail(origin))
    ensures !EndsWith(t[..n], ".") && t[..n] != "@" && SameHost(t[..n] + Tail(origin), t)
  {
    DotStartsTail(t[n..], origin);
    CutIsRelative(t, n);
    SameCut(t, n, Tail(origin));
  }

  lemma SameCut(t: string, n: nat, tail: string)
    requires n <= |t| && SameHost(t[n..], tail)
    ensures SameHost(t[..n] + tail, t)
  {
    SameBehind(t[..n], t[n..], tail);
    assert t == t[..n] + t[n..];
  }

  lemma DotStartsTail(rest: string, origin: string)
    requires SameHost(rest, Tail(origin))
    ensures rest != "" && rest[0] == '.'
  {
    assert Lower(rest)[0] == Lower(Tail(origin))[0];
  }

  lemma CutIsRelative(t: string, n: nat)
    requires HostName(t) && 0 < n < |t| && t[n] == '.'
    ensures !EndsWith(t[..n], ".") && t[..n] != "@"
  {
    assert t[n - 1] != '.';
    assert t[..n][n - 1..] == [t[n - 1]];
    assert t[..n][0] == t[0] && t[0] in t;
  }

  lemma SameBehind(front: string, a: string, b: string)
    requires SameHost(a, b)
    ensures SameHost(front + b, front + a)
  {
    LowerAppend(front, a);
    LowerAppend(front, b);
  }

  /** A record of the zone file; `target` is the full name a name server record gives. */
  datatype FileRecord = FileRecord(name: string, rtype: RecordType, target: string, data: int)

  function Parsed(r: FileRecord, origin: string): Record {
    Record(r.name, r.rtype, if r.rtype.NS? then Relativized(r.target, origin) else r.target, r.data)
  }

  function ParsedZone(file: seq<FileRecord>, origin: string): (zone: ZonePlan)
    ensures zone.origin == origin && |zone.records| == |file|
    ensures forall i :: 0 <= i < |file| ==> zone.records[i] == Parsed(file[i], origin)
  {
    ZonePlan(origin, seq(|file|, i requires 0 <= i < |file| => Parsed(file[i], origin)))
  }

  predicate HostNames(file: seq<FileRecord>) {
    forall i :: 0 <= i < |file| && file[i].rtype.NS? ==> HostName(file[i].target)
  }

  /** A line of the file that names the server. */
  predicate FileNames(r: FileRecord, server: string) {
    r.rtype.NS? && SameHost(r.target, server)
  }

  lemma ParsedRespellsIff(r: FileRecord, origin: string, name: string)
    requires r.rtype.NS? ==> HostName(r.target)
    ensures var server := EnsureFqdn(name);
            Respells(Parsed(r, origin), origin, server)
            <==> FileNames(r, server) && (InZone(r.target, origin) || r.target != server)
  {
    if r.rtype.NS? { RelativizedMeans(r.target, origin); }
  }

  /** In terms of the zone file: the server is named exactly once if and only if the lines
      that name it are written in its own letters and, should there be any, it lies outside
      the zone. A server inside its own zone that the file names is named again. */
  lemma FileNamedOnceIff(file: seq<FileRecord>, origin: string, name: string)
    requires HostNames(file)
    ensures var server := EnsureFqdn(name);
            CountNaming(Imported(ParsedZone(file, origin), server), origin, server) == 1
            <==> forall i :: 0 <= i < |file| && FileNames(file[i], server) ==>
                   file[i].target == server && !InZone(server, origin)
  {
    var zone, server := ParsedZone(file, origin), EnsureFqdn(name);
    ServerNamedOnceIff(zone, name);
    forall i | 0 <= i < |file|
      ensures Respells(zone.records[i], origin, server)
              <==> FileNames(file[i], server) && (InZone(file[i].target, origin) || file[i].target != server)
    {
      ParsedRespellsIff(file[i], origin, name);
    }
    if forall r :: r in zone.records ==> !Respells(r, origin, server) {
      forall i | 0 <= i < |file| && FileNames(file[i], server)
        ensures file[i].target == server && !InZone(server, origin)
      {
        assert zone.records[i] in zone.records;
      }
    }
  }

  // ---- Three zones -------------------------------------------------------------------------

  /** A host of the zone is kept as its own part of the name. */
  lemma HostOfZone(host: string, origin: string)
    requires host != "" && !EndsWith(host, ".") && host != "@" && origin != ""
    ensures Relativized(host + Tail(origin), origin) == host && FullName(host, origin) == host + Tail(origin)
  {
    var t := host + Tail(origin);
    assert |Lower(t)| > |Lower(ZoneName(origin))|;
    assert t[|t| - |Tail(origin)|..] == Tail(origin) && t[..|t| - |Tail(origin)|] == host;
  }

  /** grafixpromo.com with `@ NS dns1.grafixpromo.com.` and the script's own default server:
      the record is kept as "dns1", and the server is named twice. */
  lemma OwnZoneNamedTwice() returns (origin: string, server: string, file: seq<FileRecord>)
    ensures origin == "grafixpromo.com" && server == "dns1" + Tail(origin) && EnsureFqdn(server) == server
    ensures file == [FileRecord("@", NS, server, 0)]
    ensures ParsedZone(file, origin).records == [Record("@", NS, "dns1", 0)]
    ensures CountNaming(Imported(ParsedZone(file, origin), server), origin, server) == 2
  {
    origin := "grafixpromo.com";
    server := "dns1" + Tail(origin);
    file := [FileRecord("@", NS, server, 0)];
    OneHostNamedTwice("dns1", origin, "@");
  }

  lemma TailIsFull(front: string, origin: string)
    ensures EnsureFqdn(front + Tail(origin)) == front + Tail(origin)
  {
    var full, tail := front + Tail(origin), Tail(origin);
    assert full[|full| - 1..] == tail[|tail| - 1..] == ".";
  }

  lemma OneRespelled(r: Record, origin: string, name: string)
    requires Respells(r, origin, EnsureFqdn(name))
    ensures var zone, server := ZonePlan(origin, [r]), EnsureFqdn(name);
            CountNaming(Imported(zone, server), origin, server) == 2 && Survives(r, zone, server)
  {
    var zone := ZonePlan(origin, [r]);
    assert [r][..0] == [] && r in zone.records;
    ServerNamedTimes(zone, name);
    RespellsIff(r, origin, name);
    SurvivesIff(zone, name, r);
  }

  lemma OneHostNamedTwice(host: string, origin: string, owner: string)
    requires host != "" && !EndsWith(host, ".") && host != "@" && origin != ""
    ensures var server := host + Tail(origin);
            var zone := ParsedZone([FileRecord(owner, NS, server, 0)], origin);
            && EnsureFqdn(server) == server
            && zone.records == [Record(owner, NS, host, 0)]
            && CountNaming(Imported(zone, server), origin, server) == 2
            && Survives(zone.records[0], zone, server)
  {
    var server := host + Tail(origin);
    var r := Record(owner, NS, host, 0);
    HostOfZone(host, origin);
    TailIsFull(host, origin);
    assert ParsedZone([FileRecord(owner, NS, server, 0)], origin) == ZonePlan(origin, [r]);
    OneRespelled(r, origin, server);
  }

  /** There a delegation of `lab` to dns1 is kept. */
  lemma OwnDelegationKept() returns (zone: ZonePlan, server: string)
    ensures zone == ZonePlan("grafixpromo.com", [Record("lab", NS, "dns1", 0)]) && server == "dns1" + Tail(zone.origin)
    ensures Survives(zone.records[0], zone, server)
  {
    server := "dns1" + Tail("grafixpromo.com");
    zone := ParsedZone([FileRecord("lab", NS, server, 0)], "grafixpromo.com");
    OneHostNamedTwice("dns1", "grafixpromo.com", "lab");
  }

  /** A delegation to a server outside the zone: the child zone's name server record is gone. */
  lemma DelegationLost() returns (zone: ZonePlan, server: string)
    ensures server == "ns1.example.net." && zone == ZonePlan("example.org", [Record("lab", NS, server, 0)])
    ensures EnsureFqdn(server) == server && !Survives(zone.records[0], zone, server)
  {
    server := "ns1.example.net.";
    zone := ZonePlan("example.org", [Record("lab", NS, server, 0)]);
    assert server[|server| - 1..] == ".";
    assert zone.records[0] in zone.records && |"lab"| != |"@"|;
    SurvivesIff(zone, server, zone.records[0]);
  }
}
