/** Kea's lease file: the parser that lists it and the handler that rewrites it to release
    one lease. Files are unquoted CSV. */
module Leases {
  import opened Wrappers
  import opened Sequences
  import opened Text
  import opened Lines

  // ---- Lines and cells ------------------------------------------------------------

  /** One CSV row; an empty line is a row without cells. */
  function Cells(line: string): seq<string> {
    if line == "" then [] else Split(line, ',')
  }

  /** The first cell, trimmed; "" for an empty line. */
  function FirstCell(line: string): string {
    if line == "" then "" else Strip(Split(line, ',')[0])
  }

  // ---- Entries ---------------------------------------------------------------------

  datatype Kind = V4 | V6

  /** What a lease entry tells besides its address. */
  datatype Column = HwAddress | ClientId | Hostname | Expires | State | SubnetId | PoolId

  const COLUMNS: seq<Column> := [HwAddress, ClientId, Hostname, Expires, State, SubnetId, PoolId]

  /** An entry: its address and the values of `COLUMNS`, "" where the file has none. */
  datatype Entry = Entry(ip: string, values: seq<string>, kind: Kind)

  /** The column names a file without a header has. */
  function FieldNames(kind: Kind): seq<string> {
    if kind.V4? then
      ["address", "hwaddr", "client_id", "valid_lifetime", "expire", "subnet_id", "fqdn_fwd", "fqdn_rev",
       "hostname", "state", "user_context", "pool_id"]
    else
      ["address", "duid", "valid_lifetime", "expire", "subnet_id", "pref_lifetime", "lease_type", "iaid", "prefix_len",
       "fqdn_fwd", "fqdn_rev", "hostname", "state", "user_context", "pool_id"]
  }

  /** The row's value under a column name: the last column of that name decides, and a row
      too short to reach it has none. */
  function Lookup(names: seq<string>, row: seq<string>, key: string): string
    decreases |names|
  {
    if names == [] then ""
    else
      var last := |names| - 1;
      if names[last] == key then (if last < |row| then row[last] else "")
      else Lookup(names[..last], row, key)
  }

  function Either(a: string, b: string): string {
    if a != "" then a else b
  }

  function ColumnValue(names: seq<string>, row: seq<string>, column: Column): string {
    match column
    case HwAddress => Either(Lookup(names, row, "hwaddr"), Lookup(names, row, "duid"))
    case ClientId => Either(Lookup(names, row, "client_id"), Lookup(names, row, "iaid"))
    case Hostname => Lookup(names, row, "hostname")
    case Expires => Lookup(names, row, "expire")
    case State => Either(Lookup(names, row, "state"), "active")
    case SubnetId => Lookup(names, row, "subnet_id")
    case PoolId => Lookup(names, row, "pool_id")
  }

  function RowValues(names: seq<string>, row: seq<string>): (values: seq<string>)
    ensures |values| == |COLUMNS|
    ensures forall i :: 0 <= i < |COLUMNS| ==> values[i] == ColumnValue(names, row, COLUMNS[i])
  {
    seq(|COLUMNS|, i requires 0 <= i < |COLUMNS| => ColumnValue(names, row, COLUMNS[i]))
  }

  /** A row's entry, if it has an address. */
  function RowEntry(names: seq<string>, row: seq<string>, kind: Kind): seq<Entry> {
    var ip := Strip(Lookup(names, row, "address"));
    if ip == "" then [] else [Entry(ip, RowValues(names, row), kind)]
  }

  function LineEntry(names: seq<string>, kind: Kind, line: string): seq<Entry> {
    RowEntry(names, Cells(line), kind)
  }

  function Entries(names: seq<string>, kind: Kind, lines: seq<string>): seq<Entry> {
    if lines == [] then []
    else Entries(names, kind, lines[..|lines| - 1]) + LineEntry(names, kind, lines[|lines| - 1])
  }

  predicate HasHeader(lines: seq<string>) {
    lines != [] && "address" in Cells(lines[0])
  }

  function ParseLines(lines: seq<string>, kind: Kind): seq<Entry> {
    if lines == [] then []
    else if HasHeader(lines) then Entries(Cells(lines[0]), kind, lines[1..])
    else Entries(FieldNames(kind), kind, lines)
  }

  function Parse(content: string, kind: Kind): seq<Entry> {
    ParseLines(SplitLines(Strip(content)), kind)
  }

  method ParseLeases(content: string, kind: Kind) returns (items: seq<Entry>)
    ensures items == Parse(content, kind)
  {
    var raw := Strip(content);
    if raw == "" { return []; }
    var lines := SplitLines(raw);
    if lines == [] { return []; }
    var names, first := FieldNames(kind), 0;
    if "address" in Cells(lines[0]) { names, first := Cells(lines[0]), 1; }
    items := [];
    var data := lines[first..];
    for i := 0 to |data|
      invariant items == Entries(names, kind, data[..i])
    {
      assert data[..i + 1][..i] == data[..i];
      items := items + RowEntry(names, Cells(data[i]), kind);
    }
    assert data[..|data|] == data;
    assert first == 0 ==> data == lines;
  }

  // ---- Releasing -------------------------------------------------------------------

  datatype Failure = FileMissing | LeaseNotFound

  /** A line the loop leaves out: a blank one, or one whose first cell is the address. */
  predicate Dropped(line: string, ip: string) {
    line == "" || FirstCell(line) == ip
  }

  /** A line `release` removes because of its address. */
  predicate Matches(line: string, ip: string) {
    line != "" && FirstCell(line) == ip
  }

  /** What the loop keeps, line 0 unseen when it is shielded. */
  function Kept(lines: seq<string>, ip: string, shielded: bool): seq<string> {
    if lines == [] then []
    else
      var last := lines[|lines| - 1];
      var before := Kept(lines[..|lines| - 1], ip, shielded);
      if Dropped(last, ip) && !(shielded && |lines| == 1) then before else before + [last]
  }

  predicate SomeMatch(lines: seq<string>, ip: string, shielded: bool) {
    exists i :: (if shielded then 1 else 0) <= i < |lines| && Matches(lines[i], ip)
  }

  /** Line 0 is left alone when its text contains "address" anywhere. */
  predicate Shielded(lines: seq<string>) {
    lines != [] && Contains(lines[0], "address")
  }

  function KeptLines(lines: seq<string>, ip: string): seq<string> {
    Kept(lines, ip, Shielded(lines))
  }

  function Released(content: string, ip: string): Result<string, Failure> {
    var lines := SplitLines(content);
    if SomeMatch(lines, ip, Shielded(lines)) then Ok(JoinLines(KeptLines(lines, ip))) else Err(LeaseNotFound)
  }

  class LeaseFile {
    var present: bool
    var content: string

    constructor (text: string)
      ensures present && content == text
    {
      present, content := true, text;
    }

    method ReleaseLease(ip: string) returns (r: Result<(), Failure>)
      modifies this
      ensures present == old(present)
      ensures r == if !present then Err(FileMissing)
                   else if Released(old(content), ip).Err? then Err(LeaseNotFound) else Ok(())
      ensures content == if r.Ok? then Released(old(content), ip).value else old(content)
    {
      if !present { return Err(FileMissing); }
      var lines := SplitLines(content);
      if lines == [] { return Err(LeaseNotFound); }
      var shielded := ContainsText(lines[0], "address");
      var kept, removed := FilterLines(lines, ip, shielded);
      if !removed { return Err(LeaseNotFound); }
      content := JoinLines(kept);
      r := Ok(());
    }
  }

  /** Keep line 0 if it is shielded, and the lines that are not blank and do not name the
      address. */
  method FilterLines(lines: seq<string>, ip: string, shielded: bool) returns (kept: seq<string>, removed: bool)
    ensures kept == Kept(lines, ip, shielded) && removed == SomeMatch(lines, ip, shielded)
  {
    kept, removed := [], false;
    for i := 0 to |lines|
      invariant kept == Kept(lines[..i], ip, shielded)
      invariant removed <==> SomeMatch(lines[..i], ip, shielded)
    {
      assert lines[..i + 1][..i] == lines[..i];
      SomeMatchStep(lines, i, ip, shielded);
      if i == 0 && shielded {
        kept := kept + [lines[i]];
        continue;
      }
      if lines[i] == "" { continue; }
      if FirstCell(lines[i]) == ip {
        removed := true;
        continue;
      }
      kept := kept + [lines[i]];
    }
    assert lines[..|lines|] == lines;
  }

  lemma SomeMatchStep(lines: seq<string>, n: nat, ip: string, shielded: bool)
    requires n < |lines|
    ensures SomeMatch(lines[..n + 1], ip, shielded)
            <==> SomeMatch(lines[..n], ip, shielded) || (!(shielded && n == 0) && Matches(lines[n], ip))
  {
    var front, all := lines[..n], lines[..n + 1];
    var least := if shielded then 1 else 0;
    assert all == front + [lines[n]];
    if SomeMatch(front, ip, shielded) {
      var i :| least <= i < n && Matches(front[i], ip);
      assert Matches(all[i], ip);
    }
    if n >= least && Matches(lines[n], ip) { assert Matches(all[n], ip); }
    if SomeMatch(all, ip, shielded) {
      var i :| least <= i < |all| && Matches(all[i], ip);
      if i < n { assert Matches(front[i], ip); }
    }
  }

  /** Substring search, left to right. */
  method ContainsText(s: string, sub: string) returns (found: bool)
    ensures found == Contains(s, sub)
  {
    var i := 0;
    while i <= |s|
      invariant 0 <= i <= |s| + 1
      invariant forall k: nat :: k < i ==> !OccursAt(s, sub, k)
    {
      if OccursAt(s, sub, i) { return true; }
      i := i + 1;
    }
    found := false;
  }

  // ---- Finding "address" in a line --------------------------------------------------------

  lemma {:induction false} CellOccurs(s: string, sep: char, i: nat)
    requires i < |Split(s, sep)|
    ensures Contains(s, Split(s, sep)[i])
  {
    var cell := Split(s, sep)[i];
    if s == "" {
      assert OccursAt(s, cell, 0);
    } else if s[0] == sep && i == 0 {
      assert OccursAt(s, "", 0);
    } else if s[0] != sep && i == 0 {
      FirstCellIsPrefix(s, sep);
      assert OccursAt(s, cell, 0);
    } else {
      var k := if s[0] == sep then i - 1 else i;
      CellOccurs(s[1..], sep, k);
      ContainsInLarger([s[0]], s[1..], "", cell);
      assert [s[0]] + s[1..] + "" == s;
    }
  }

  lemma {:induction false} FirstCellIsPrefix(s: string, sep: char)
    ensures Split(s, sep)[0] <= s
  {
    if s != "" && s[0] != sep {
      FirstCellIsPrefix(s[1..], sep);
      assert s == [s[0]] + s[1..];
    }
  }

  // ---- Entries and lines --------------------------------------------------------------

  /** "address" names the first column and no other. */
  predicate AddressFirst(names: seq<string>) {
    names != [] && names[0] == "address" && forall i :: 0 < i < |names| ==> names[i] != "address"
  }

  lemma FieldNamesAddressFirst(kind: Kind)
    ensures AddressFirst(FieldNames(kind))
  {
    var names := FieldNames(kind);
    forall i | 0 < i < |names| ensures names[i] != "address" {
      assert names[i][0] != 'a';
      assert "address"[0] == 'a';
    }
  }

  lemma {:induction false} LookupFirst(names: seq<string>, row: seq<string>)
    requires AddressFirst(names)
    ensures Lookup(names, row, "address") == if row == [] then "" else row[0]
  {
    if |names| > 1 { LookupFirst(names[..|names| - 1], row); }
  }

  /** The address the parser reads on a line: the cell of the last "address" column, trimmed. */
  function AddressOf(names: seq<string>, line: string): string {
    Strip(Lookup(names, Cells(line), "address"))
  }

  lemma EntryAddress(names: seq<string>, kind: Kind, line: string)
    ensures var e := LineEntry(names, kind, line);
            && (e == [] <==> AddressOf(names, line) == "") && |e| <= 1
            && (e != [] ==> e[0].ip == AddressOf(names, line))
  {
  }

  /** With the address in the first column, it is the line's first cell. */
  lemma AddressCell(names: seq<string>, line: string)
    requires AddressFirst(names)
    ensures AddressOf(names, line) == FirstCell(line)
  {
    LookupFirst(names, Cells(line));
  }

  lemma {:induction false} LookupIn(names: seq<string>, row: seq<string>, key: string)
    ensures Lookup(names, row, key) == "" || Lookup(names, row, key) in row
  {
    if names != [] { LookupIn(names[..|names| - 1], row, key); }
  }

  lemma WhiteCell(line: string)
    requires White(line)
    ensures FirstCell(line) == ""
  {
    var cell := Split(line, ',')[0];
    FirstCellIsPrefix(line, ',');
    assert White(cell);
    StripLeftBlank(cell);
  }

  lemma WhiteAddress(names: seq<string>, line: string)
    requires White(line)
    ensures AddressOf(names, line) == ""
  {
    LookupIn(names, Cells(line), "address");
    WhiteSplit(line);
    StripLeftBlank(line);
  }

  lemma {:induction false} WhiteSplit(line: string)
    requires White(line)
    ensures Split(line, ',') == [line]
  {
    if line != "" {
      WhiteSplit(line[1..]);
      assert line == [line[0]] + line[1..];
    }
  }

  /** Trimming a line trims nothing but its outer cells. */
  lemma TrimmedCells(line: string)
    ensures Split(StripLeft(line), ',') == [StripLeft(Split(line, ',')[0])] + Split(line, ',')[1..]
    ensures FirstCell(StripLeft(line)) == FirstCell(line) && FirstCell(StripRight(line)) == FirstCell(line)
  {
    var cells := Split(line, ',');
    SplitStripLeft(line, ',');
    SplitStripRight(line, ',');
    StripAfterTrim(cells[0]);
    StripLeftBlank(line);
    StripRightBlank(line);
    if White(line) { WhiteCell(line); }
  }

  /** White space at the end of a line is no part of its address. */
  lemma TrimmedAddress(names: seq<string>, line: string)
    ensures AddressOf(names, StripRight(line)) == AddressOf(names, line)
  {
    if White(line) {
      StripRightBlank(line);
      WhiteAddress(names, line);
      WhiteAddress(names, "");
    } else {
      var front, last := TrimmedRow(line);
      LookupTrimLast(names, front, last, "address");
    }
  }

  lemma TrimmedRow(line: string) returns (front: seq<string>, last: string)
    requires !White(line)
    ensures Cells(line) == front + [last] && Cells(StripRight(line)) == front + [StripRight(last)]
  {
    var cells := Split(line, ',');
    front, last := cells[..|cells| - 1], cells[|cells| - 1];
    StripRightBlank(line);
    SplitStripRight(line, ',');
    Regrouped(cells);
  }

  lemma {:induction false} LookupTrimLast(names: seq<string>, front: seq<string>, last: string, key: string)
    ensures Strip(Lookup(names, front + [StripRight(last)], key)) == Strip(Lookup(names, front + [last], key))
  {
    if names != [] {
      StripAfterTrim(last);
      LookupTrimLast(names[..|names| - 1], front, last, key);
    }
  }

  /** A column other than the first ignores what stands in the first. */
  lemma {:induction false} LookupPastFirst(names: seq<string>, a: string, b: string, rest: seq<string>, key: string)
    requires names != [] ==> names[0] != key
    ensures Lookup(names, [a] + rest, key) == Lookup(names, [b] + rest, key)
  {
    if names != [] && names[|names| - 1] != key { LookupPastFirst(names[..|names| - 1], a, b, rest, key); }
  }

  lemma RowPastFirst(names: seq<string>, kind: Kind, a: string, b: string, rest: seq<string>)
    requires AddressFirst(names) && Strip(a) == Strip(b)
    ensures RowEntry(names, [a] + rest, kind) == RowEntry(names, [b] + rest, kind)
  {
    LookupFirst(names, [a] + rest);
    LookupFirst(names, [b] + rest);
    var p, q := RowValues(names, [a] + rest), RowValues(names, [b] + rest);
    forall i | 0 <= i < |COLUMNS| ensures p[i] == q[i] { ColumnPastFirst(names, a, b, rest, COLUMNS[i]); }
    assert p == q;
  }

  lemma ColumnPastFirst(names: seq<string>, a: string, b: string, rest: seq<string>, column: Column)
    requires AddressFirst(names)
    ensures ColumnValue(names, [a] + rest, column) == ColumnValue(names, [b] + rest, column)
  {
    match column
    case HwAddress =>
      LookupPastFirst(names, a, b, rest, "hwaddr");
      LookupPastFirst(names, a, b, rest, "duid");
    case ClientId =>
      LookupPastFirst(names, a, b, rest, "client_id");
      LookupPastFirst(names, a, b, rest, "iaid");
    case Hostname => LookupPastFirst(names, a, b, rest, "hostname");
    case Expires => LookupPastFirst(names, a, b, rest, "expire");
    case State => LookupPastFirst(names, a, b, rest, "state");
    case SubnetId => LookupPastFirst(names, a, b, rest, "subnet_id");
    case PoolId => LookupPastFirst(names, a, b, rest, "pool_id");
  }

  /** White space in front of a line changes no entry, as the address is trimmed anyway. */
  lemma FrontChangesNoEntry(names: seq<string>, kind: Kind, line: string)
    requires AddressFirst(names)
    ensures LineEntry(names, kind, StripLeft(line)) == LineEntry(names, kind, line)
  {
    StripLeftBlank(line);
    if White(line) {
      WhiteHasNoEntry(names, kind, line);
      WhiteHasNoEntry(names, kind, "");
    } else {
      var cells := Split(line, ',');
      TrimmedCells(line);
      StripAfterTrim(cells[0]);
      RowPastFirst(names, kind, StripLeft(cells[0]), cells[0], cells[1..]);
      assert cells == [cells[0]] + cells[1..];
    }
  }

  lemma WhiteHasNoEntry(names: seq<string>, kind: Kind, line: string)
    requires White(line)
    ensures LineEntry(names, kind, line) == []
  {
    WhiteAddress(names, line);
    EntryAddress(names, kind, line);
  }

  /** White space at the end of a line does not change whose entry it is. */
  lemma TrimmedEntryAddress(names: seq<string>, kind: Kind, line: string)
    ensures var e := LineEntry(names, kind, StripRight(line));
            && (e == [] <==> AddressOf(names, line) == "") && |e| <= 1
            && (e != [] ==> e[0].ip == AddressOf(names, line))
  {
    TrimmedAddress(names, line);
    EntryAddress(names, kind, StripRight(line));
  }

  /** The entries of data lines, the last of them trimmed at its end. */
  function DataEntries(names: seq<string>, kind: Kind, lines: seq<string>): seq<Entry> {
    if lines == [] then []
    else
      var front, last := lines[..|lines| - 1], lines[|lines| - 1];
      if White(last) then DataEntries(names, kind, front)
      else Entries(names, kind, front) + LineEntry(names, kind, StripRight(last))
  }

  lemma {:induction false} EntriesOfTrimBack(names: seq<string>, kind: Kind, lines: seq<string>)
    ensures Entries(names, kind, TrimBack(lines)) == DataEntries(names, kind, lines)
  {
    if lines != [] {
      var front, last := lines[..|lines| - 1], lines[|lines| - 1];
      if White(last) {
        EntriesOfTrimBack(names, kind, front);
      } else {
        assert (front + [StripRight(last)])[..|front|] == front;
      }
    }
  }

  predicate AllWhite(lines: seq<string>) {
    forall i :: 0 <= i < |lines| ==> White(lines[i])
  }

  lemma {:induction false} AllWhiteData(names: seq<string>, kind: Kind, lines: seq<string>)
    requires AllWhite(lines)
    ensures DataEntries(names, kind, lines) == [] && TrimBack(lines) == []
  {
    if lines != [] { AllWhiteData(names, kind, lines[..|lines| - 1]); }
  }

  // ---- Dropping lines ---------------------------------------------------------------------

  /** The entries of every other address, in order. */
  function Without(entries: seq<Entry>, ip: string): seq<Entry> {
    if entries == [] then []
    else
      var last := entries[|entries| - 1];
      Without(entries[..|entries| - 1], ip) + if last.ip == ip then [] else [last]
  }

  /** At most one entry more. */
  lemma WithoutMore(entries: seq<Entry>, more: seq<Entry>, ip: string)
    requires |more| <= 1
    ensures Without(entries + more, ip)
            == if more != [] && more[0].ip == ip then Without(entries, ip) else Without(entries, ip) + more
  {
    if more == [] {
      assert entries + more == entries && Without(entries, ip) + more == Without(entries, ip);
    } else {
      assert (entries + more)[..|entries|] == entries && more == [more[0]];
    }
  }

  /** Line 0 is an entry for the address, but text that reads "address" shields it. */
  predicate Escapes(lines: seq<string>, ip: string, shielded: bool) {
    shielded && lines != [] && FirstCell(lines[0]) == ip != ""
  }

  /** The release takes line i away. */
  predicate Goes(lines: seq<string>, i: nat, ip: string, shielded: bool)
    requires i < |lines|
  {
    Dropped(lines[i], ip) && !(shielded && i == 0)
  }

  /** Of the lines that are entries, the release takes away exactly the ones for the address. */
  predicate TakenAlike(names: seq<string>, lines: seq<string>, ip: string, shielded: bool) {
    forall i :: 0 <= i < |lines| && AddressOf(names, lines[i]) != "" ==>
      (Goes(lines, i, ip, shielded) <==> AddressOf(names, lines[i]) == ip)
  }

  /** With the address in the first column, it does unless line 0 escapes. */
  lemma AlikeIff(names: seq<string>, lines: seq<string>, ip: string, shielded: bool)
    requires AddressFirst(names)
    ensures TakenAlike(names, lines, ip, shielded) <==> !Escapes(lines, ip, shielded)
  {
    forall i | 0 <= i < |lines| ensures AddressOf(names, lines[i]) == FirstCell(lines[i]) {
      AddressCell(names, lines[i]);
    }
    if Escapes(lines, ip, shielded) { assert !Goes(lines, 0, ip, shielded); }
  }

  lemma AlikeMore(names: seq<string>, front: seq<string>, last: string, ip: string, shielded: bool)
    requires TakenAlike(names, front + [last], ip, shielded)
    ensures TakenAlike(names, front, ip, shielded)
    ensures AddressOf(names, last) != "" ==>
              (Dropped(last, ip) && !(shielded && front == []) <==> AddressOf(names, last) == ip)
  {
    var all := front + [last];
    assert all[|front|] == last;
    assert Goes(all, |front|, ip, shielded) <==> Dropped(last, ip) && !(shielded && front == []);
    forall i | 0 <= i < |front| && AddressOf(names, front[i]) != ""
      ensures Goes(front, i, ip, shielded) <==> AddressOf(names, front[i]) == ip
    {
      assert all[i] == front[i] && (Goes(all, i, ip, shielded) <==> Goes(front, i, ip, shielded));
    }
  }

  /** Dropping lines and then reading is reading and then dropping entries. */
  lemma {:induction false} FilterCommutes(names: seq<string>, kind: Kind, lines: seq<string>, ip: string,
                                          shielded: bool)
    requires TakenAlike(names, lines, ip, shielded)
    ensures Entries(names, kind, Kept(lines, ip, shielded)) == Without(Entries(names, kind, lines), ip)
  {
    if lines != [] {
      var front, last := lines[..|lines| - 1], lines[|lines| - 1];
      Regrouped(lines);
      AlikeMore(names, front, last, ip, shielded);
      FilterCommutes(names, kind, front, ip, shielded);
      FilterMore(names, kind, front, last, Kept(front, ip, shielded), ip,
                 Dropped(last, ip) && !(shielded && front == []));
    }
  }

  lemma FilterMore(names: seq<string>, kind: Kind, front: seq<string>, last: string, kept: seq<string>, ip: string,
                   gone: bool)
    requires Entries(names, kind, kept) == Without(Entries(names, kind, front), ip)
    requires AddressOf(names, last) != "" ==> (gone <==> AddressOf(names, last) == ip)
    ensures Entries(names, kind, if gone then kept else kept + [last])
            == Without(Entries(names, kind, front) + LineEntry(names, kind, last), ip)
  {
    EntryAddress(names, kind, last);
    WithoutAtMost(Entries(names, kind, front), LineEntry(names, kind, last), ip, gone);
    if !gone { EntriesMore(names, kind, kept, last); }
  }

  lemma WithoutAtMost(entries: seq<Entry>, more: seq<Entry>, ip: string, gone: bool)
    requires |more| <= 1 && (more != [] ==> (gone <==> more[0].ip == ip))
    ensures Without(entries + more, ip) == if gone then Without(entries, ip) else Without(entries, ip) + more
  {
    WithoutMore(entries, more, ip);
    if more == [] { assert Without(entries, ip) + more == Without(entries, ip); }
  }

  lemma EntriesMore(names: seq<string>, kind: Kind, lines: seq<string>, last: string)
    ensures Entries(names, kind, lines + [last]) == Entries(names, kind, lines) + LineEntry(names, kind, last)
  {
    assert (lines + [last])[..|lines|] == lines;
  }

  lemma DataMore(names: seq<string>, kind: Kind, lines: seq<string>, last: string)
    ensures DataEntries(names, kind, lines + [last])
            == if White(last) then DataEntries(names, kind, lines)
               else Entries(names, kind, lines) + LineEntry(names, kind, StripRight(last))
  {
    assert (lines + [last])[..|lines|] == lines;
  }

  // ---- The blank at the end -----------------------------------------------------------------

  /** The last line with text. */
  function LastText(lines: seq<string>): Option<string> {
    if lines == [] then None
    else if White(lines[|lines| - 1]) then LastText(lines[..|lines| - 1])
    else Some(lines[|lines| - 1])
  }

  lemma LastTextMore(lines: seq<string>, last: string)
    ensures LastText(lines + [last]) == if White(last) then LastText(lines) else Some(last)
  {
    assert (lines + [last])[..|lines|] == lines;
  }

  /** The line says something else without the white space at its end. */
  predicate EndTells(names: seq<string>, kind: Kind, line: string) {
    LineEntry(names, kind, StripRight(line)) != LineEntry(names, kind, line)
  }

  /** The release takes away the last line with text, and the one that becomes last tells
      something by the white space at its end. */
  predicate Exposed(names: seq<string>, kind: Kind, lines: seq<string>, ip: string, shielded: bool) {
    var before, after := LastText(lines), LastText(Kept(lines, ip, shielded));
    && before.Some? && FirstCell(before.value) == ip
    && after.Some? && EndTells(names, kind, after.value)
  }

  lemma {:induction false} EndTellsIff(names: seq<string>, kind: Kind, lines: seq<string>)
    ensures DataEntries(names, kind, lines) != Entries(names, kind, lines)
            <==> LastText(lines).Some? && EndTells(names, kind, LastText(lines).value)
  {
    if lines != [] {
      var front, last := lines[..|lines| - 1], lines[|lines| - 1];
      var before := Entries(names, kind, front);
      if White(last) {
        EndTellsIff(names, kind, front);
        WhiteHasNoEntry(names, kind, last);
        assert before + [] == before;
      } else {
        SameTail(before, LineEntry(names, kind, StripRight(last)), LineEntry(names, kind, last));
      }
    }
  }

  lemma SameTail<T>(a: seq<T>, b: seq<T>, c: seq<T>)
    ensures a + b == a + c <==> b == c
  {
    if a + b == a + c { assert b == (a + b)[|a|..] == (a + c)[|a|..] == c; }
  }

  /** Reading what the release leaves gives exactly the other entries. */
  predicate ReadsOthers(names: seq<string>, kind: Kind, lines: seq<string>, ip: string, shielded: bool) {
    DataEntries(names, kind, Kept(lines, ip, shielded)) == Without(DataEntries(names, kind, lines), ip)
  }

  /** Where the release takes the right lines, it leaves the other entries exactly when no
      blank is exposed. */
  lemma {:induction false} AlikeReadsIff(names: seq<string>, kind: Kind, lines: seq<string>, ip: string,
                                         shielded: bool)
    requires TakenAlike(names, lines, ip, shielded) && (shielded ==> AddressFirst(names))
    ensures ReadsOthers(names, kind, lines, ip, shielded) <==> !Exposed(names, kind, lines, ip, shielded)
  {
    if lines != [] {
      var front, last := lines[..|lines| - 1], lines[|lines| - 1];
      Regrouped(lines);
      if White(last) {
        AlikeMore(names, front, last, ip, shielded);
        AlikeReadsIff(names, kind, front, ip, shielded);
        LastWhite(names, kind, front, last, ip, shielded);
      } else if FirstCell(last) == ip && !(shielded && front == []) {
        LastDropped(names, kind, front, last, ip, shielded);
      } else {
        LastKept(names, kind, front, last, ip, shielded);
      }
    }
  }

  lemma KeptMore(front: seq<string>, last: string, ip: string, shielded: bool)
    ensures Kept(front + [last], ip, shielded)
            == if Dropped(last, ip) && !(shielded && front == []) then Kept(front, ip, shielded)
               else Kept(front, ip, shielded) + [last]
  {
    assert (front + [last])[..|front|] == front;
  }

  lemma LastWhite(names: seq<string>, kind: Kind, front: seq<string>, last: string, ip: string, shielded: bool)
    requires White(last)
    ensures ReadsOthers(names, kind, front + [last], ip, shielded) <==> ReadsOthers(names, kind, front, ip, shielded)
    ensures Exposed(names, kind, front + [last], ip, shielded) <==> Exposed(names, kind, front, ip, shielded)
  {
    KeptMore(front, last, ip, shielded);
    DataMore(names, kind, front, last);
    DataMore(names, kind, Kept(front, ip, shielded), last);
    LastTextMore(front, last);
    LastTextMore(Kept(front, ip, shielded), last);
  }

  /** The last line goes: the one before it is read to its end no longer. */
  lemma LastDropped(names: seq<string>, kind: Kind, front: seq<string>, last: string, ip: string, shielded: bool)
    requires TakenAlike(names, front + [last], ip, shielded)
    requires FirstCell(last) == ip && !(shielded && front == []) && !White(last)
    ensures ReadsOthers(names, kind, front + [last], ip, shielded)
            <==> !Exposed(names, kind, front + [last], ip, shielded)
  {
    AlikeMore(names, front, last, ip, shielded);
    FilterCommutes(names, kind, front, ip, shielded);
    KeptMore(front, last, ip, shielded);
    DataMore(names, kind, front, last);
    LastTextMore(front, last);
    TrimmedEntryAddress(names, kind, last);
    WithoutMore(Entries(names, kind, front), LineEntry(names, kind, StripRight(last)), ip);
    assert Without(Entries(names, kind, front), ip) + [] == Without(Entries(names, kind, front), ip);
    EndTellsIff(names, kind, Kept(front, ip, shielded));
  }

  /** The last line stays: it is trimmed before and after alike. */
  lemma LastKept(names: seq<string>, kind: Kind, front: seq<string>, last: string, ip: string, shielded: bool)
    requires TakenAlike(names, front + [last], ip, shielded) && (shielded ==> AddressFirst(names)) && !White(last)
    requires FirstCell(last) != ip || (shielded && front == [])
    ensures ReadsOthers(names, kind, front + [last], ip, shielded)
            && !Exposed(names, kind, front + [last], ip, shielded)
  {
    AlikeMore(names, front, last, ip, shielded);
    FilterCommutes(names, kind, front, ip, shielded);
    KeptMore(front, last, ip, shielded);
    LastStays(names, kind, front, last, Kept(front, ip, shielded), ip);
    LastTextMore(front, last);
    LastTextMore(Kept(front, ip, shielded), last);
    if FirstCell(last) == ip {
      AddressCell(names, last);
      TrimmedEntryAddress(names, kind, last);
      EntryAddress(names, kind, last);
    }
  }

  lemma LastStays(names: seq<string>, kind: Kind, front: seq<string>, last: string, kept: seq<string>, ip: string)
    requires Entries(names, kind, kept) == Without(Entries(names, kind, front), ip)
    requires !White(last) && (AddressOf(names, last) == ip ==> ip == "")
    ensures DataEntries(names, kind, kept + [last]) == Without(DataEntries(names, kind, front + [last]), ip)
  {
    DataMore(names, kind, kept, last);
    DataMore(names, kind, front, last);
    TrimmedEntryAddress(names, kind, last);
    WithoutMore(Entries(names, kind, front), LineEntry(names, kind, StripRight(last)), ip);
  }

  // ---- Lines taken unlike ---------------------------------------------------------------------

  /** How many lines are entries for other addresses. */
  function Others(names: seq<string>, lines: seq<string>, ip: string): nat {
    if lines == [] then 0
    else
      var address := AddressOf(names, lines[|lines| - 1]);
      Others(names, lines[..|lines| - 1], ip) + if address == "" || address == ip then 0 else 1
  }

  lemma OthersMore(names: seq<string>, lines: seq<string>, last: string, ip: string)
    ensures Others(names, lines + [last], ip)
            == Others(names, lines, ip)
               + if AddressOf(names, last) == "" || AddressOf(names, last) == ip then 0 else 1
  {
    assert (lines + [last])[..|lines|] == lines;
  }

  lemma {:induction false} EntriesOfOthers(names: seq<string>, kind: Kind, lines: seq<string>, ip: string)
    ensures |Without(Entries(names, kind, lines), ip)| == Others(names, lines, ip)
  {
    if lines != [] {
      var front, last := lines[..|lines| - 1], lines[|lines| - 1];
      EntriesOfOthers(names, kind, front, ip);
      EntryAddress(names, kind, last);
      WithoutMore(Entries(names, kind, front), LineEntry(names, kind, last), ip);
    }
  }

  lemma {:induction false} DataOfOthers(names: seq<string>, kind: Kind, lines: seq<string>, ip: string)
    ensures |Without(DataEntries(names, kind, lines), ip)| == Others(names, lines, ip)
  {
    if lines != [] {
      var front, last := lines[..|lines| - 1], lines[|lines| - 1];
      if White(last) {
        WhiteAddress(names, last);
        DataOfOthers(names, kind, front, ip);
      } else {
        EntriesOfOthers(names, kind, front, ip);
        TrimmedEntryAddress(names, kind, last);
        WithoutMore(Entries(names, kind, front), LineEntry(names, kind, StripRight(last)), ip);
      }
    }
  }

  /** No entry for another address is among the lines that go. */
  predicate OthersStay(names: seq<string>, lines: seq<string>, ip: string, shielded: bool) {
    forall i :: 0 <= i < |lines| && Goes(lines, i, ip, shielded) ==>
      AddressOf(names, lines[i]) == "" || AddressOf(names, lines[i]) == ip
  }

  lemma {:induction false} OthersKept(names: seq<string>, lines: seq<string>, ip: string, shielded: bool)
    ensures Others(names, Kept(lines, ip, shielded), ip) <= Others(names, lines, ip)
    ensures Others(names, Kept(lines, ip, shielded), ip) == Others(names, lines, ip)
            ==> OthersStay(names, lines, ip, shielded)
  {
    if lines != [] {
      var front, last := lines[..|lines| - 1], lines[|lines| - 1];
      OthersKept(names, front, ip, shielded);
      OthersMore(names, Kept(front, ip, shielded), last, ip);
      if OthersStay(names, front, ip, shielded) {
        Regrouped(lines);
        OthersStayMore(names, front, last, ip, shielded);
      }
    }
  }

  lemma OthersStayMore(names: seq<string>, front: seq<string>, last: string, ip: string, shielded: bool)
    requires OthersStay(names, front, ip, shielded)
    ensures OthersStay(names, front + [last], ip, shielded)
            <==> (Dropped(last, ip) && !(shielded && front == [])
                  ==> AddressOf(names, last) == "" || AddressOf(names, last) == ip)
  {
    var all := front + [last];
    assert all[|front|] == last;
    assert Goes(all, |front|, ip, shielded) <==> Dropped(last, ip) && !(shielded && front == []);
    forall i | 0 <= i < |front| && Goes(all, i, ip, shielded)
      ensures AddressOf(names, all[i]) == "" || AddressOf(names, all[i]) == ip
    {
      assert all[i] == front[i] && Goes(front, i, ip, shielded);
    }
  }

  lemma {:induction false} StaysInKept(lines: seq<string>, i: nat, ip: string, shielded: bool) returns (j: nat)
    requires i < |lines| && !Goes(lines, i, ip, shielded)
    ensures j < |Kept(lines, ip, shielded)| && Kept(lines, ip, shielded)[j] == lines[i]
  {
    var front := lines[..|lines| - 1];
    if i < |front| {
      assert front[i] == lines[i];
      j := StaysInKept(front, i, ip, shielded);
    } else {
      j := |Kept(front, ip, shielded)|;
    }
  }

  lemma {:induction false} WithoutTwice(entries: seq<Entry>, ip: string)
    ensures Without(Without(entries, ip), ip) == Without(entries, ip)
  {
    if entries != [] {
      var front, last := entries[..|entries| - 1], entries[|entries| - 1];
      WithoutTwice(front, ip);
      WithoutMore(Without(front, ip), if last.ip == ip then [] else [last], ip);
    }
  }

  lemma {:induction false} WithoutHasNone(entries: seq<Entry>, ip: string)
    ensures forall e :: e in Without(entries, ip) ==> e.ip != ip
  {
    if entries != [] { WithoutHasNone(entries[..|entries| - 1], ip); }
  }

  /** If reading what is kept gives the other entries, the release took the right lines. */
  lemma TookAlike(names: seq<string>, kind: Kind, lines: seq<string>, ip: string, shielded: bool)
    requires ReadsOthers(names, kind, lines, ip, shielded)
    ensures TakenAlike(names, lines, ip, shielded)
  {
    var kept := Kept(lines, ip, shielded);
    var before := DataEntries(names, kind, lines);
    WithoutHasNone(before, ip);
    forall i | 0 <= i < |lines| && AddressOf(names, lines[i]) == ip != "" ensures Goes(lines, i, ip, shielded) {
      if !Goes(lines, i, ip, shielded) {
        var j := StaysInKept(lines, i, ip, shielded);
        var e := AddressIsRead(names, kind, kept, ip, j);
      }
    }
    WithoutTwice(before, ip);
    DataOfOthers(names, kind, lines, ip);
    DataOfOthers(names, kind, kept, ip);
    OthersKept(names, lines, ip, shielded);
  }

  /** Reading what is kept gives exactly the other entries if and only if the release takes
      the right lines and exposes no blank. */
  lemma KeptReadsIff(names: seq<string>, kind: Kind, lines: seq<string>, ip: string, shielded: bool)
    requires shielded ==> AddressFirst(names)
    ensures ReadsOthers(names, kind, lines, ip, shielded)
            <==> TakenAlike(names, lines, ip, shielded) && !Exposed(names, kind, lines, ip, shielded)
  {
    if TakenAlike(names, lines, ip, shielded) {
      AlikeReadsIff(names, kind, lines, ip, shielded);
    } else if ReadsOthers(names, kind, lines, ip, shielded) {
      TookAlike(names, kind, lines, ip, shielded);
    }
  }

  // ---- Addresses and entries ------------------------------------------------------------------

  lemma {:induction false} AddressHasEntry(names: seq<string>, kind: Kind, lines: seq<string>, ip: string, i: nat)
    returns (e: Entry)
    requires ip != "" && i < |lines| && AddressOf(names, lines[i]) == ip
    ensures e in Entries(names, kind, lines) && e.ip == ip
  {
    var front, last := lines[..|lines| - 1], lines[|lines| - 1];
    if i < |front| {
      e := AddressHasEntry(names, kind, front, ip, i);
    } else {
      EntryAddress(names, kind, last);
      e := LineEntry(names, kind, last)[0];
      FirstOfTail(Entries(names, kind, front), LineEntry(names, kind, last));
    }
  }

  lemma {:induction false} AddressIsRead(names: seq<string>, kind: Kind, lines: seq<string>, ip: string, i: nat)
    returns (e: Entry)
    requires ip != "" && i < |lines| && AddressOf(names, lines[i]) == ip
    ensures e in DataEntries(names, kind, lines) && e.ip == ip
  {
    var front, last := lines[..|lines| - 1], lines[|lines| - 1];
    Regrouped(lines);
    DataMore(names, kind, front, last);
    if White(last) {
      WhiteAddress(names, last);
      e := AddressIsRead(names, kind, front, ip, i);
    } else if i < |front| {
      e := AddressHasEntry(names, kind, front, ip, i);
    } else {
      e := LastIsRead(names, kind, front, last);
    }
  }

  lemma LastIsRead(names: seq<string>, kind: Kind, front: seq<string>, last: string) returns (e: Entry)
    requires !White(last) && AddressOf(names, last) != ""
    ensures e in Entries(names, kind, front) + LineEntry(names, kind, StripRight(last)) && e.ip == AddressOf(names, last)
  {
    TrimmedEntryAddress(names, kind, last);
    e := LineEntry(names, kind, StripRight(last))[0];
    FirstOfTail(Entries(names, kind, front), LineEntry(names, kind, StripRight(last)));
  }

  lemma FirstOfTail<T>(a: seq<T>, b: seq<T>)
    requires b != []
    ensures b[0] in a + b
  {
    assert (a + b)[|a|] == b[0];
  }

  lemma {:induction false} EntryHasLine(names: seq<string>, kind: Kind, lines: seq<string>, e: Entry) returns (i: nat)
    requires e in Entries(names, kind, lines)
    ensures i < |lines| && AddressOf(names, lines[i]) == e.ip != ""
  {
    var front, last := lines[..|lines| - 1], lines[|lines| - 1];
    if e in Entries(names, kind, front) {
      i := EntryHasLine(names, kind, front, e);
    } else {
      EntryAddress(names, kind, last);
      i := |front|;
    }
  }

  lemma {:induction false} ReadHasLine(names: seq<string>, kind: Kind, lines: seq<string>, e: Entry) returns (i: nat)
    requires e in DataEntries(names, kind, lines)
    ensures i < |lines| && AddressOf(names, lines[i]) == e.ip != ""
  {
    var front, last := lines[..|lines| - 1], lines[|lines| - 1];
    if White(last) {
      i := ReadHasLine(names, kind, front, e);
    } else if e in Entries(names, kind, front) {
      i := EntryHasLine(names, kind, front, e);
    } else {
      TrimmedEntryAddress(names, kind, last);
      i := |front|;
    }
  }

  // ---- Parsing files ----------------------------------------------------------------------

  /** The file starts with a header: some cell of its first line reads "address". */
  predicate HeaderFirst(lines: seq<string>) {
    lines != [] && "address" in Header(lines)
  }

  /** The column names a first line gives; the blanks in front of it go with the file's. */
  function Header(lines: seq<string>): seq<string>
    requires lines != []
  {
    Cells(StripLeft(lines[0]))
  }

  /** No line has a cell that reads "address", trimmed or not. */
  predicate Headerless(lines: seq<string>) {
    forall i :: 0 <= i < |lines| ==> NoAddressCell(lines[i])
  }

  predicate NoAddressCell(line: string) {
    forall j :: 0 <= j < |Cells(line)| ==> Strip(Cells(line)[j]) != "address"
  }

  lemma AddressWord(word: string)
    requires word == "address"
    ensures Strip(word) == word && StripRight(word) == word
  {
    StripIdle(word);
  }

  lemma HeaderText(line: string)
    requires "address" in Cells(line)
    ensures !White(line)
  {
    if White(line) {
      WhiteSplit(line);
      AddressWord("address");
      StripLeftBlank(line);
    }
  }

  /** A header whose first column is the address has no blanks in front. */
  lemma AddressInFront(line: string)
    requires AddressFirst(Cells(line))
    ensures StripLeft(line) == line && Cells(line)[0] == "address"
  {
    FirstCellIsPrefix(line, ',');
    assert line[0] == Split(line, ',')[0][0] == "address"[0];
  }

  lemma HeaderStays(line: string)
    requires "address" in Cells(line) && !White(line)
    ensures HasHeader([StripRight(line)])
  {
    AddressWord("address");
    CellStays(line, "address");
  }

  lemma CellStays(line: string, word: string)
    requires word in Cells(line) && StripRight(word) == word && !White(line)
    ensures word in Cells(StripRight(line))
  {
    var cells := Split(line, ',');
    SplitStripRight(line, ',');
    StripRightBlank(line);
    Regrouped(cells);
    WordStays(cells[..|cells| - 1], cells[|cells| - 1], word);
  }

  lemma WordStays(front: seq<string>, last: string, word: string)
    requires word in front + [last] && StripRight(word) == word
    ensures word in front + [StripRight(last)]
  {
    if word in front {
      var j :| 0 <= j < |front| && front[j] == word;
      assert (front + [StripRight(last)])[j] == word;
    } else {
      assert last == word;
      assert (front + [StripRight(last)])[|front|] == word;
    }
  }

  /** A header and data lines, as the parser reads them. */
  lemma ParseWithHeader(lines: seq<string>, kind: Kind)
    requires HeaderFirst(lines)
    ensures ParseLines(Trimmed(lines), kind) == DataEntries(Header(lines), kind, lines[1..])
  {
    var head, data := StripLeft(lines[0]), lines[1..];
    HeaderText(head);
    HeaderStays(head);
    StripLeftBlank(lines[0]);
    assert TrimFront(lines) == [head] + data;
    TrimBackPast(head, data);
    if AllWhite(data) {
      AllWhiteData(Cells(head), kind, data);
    } else {
      EntriesOfTrimBack(Cells(head), kind, data);
      HeaderThenData(head, TrimBack(data), kind);
    }
  }

  lemma HeaderThenData(head: string, data: seq<string>, kind: Kind)
    requires "address" in Cells(head)
    ensures ParseLines([head] + data, kind) == Entries(Cells(head), kind, data)
  {
    assert ([head] + data)[1..] == data;
  }

  /** Trimming the back of a list with text behind its first line keeps that line. */
  lemma {:induction false} TrimBackPast(first: string, rest: seq<string>)
    ensures TrimBack([first] + rest)
            == if AllWhite(rest) then (if White(first) then [] else [StripRight(first)]) else [first] + TrimBack(rest)
  {
    if rest == [] {
      assert [first] + rest == [first] && [first][..0] == [];
    } else {
      var front, last := rest[..|rest| - 1], rest[|rest| - 1];
      var all := [first] + rest;
      assert all[..|all| - 1] == [first] + front && all[|all| - 1] == last;
      if White(last) {
        TrimBackPast(first, front);
        assert rest == front + [last];
      } else {
        assert !AllWhite(rest);
        assert ([first] + front) + [StripRight(last)] == [first] + (front + [StripRight(last)]);
      }
    }
  }

  /** The same for the entries. */
  lemma {:induction false} DataPast(names: seq<string>, kind: Kind, first: string, rest: seq<string>)
    ensures DataEntries(names, kind, [first] + rest)
            == if AllWhite(rest) then LineEntry(names, kind, StripRight(first))
               else LineEntry(names, kind, first) + DataEntries(names, kind, rest)
  {
    TrimmedCells(first);
    if rest == [] {
      DataMore(names, kind, [], first);
      assert [] + [first] == [first] + rest;
      if White(first) { TrimmedWhite(names, kind, first); }
    } else {
      var front, last := rest[..|rest| - 1], rest[|rest| - 1];
      Regroup(first, rest);
      Regrouped(rest);
      DataMore(names, kind, [first] + front, last);
      AllWhiteMore(front, last);
      if White(last) {
        DataPast(names, kind, first, front);
        DataMore(names, kind, front, last);
      } else {
        DataPastText(names, kind, first, front, last);
      }
    }
  }

  lemma Regrouped<T>(s: seq<T>)
    requires s != []
    ensures s == s[..|s| - 1] + [s[|s| - 1]]
  {
  }

  lemma AllWhiteMore(front: seq<string>, last: string)
    ensures AllWhite(front + [last]) <==> AllWhite(front) && White(last)
  {
    var all := front + [last];
    assert all[|front|] == last;
    forall i | 0 <= i < |front| ensures all[i] == front[i] {}
  }

  lemma DataPastText(names: seq<string>, kind: Kind, first: string, front: seq<string>, last: string)
    requires !White(last)
    ensures Entries(names, kind, [first] + front) + LineEntry(names, kind, StripRight(last))
            == LineEntry(names, kind, first) + DataEntries(names, kind, front + [last])
  {
    EntriesPast(names, kind, first, front);
    DataMore(names, kind, front, last);
    Associates(LineEntry(names, kind, first), Entries(names, kind, front), LineEntry(names, kind, StripRight(last)));
  }

  lemma Regroup<T>(first: T, rest: seq<T>)
    requires rest != []
    ensures [first] + rest == ([first] + rest[..|rest| - 1]) + [rest[|rest| - 1]]
  {
  }

  lemma TrimmedWhite(names: seq<string>, kind: Kind, line: string)
    requires White(line)
    ensures LineEntry(names, kind, StripRight(line)) == []
  {
    StripRightBlank(line);
    WhiteHasNoEntry(names, kind, "");
  }

  lemma {:induction false} EntriesPast(names: seq<string>, kind: Kind, first: string, rest: seq<string>)
    ensures Entries(names, kind, [first] + rest) == LineEntry(names, kind, first) + Entries(names, kind, rest)
  {
    if rest == [] {
      EntriesMore(names, kind, [], first);
      assert [] + [first] == [first] + rest;
    } else {
      var front, last := rest[..|rest| - 1], rest[|rest| - 1];
      var tail := LineEntry(names, kind, last);
      EntriesPast(names, kind, first, front);
      EntriesMore(names, kind, [first] + front, last);
      Regroup(first, rest);
      Associates(LineEntry(names, kind, first), Entries(names, kind, front), tail);
    }
  }

  /** Trimming the front changes no entry. */
  lemma {:induction false} TrimFrontData(names: seq<string>, kind: Kind, lines: seq<string>)
    requires AddressFirst(names)
    ensures DataEntries(names, kind, TrimFront(lines)) == DataEntries(names, kind, lines)
  {
    if lines != [] {
      var first, rest := lines[0], lines[1..];
      assert lines == [first] + rest;
      DataPast(names, kind, first, rest);
      if White(first) {
        TrimFrontData(names, kind, rest);
        TrimmedWhite(names, kind, first);
        WhiteHasNoEntry(names, kind, first);
        if AllWhite(rest) { AllWhiteData(names, kind, rest); }
      } else {
        DataPast(names, kind, StripLeft(first), rest);
        StripsCommute(first);
        FrontChangesNoEntry(names, kind, first);
        FrontChangesNoEntry(names, kind, StripRight(first));
      }
    }
  }

  /** Neither end of a line hides a header cell. */
  lemma TrimmingHidesNoHeader(line: string)
    requires NoAddressCell(line)
    ensures NoAddressCell(StripLeft(line)) && NoAddressCell(StripRight(line))
  {
    var cells := Split(line, ',');
    StripLeftBlank(line);
    StripRightBlank(line);
    SplitStripLeft(line, ',');
    SplitStripRight(line, ',');
    StripAfterTrim(cells[0]);
    StripAfterTrim(cells[|cells| - 1]);
    if line != "" {
      assert Cells(line) == cells;
      OuterCellsTrimmed(cells);
    }
  }

  lemma OuterCellsTrimmed(cells: seq<string>)
    requires cells != [] && forall j :: 0 <= j < |cells| ==> Strip(cells[j]) != "address"
    ensures var left := [StripLeft(cells[0])] + cells[1..];
            forall j :: 0 <= j < |left| ==> Strip(left[j]) != "address"
    ensures var right := cells[..|cells| - 1] + [StripRight(cells[|cells| - 1])];
            forall j :: 0 <= j < |right| ==> Strip(right[j]) != "address"
  {
    StripAfterTrim(cells[0]);
    StripAfterTrim(cells[|cells| - 1]);
  }

  lemma {:induction false} TrimFrontHeaderless(lines: seq<string>)
    requires Headerless(lines)
    ensures Headerless(TrimFront(lines))
  {
    if lines != [] {
      if White(lines[0]) { TrimFrontHeaderless(lines[1..]); } else { TrimmingHidesNoHeader(lines[0]); }
    }
  }

  lemma {:induction false} TrimBackHeaderless(lines: seq<string>)
    requires Headerless(lines)
    ensures Headerless(TrimBack(lines))
  {
    if lines != [] {
      var last := lines[|lines| - 1];
      if White(last) { TrimBackHeaderless(lines[..|lines| - 1]); } else { TrimmingHidesNoHeader(last); }
    }
  }

  lemma NoHeader(lines: seq<string>)
    requires Headerless(lines)
    ensures !HasHeader(lines)
  {
    if HasHeader(lines) {
      var j :| 0 <= j < |Cells(lines[0])| && Cells(lines[0])[j] == "address";
      AddressWord(Cells(lines[0])[j]);
    }
  }

  lemma ParseHeaderless(lines: seq<string>, kind: Kind)
    requires Headerless(lines)
    ensures ParseLines(Trimmed(lines), kind) == DataEntries(FieldNames(kind), kind, lines)
  {
    TrimFrontHeaderless(lines);
    TrimBackHeaderless(TrimFront(lines));
    NoHeader(Trimmed(lines));
    FieldNamesAddressFirst(kind);
    TrimFrontData(FieldNames(kind), kind, lines);
    EntriesOfTrimBack(FieldNames(kind), kind, TrimFront(lines));
  }

  lemma CellIsContained(line: string, cell: string)
    requires cell in Cells(line)
    ensures Contains(line, cell)
  {
    var i :| 0 <= i < |Cells(line)| && Cells(line)[i] == cell;
    CellOccurs(line, ',', i);
  }

  // ---- Release ------------------------------------------------------------------------------

  /** The kept lines are lines of the file. */
  lemma {:induction false} KeptFromFile(lines: seq<string>, ip: string, shielded: bool, j: nat) returns (i: nat)
    requires j < |Kept(lines, ip, shielded)|
    ensures i < |lines| && Kept(lines, ip, shielded)[j] == lines[i]
    ensures !(shielded && i == 0) ==> !Dropped(lines[i], ip)
  {
    var front := lines[..|lines| - 1];
    if j < |Kept(front, ip, shielded)| { i := KeptFromFile(front, ip, shielded, j); } else { i := |front|; }
  }

  lemma ReleasedLines(content: string, ip: string)
    requires Released(content, ip).Ok?
    ensures SplitLines(Released(content, ip).value) == KeptLines(SplitLines(content), ip)
  {
    var lines := SplitLines(content);
    var kept := KeptLines(lines, ip);
    LinesUnbroken(content);
    forall j | 0 <= j < |kept| ensures Unbroken(kept[j]) { var i := KeptFromFile(lines, ip, Shielded(lines), j); }
    WrittenLines(kept);
  }

  lemma ParsedReleased(content: string, kind: Kind, ip: string)
    requires Released(content, ip).Ok?
    ensures Parse(content, kind) == ParseLines(Trimmed(SplitLines(content)), kind)
    ensures Parse(Released(content, ip).value, kind) == ParseLines(Trimmed(KeptLines(SplitLines(content), ip)), kind)
  {
    ParsedLines(content);
    ParsedLines(Released(content, ip).value);
    ReleasedLines(content, ip);
  }

  /** A shielded first line stays in front of what the rest keeps. */
  lemma {:induction false} KeptBehind(lines: seq<string>, ip: string)
    requires lines != []
    ensures Kept(lines, ip, true) == [lines[0]] + Kept(lines[1..], ip, false)
  {
    var n := |lines|;
    if n > 1 {
      KeptBehind(lines[..n - 1], ip);
      assert lines[..n - 1][1..] == lines[1..][..n - 2];
    }
  }

  /** In a file with an address header, releasing leaves exactly the other entries, in order,
      if and only if it takes the right lines and exposes no blank. */
  lemma ReleaseWithHeaderIff(content: string, kind: Kind, ip: string)
    requires HeaderFirst(SplitLines(content)) && Released(content, ip).Ok?
    ensures var lines := SplitLines(content);
            Parse(Released(content, ip).value, kind) == Without(Parse(content, kind), ip)
            <==> TakenAlike(Header(lines), lines[1..], ip, false)
                 && !Exposed(Header(lines), kind, lines[1..], ip, false)
  {
    var lines := SplitLines(content);
    ParsedReleased(content, kind, ip);
    HeaderIsKept(lines, ip);
    ParseWithHeader(lines, kind);
    ParseWithHeader(KeptLines(lines, ip), kind);
    KeptReadsIff(Header(lines), kind, lines[1..], ip, false);
  }

  lemma HeaderIsKept(lines: seq<string>, ip: string)
    requires HeaderFirst(lines)
    ensures var kept := KeptLines(lines, ip);
            HeaderFirst(kept) && kept[0] == lines[0] && Header(kept) == Header(lines)
            && kept[1..] == Kept(lines[1..], ip, false)
  {
    HeaderIsShielded(lines);
    KeptBehind(lines, ip);
  }

  lemma HeaderIsShielded(lines: seq<string>)
    requires HeaderFirst(lines)
    ensures Shielded(lines)
  {
    var first := lines[0];
    CellIsContained(StripLeft(first), "address");
    var w := StripLeftCuts(first);
    ContainsInLarger(w, StripLeft(first), "", "address");
    assert w + StripLeft(first) + "" == first;
  }

  lemma KeptIsHeaderless(lines: seq<string>, ip: string)
    requires Headerless(lines)
    ensures Headerless(KeptLines(lines, ip))
  {
    var kept := KeptLines(lines, ip);
    forall j | 0 <= j < |kept| ensures NoAddressCell(kept[j]) {
      var i := KeptFromFile(lines, ip, Shielded(lines), j);
    }
  }

  lemma ParseHeaderlessRelease(content: string, kind: Kind, ip: string)
    requires Headerless(SplitLines(content)) && Released(content, ip).Ok?
    ensures var lines, names := SplitLines(content), FieldNames(kind);
            && Parse(content, kind) == DataEntries(names, kind, lines)
            && Parse(Released(content, ip).value, kind) == DataEntries(names, kind, KeptLines(lines, ip))
  {
    var lines := SplitLines(content);
    ParsedReleased(content, kind, ip);
    ParseHeaderless(lines, kind);
    KeptIsHeaderless(lines, ip);
    ParseHeaderless(KeptLines(lines, ip), kind);
  }

  /** The escaping line is still read as an entry for the address. */
  lemma EscapedIsRead(names: seq<string>, kind: Kind, lines: seq<string>, ip: string) returns (e: Entry)
    requires AddressFirst(names) && lines != [] && FirstCell(lines[0]) == ip != ""
    ensures e in DataEntries(names, kind, lines) && e.ip == ip
  {
    assert lines == [lines[0]] + lines[1..];
    DataPast(names, kind, lines[0], lines[1..]);
    AddressCell(names, lines[0]);
    EntryAddress(names, kind, lines[0]);
    TrimmedEntryAddress(names, kind, lines[0]);
    e := if AllWhite(lines[1..]) then LineEntry(names, kind, StripRight(lines[0]))[0]
         else LineEntry(names, kind, lines[0])[0];
  }

  /** In a file without a header, releasing leaves exactly the other entries unless line 0 is
      one of the address's and its text happens to contain "address", or a blank is exposed. */
  lemma HeaderlessReleaseIff(content: string, kind: Kind, ip: string)
    requires Headerless(SplitLines(content)) && Released(content, ip).Ok?
    ensures var lines := SplitLines(content);
            Parse(Released(content, ip).value, kind) == Without(Parse(content, kind), ip)
            <==> !Escapes(lines, ip, Shielded(lines)) && !Exposed(FieldNames(kind), kind, lines, ip, Shielded(lines))
  {
    var lines, names := SplitLines(content), FieldNames(kind);
    ParseHeaderlessRelease(content, kind, ip);
    FieldNamesAddressFirst(kind);
    AlikeIff(names, lines, ip, Shielded(lines));
    KeptReadsIff(names, kind, lines, ip, Shielded(lines));
  }

  // ---- Regular files ------------------------------------------------------------------------

  /** The files whose first line the handler and the parser read alike. */
  predicate Regular(lines: seq<string>) {
    HeaderFirst(lines) || forall i :: 0 <= i < |lines| ==> !Contains(lines[i], "address")
  }

  /** The column names and the data lines of a regular file. */
  function NamesOf(lines: seq<string>, kind: Kind): seq<string> {
    if HeaderFirst(lines) then Header(lines) else FieldNames(kind)
  }

  function DataOf(lines: seq<string>): seq<string> {
    if HeaderFirst(lines) then lines[1..] else lines
  }

  lemma RegularCases(lines: seq<string>)
    requires Regular(lines)
    ensures HeaderFirst(lines) || (Headerless(lines) && !Shielded(lines))
  {
    if !HeaderFirst(lines) {
      forall i | 0 <= i < |lines| ensures NoAddressCell(lines[i]) {
        if j :| 0 <= j < |Cells(lines[i])| && Strip(Cells(lines[i])[j]) == "address" {
          var cell := Cells(lines[i])[j];
          StripIsContained(cell);
          CellIsContained(lines[i], cell);
          ContainsTrans(lines[i], cell, "address");
          assert false;
        }
      }
    }
  }

  lemma StripIsContained(s: string)
    ensures Contains(s, Strip(s))
  {
    var w := StripLeftCuts(s);
    var z := StripRightCuts(StripLeft(s));
    assert s == w + Strip(s) + z;
    assert OccursAt(s, Strip(s), |w|);
  }

  lemma ContainsTrans(s: string, t: string, u: string)
    requires Contains(s, t) && Contains(t, u)
    ensures Contains(s, u)
  {
    var i: nat :| i <= |s| && OccursAt(s, t, i);
    ContainsInLarger(s[..i], t, s[i + |t|..], u);
    assert s[..i] + t + s[i + |t|..] == s;
  }

  /** What a regular file reads as, before and after. */
  lemma ParseRegular(content: string, kind: Kind)
    requires Regular(SplitLines(content))
    ensures var lines := SplitLines(content);
            Parse(content, kind) == DataEntries(NamesOf(lines, kind), kind, DataOf(lines))
  {
    var lines := SplitLines(content);
    RegularCases(lines);
    ParsedLines(content);
    if HeaderFirst(lines) { ParseWithHeader(lines, kind); } else { ParseHeaderless(lines, kind); }
  }

  /** Releasing an address from a regular file leaves exactly the other entries, in their
      order, if and only if it takes the right lines and exposes no blank. */
  lemma ReleaseRemovesExactlyIff(content: string, kind: Kind, ip: string)
    requires Regular(SplitLines(content)) && Released(content, ip).Ok?
    ensures var lines := SplitLines(content);
            Parse(Released(content, ip).value, kind) == Without(Parse(content, kind), ip)
            <==> TakenAlike(NamesOf(lines, kind), DataOf(lines), ip, false)
                 && !Exposed(NamesOf(lines, kind), kind, DataOf(lines), ip, false)
  {
    var lines := SplitLines(content);
    RegularCases(lines);
    if HeaderFirst(lines) {
      ReleaseWithHeaderIff(content, kind, ip);
    } else {
      HeaderlessReleaseIff(content, kind, ip);
      FieldNamesAddressFirst(kind);
      AlikeIff(FieldNames(kind), lines, ip, false);
    }
  }

  /** On every line the address stands in the first cell, as it does under a header whose
      first column is the address and no other. */
  predicate AddressColumn(names: seq<string>, lines: seq<string>) {
    forall i :: 0 <= i < |lines| ==> AddressOf(names, lines[i]) == FirstCell(lines[i])
  }

  lemma FirstIsColumn(names: seq<string>, lines: seq<string>)
    requires AddressFirst(names)
    ensures AddressColumn(names, lines)
  {
    forall i | 0 <= i < |lines| ensures AddressOf(names, lines[i]) == FirstCell(lines[i]) {
      AddressCell(names, lines[i]);
    }
  }

  predicate EndsInText(line: string) {
    line == "" || !IsSpace(line[|line| - 1])
  }

  /** No line ends in white space. */
  predicate Trim(lines: seq<string>) {
    forall i :: 0 <= i < |lines| ==> EndsInText(lines[i])
  }

  lemma {:induction false} LastTextIn(lines: seq<string>) returns (i: nat)
    requires LastText(lines).Some?
    ensures i < |lines| && LastText(lines).value == lines[i] && !White(lines[i])
  {
    if White(lines[|lines| - 1]) { i := LastTextIn(lines[..|lines| - 1]); } else { i := |lines| - 1; }
  }

  /** Where no line ends in white space, releasing leaves exactly the other entries if and
      only if it takes the right lines, as it does where the first cell is the address. */
  lemma ReleaseRemovesExactly(content: string, kind: Kind, ip: string)
    requires Regular(SplitLines(content)) && Trim(SplitLines(content)) && Released(content, ip).Ok?
    ensures var lines := SplitLines(content);
            Parse(Released(content, ip).value, kind) == Without(Parse(content, kind), ip)
            <==> TakenAlike(NamesOf(lines, kind), DataOf(lines), ip, false)
    ensures var lines := SplitLines(content);
            AddressColumn(NamesOf(lines, kind), DataOf(lines))
            ==> Parse(Released(content, ip).value, kind) == Without(Parse(content, kind), ip)
  {
    var lines := SplitLines(content);
    ReleaseRemovesExactlyIff(content, kind, ip);
    DataTrim(lines);
    NothingExposed(NamesOf(lines, kind), kind, DataOf(lines), ip);
  }

  lemma DataTrim(lines: seq<string>)
    requires Trim(lines)
    ensures Trim(DataOf(lines))
  {
  }

  lemma NothingExposed(names: seq<string>, kind: Kind, lines: seq<string>, ip: string)
    requires Trim(lines)
    ensures !Exposed(names, kind, lines, ip, false)
  {
    var after := LastText(Kept(lines, ip, false));
    if after.Some? {
      LastKeptTrim(lines, ip);
      NoEndTells(names, kind, after.value);
    }
  }

  lemma LastKeptTrim(lines: seq<string>, ip: string)
    requires Trim(lines) && LastText(Kept(lines, ip, false)).Some?
    ensures EndsInText(LastText(Kept(lines, ip, false)).value)
  {
    var j := LastTextIn(Kept(lines, ip, false));
    var i := KeptFromFile(lines, ip, false, j);
  }

  lemma NoEndTells(names: seq<string>, kind: Kind, line: string)
    requires EndsInText(line)
    ensures !EndTells(names, kind, line)
  {
    assert StripRight(line) == line;
  }

  predicate Listed(entries: seq<Entry>, ip: string) {
    exists e :: e in entries && e.ip == ip
  }

  predicate HasAddress(names: seq<string>, lines: seq<string>, ip: string) {
    exists i :: 0 <= i < |lines| && AddressOf(names, lines[i]) == ip
  }

  lemma ListedIff(names: seq<string>, kind: Kind, lines: seq<string>, ip: string)
    ensures Listed(DataEntries(names, kind, lines), ip) <==> ip != "" && HasAddress(names, lines, ip)
  {
    if ip != "" && HasAddress(names, lines, ip) {
      var i :| 0 <= i < |lines| && AddressOf(names, lines[i]) == ip;
      var e := AddressIsRead(names, kind, lines, ip, i);
    }
    if e :| e in DataEntries(names, kind, lines) && e.ip == ip {
      var i := ReadHasLine(names, kind, lines, e);
    }
  }

  lemma ColumnMatches(names: seq<string>, lines: seq<string>, ip: string)
    requires AddressColumn(names, lines) && ip != ""
    ensures HasAddress(names, lines, ip) <==> SomeMatch(lines, ip, false)
  {
    if i :| 0 <= i < |lines| && AddressOf(names, lines[i]) == ip { assert Matches(lines[i], ip); }
    if i :| 0 <= i < |lines| && Matches(lines[i], ip) { assert AddressOf(names, lines[i]) == ip; }
  }

  lemma MatchesBehind(lines: seq<string>, ip: string)
    requires lines != []
    ensures SomeMatch(lines, ip, true) <==> SomeMatch(lines[1..], ip, false)
  {
    if i :| 1 <= i < |lines| && Matches(lines[i], ip) { assert Matches(lines[1..][i - 1], ip); }
    if i :| 0 <= i < |lines[1..]| && Matches(lines[1..][i], ip) { assert Matches(lines[i + 1], ip); }
  }

  lemma RegularMatches(lines: seq<string>, ip: string)
    requires Regular(lines)
    ensures SomeMatch(lines, ip, Shielded(lines)) <==> SomeMatch(DataOf(lines), ip, false)
  {
    RegularCases(lines);
    if HeaderFirst(lines) {
      HeaderIsShielded(lines);
      MatchesBehind(lines, ip);
    }
  }

  /** The handler reports "not found" exactly when no data line's first cell is the address;
      an address is listed exactly when the address column of some data line reads it. Where
      the first cell is the address column the two agree, but for the empty address, which
      names no entry and is found where a data line's first cell is blank. */
  lemma NotFoundIff(content: string, kind: Kind, ip: string)
    requires Regular(SplitLines(content))
    ensures var lines := SplitLines(content);
            && (Released(content, ip).Err? <==> !SomeMatch(DataOf(lines), ip, false))
            && (Listed(Parse(content, kind), ip) <==> ip != "" && HasAddress(NamesOf(lines, kind), DataOf(lines), ip))
    ensures var lines := SplitLines(content);
            AddressColumn(NamesOf(lines, kind), DataOf(lines)) ==>
              (Released(content, ip).Err?
               <==> !Listed(Parse(content, kind), ip) && !(ip == "" && SomeMatch(DataOf(lines), "", false)))
  {
    var lines := SplitLines(content);
    var names, data := NamesOf(lines, kind), DataOf(lines);
    RegularMatches(lines, ip);
    ParseRegular(content, kind);
    ListedIff(names, kind, data, ip);
    if AddressColumn(names, data) && ip != "" { ColumnMatches(names, data, ip); }
  }

  lemma KeptStaysRegular(lines: seq<string>, ip: string)
    requires Regular(lines)
    ensures var kept := KeptLines(lines, ip);
            Regular(kept) && !SomeMatch(kept, ip, Shielded(kept))
  {
    var kept := KeptLines(lines, ip);
    RegularCases(lines);
    forall j | 0 <= j < |kept| && Matches(kept[j], ip) ensures Shielded(lines) && j == 0 {
      KeptMatches(lines, ip, Shielded(lines), j);
    }
    if HeaderFirst(lines) {
      HeaderIsKept(lines, ip);
      HeaderIsShielded(kept);
    } else {
      forall j | 0 <= j < |kept| ensures !Contains(kept[j], "address") {
        var i := KeptFromFile(lines, ip, Shielded(lines), j);
      }
    }
  }

  lemma KeptHeader(lines: seq<string>, kind: Kind, ip: string)
    requires Regular(lines)
    ensures var kept := KeptLines(lines, ip);
            NamesOf(kept, kind) == NamesOf(lines, kind) && DataOf(kept) == Kept(DataOf(lines), ip, false)
  {
    RegularCases(lines);
    if HeaderFirst(lines) {
      HeaderIsKept(lines, ip);
    } else {
      KeptIsHeaderless(lines, ip);
      NotHeaderFirst(KeptLines(lines, ip));
    }
  }

  lemma NotHeaderFirst(lines: seq<string>)
    requires Headerless(lines)
    ensures !HeaderFirst(lines)
  {
    if HeaderFirst(lines) {
      TrimmingHidesNoHeader(lines[0]);
      AddressWord("address");
    }
  }

  lemma {:induction false} KeptMatches(lines: seq<string>, ip: string, shielded: bool, j: nat)
    requires j < |Kept(lines, ip, shielded)| && Matches(Kept(lines, ip, shielded)[j], ip)
    ensures shielded && j == 0
  {
    var front := lines[..|lines| - 1];
    if j < |Kept(front, ip, shielded)| { KeptMatches(front, ip, shielded, j); }
  }

  /** Releasing twice: the second attempt answers "not found", and the address is listed still
      exactly when it stands in the address column of a line that stayed. Where the first
      cell is the address column no such line is left. */
  lemma SecondReleaseFails(content: string, kind: Kind, ip: string)
    requires Regular(SplitLines(content)) && Released(content, ip).Ok?
    ensures Released(Released(content, ip).value, ip) == Err(LeaseNotFound)
    ensures var lines := SplitLines(content);
            Listed(Parse(Released(content, ip).value, kind), ip)
            <==> ip != "" && HasAddress(NamesOf(lines, kind), Kept(DataOf(lines), ip, false), ip)
    ensures var lines := SplitLines(content);
            AddressColumn(NamesOf(lines, kind), DataOf(lines)) ==> !Listed(Parse(Released(content, ip).value, kind), ip)
  {
    var lines, after := SplitLines(content), Released(content, ip).value;
    ReleasedLines(content, ip);
    KeptStaysRegular(lines, ip);
    KeptHeader(lines, kind, ip);
    NotFoundIff(after, kind, ip);
    if AddressColumn(NamesOf(lines, kind), DataOf(lines)) { ColumnStays(NamesOf(lines, kind), DataOf(lines), ip); }
  }

  lemma ColumnStays(names: seq<string>, lines: seq<string>, ip: string)
    requires AddressColumn(names, lines)
    ensures ip != "" ==> !HasAddress(names, Kept(lines, ip, false), ip)
  {
    var kept := Kept(lines, ip, false);
    forall j | 0 <= j < |kept| ensures FirstCell(kept[j]) != ip && AddressOf(names, kept[j]) == FirstCell(kept[j]) {
      var i := KeptFromFile(lines, ip, false, j);
    }
  }

  /** An address on an escaping first line stays listed whatever the handler answers. */
  lemma EscapedEntryStays(content: string, kind: Kind, ip: string)
    requires var lines := SplitLines(content); Headerless(lines) && Escapes(lines, ip, Shielded(lines))
    ensures Listed(Parse(content, kind), ip)
    ensures Released(content, ip).Ok? ==> Listed(Parse(Released(content, ip).value, kind), ip)
  {
    var lines, names := SplitLines(content), FieldNames(kind);
    FieldNamesAddressFirst(kind);
    ParsedLines(content);
    ParseHeaderless(lines, kind);
    var e := EscapedIsRead(names, kind, lines, ip);
    if Released(content, ip).Ok? {
      ParseHeaderlessRelease(content, kind, ip);
      KeptBehind(lines, ip);
      var e' := EscapedIsRead(names, kind, KeptLines(lines, ip), ip);
    }
  }

  // ---- Two files ----------------------------------------------------------------------------

  lemma TwoCells(a: string, b: string)
    requires ',' !in a && ',' !in b
    ensures Cells(a + [','] + b) == [a, b]
  {
    SplitFirst(b, "", ',');
    SplitFirst(a, b, ',');
  }

  lemma ExampleCells(line: string)
    requires line == "1,xaddress"
    ensures Cells(line) == ["1", "xaddress"] && FirstCell(line) == "1"
  {
    assert "1" + [','] + "xaddress" == line;
    TwoCells("1", "xaddress");
  }

  lemma ExampleText(line: string)
    requires line == "1,xaddress"
    ensures Contains(line, "address") && Unbroken(line)
  {
    assert Contains(line, "address") by { assert OccursAt(line, "address", 3); }
    assert Unbroken(line) by {
      forall i | 0 <= i < |line| ensures line[i] == '1' || line[i] == ',' || 'a' <= line[i] <= 'x' {}
    }
  }

  lemma ExampleEscapes(line: string)
    requires Cells(line) == ["1", "xaddress"] && FirstCell(line) == "1"
    requires Contains(line, "address") && Unbroken(line)
    ensures Headerless([line]) && Escapes([line], "1", Shielded([line]))
    ensures SplitLines(JoinLines([line])) == [line] && Released(JoinLines([line]), "1") == Err(LeaseNotFound)
  {
    StripIdle("1");
    StripIdle("xaddress");
    assert |"address"| == 7 && |"xaddress"| == 8;
    WrittenLines([line]);
  }

  /** Such a first line exists: one whose client id contains "address". */
  lemma EscapeExample() returns (content: string)
    ensures content == "1,xaddress\n"
    ensures var lines := SplitLines(content);
            && Headerless(lines) && Escapes(lines, "1", Shielded(lines))
            && Released(content, "1") == Err(LeaseNotFound)
  {
    var line := "1,xaddress";
    ExampleCells(line);
    ExampleText(line);
    ExampleEscapes(line);
    content := JoinLines([line]);
  }

  // A blank at the end of a line is lost when the release makes that line the last one.

  function Row3(a: string, b: string, c: string): string {
    a + [','] + (b + [','] + c)
  }

  /** Text without commas and line breaks, and without white space at its ends. */
  predicate Bare(s: string) {
    && s != "" && !IsSpace(s[0]) && !IsSpace(s[|s| - 1])
    && forall i :: 0 <= i < |s| ==> s[i] != ',' && !BreaksLine(s[i])
  }

  lemma Row3Cells(a: string, b: string, c: string)
    requires ',' !in a && ',' !in b && ',' !in c
    ensures Cells(Row3(a, b, c)) == [a, b, c] && FirstCell(Row3(a, b, c)) == Strip(a)
  {
    SplitFirst(c, "", ',');
    SplitFirst(b, c, ',');
    SplitFirst(a, b + [','] + c, ',');
  }

  lemma Row3Unbroken(a: string, b: string, c: string)
    requires Unbroken(a) && Unbroken(b) && Unbroken(c)
    ensures Unbroken(Row3(a, b, c))
  {
  }

  /** A blank behind the last cell, trimmed. */
  lemma BlankEnd(a: string, b: string, c: string)
    requires Bare(c)
    ensures StripRight(Row3(a, b, c + " ")) == Row3(a, b, c)
  {
    var front := a + [','] + (b + [',']);
    assert Row3(a, b, c + " ") == (front + c) + " " && Row3(a, b, c) == front + c;
    StripRightPast(front + c, " ");
    StripRightOf(front, c);
  }

  lemma PoolIdTells(names: seq<string>, row: seq<string>, trimmed: seq<string>)
    requires |names| == |row| == |trimmed| == 3 && names[2] == "pool_id" && row[2] != trimmed[2]
    requires RowEntry(names, row, V4) != []
    ensures RowEntry(names, trimmed, V4) != RowEntry(names, row, V4)
  {
    assert RowValues(names, row)[6] == row[2] && RowValues(names, trimmed)[6] == trimmed[2];
  }

  lemma FirstLeaseTells(names: seq<string>, x: string, h: string, p: string)
    requires |names| == 3 && AddressFirst(names) && names[2] == "pool_id" && Bare(x) && Bare(h) && Bare(p)
    ensures EndTells(names, V4, Row3(x, h, p + " "))
  {
    var line := Row3(x, h, p + " ");
    BlankEnd(x, h, p);
    Row3Cells(x, h, p);
    Row3Cells(x, h, p + " ");
    StripIdle(x);
    EntryAddress(names, V4, line);
    AddressCell(names, line);
    assert Row3(x, h, p) != "" && line != "";
    PoolIdTells(names, [x, h, p + " "], [x, h, p]);
  }

  lemma LastLeaseGoes(x: string, line: string, y: string, last: string)
    requires FirstCell(line) == x != "" && FirstCell(last) == y != "" && x != y
    ensures Kept([line, last], y, false) == [line] && LastText([line]) == Some(line)
    ensures LastText([line, last]) == Some(last) && SomeMatch([line, last], y, false)
  {
    if White(line) { WhiteCell(line); }
    if White(last) { WhiteCell(last); }
    var two := [line, last];
    assert two[..1] == [line] && [line][..0] == [];
    assert Kept([line], y, false) == [] + [line];
    assert Matches(two[1], y);
  }

  lemma BareCells(x: string, h: string, p: string)
    requires Bare(x) && Bare(h) && Bare(p)
    ensures Unbroken(Row3(x, h, p + " ")) && FirstCell(Row3(x, h, p + " ")) == x
    ensures Unbroken(Row3(x, h, p)) && FirstCell(Row3(x, h, p)) == x
  {
    Row3Unbroken(x, h, p);
    Row3Unbroken(x, h, p + " ");
    Row3Cells(x, h, p);
    Row3Cells(x, h, p + " ");
    StripIdle(x);
  }

  /** In every file of two leases under the header `address,hwaddr,pool_id` whose first pool
      id ends in a blank, releasing the second changes the first. */
  lemma BlankIsLost(head: string, x: string, h: string, p: string, y: string, k: string, q: string)
    returns (content: string)
    requires Cells(head) == ["address", "hwaddr", "pool_id"] && AddressFirst(Cells(head)) && Unbroken(head)
    requires Bare(x) && Bare(h) && Bare(p) && Bare(y) && Bare(k) && Bare(q) && x != y
    ensures content == JoinLines([head, Row3(x, h, p + " "), Row3(y, k, q)])
    ensures Regular(SplitLines(content)) && Released(content, y).Ok?
    ensures Parse(Released(content, y).value, V4) != Without(Parse(content, V4), y)
  {
    var first, last := Row3(x, h, p + " "), Row3(y, k, q);
    var lines := [head, first, last];
    BareCells(x, h, p);
    BareCells(y, k, q);
    content := JoinLines(lines);
    WrittenLines(lines);
    assert lines[1..] == [first, last];
    AddressInFront(head);
    FirstLeaseTells(Cells(head), x, h, p);
    LastLeaseGoes(x, first, y, last);
    RegularMatches(lines, y);
    ReleaseRemovesExactlyIff(content, V4, y);
  }

  lemma PoolHeader() returns (head: string)
    ensures head == Row3("address", "hwaddr", "pool_id")
    ensures Cells(head) == ["address", "hwaddr", "pool_id"] && AddressFirst(Cells(head)) && Unbroken(head)
  {
    head := Row3("address", "hwaddr", "pool_id");
    BareAddress();
    BareHwaddr();
    BarePoolId();
    Row3Cells("address", "hwaddr", "pool_id");
    Row3Unbroken("address", "hwaddr", "pool_id");
  }

  lemma BareAddress()
    ensures Bare("address")
  {
  }

  lemma BareHwaddr()
    ensures Bare("hwaddr") && "hwaddr" != "address"
  {
    assert |"hwaddr"| == 6;
  }

  lemma BarePoolId()
    ensures Bare("pool_id") && "pool_id" != "address"
  {
    assert "pool_id"[0] == 'p' && "address"[0] == 'a';
  }

  lemma BareLeases()
    ensures Bare("10.0.0.1") && Bare("10.0.0.2") && "10.0.0.1" != "10.0.0.2"
  {
    assert "10.0.0.1"[7] == '1' && "10.0.0.2"[7] == '2';
  }

  /** Such a file: the other lease's pool id changes from "7 " to "7". */
  lemma ExposedExample() returns (content: string)
    ensures content == JoinLines([Row3("address", "hwaddr", "pool_id"), Row3("10.0.0.1", "aa", "7 "),
                                  Row3("10.0.0.2", "bb", "8")])
    ensures Regular(SplitLines(content)) && Released(content, "10.0.0.2").Ok?
    ensures Parse(Released(content, "10.0.0.2").value, V4) != Without(Parse(content, V4), "10.0.0.2")
  {
    var head := PoolHeader();
    BareLeases();
    assert "7" + " " == "7 ";
    content := BlankIsLost(head, "10.0.0.1", "aa", "7", "10.0.0.2", "bb", "8");
  }

  // Under a header with two "address" columns the parser takes the last and the handler the first.

  lemma SecondColumnReads(names: seq<string>, a: string, b: string, c: string)
    requires |names| == 3 && names[2] == "address" && Bare(a) && Bare(b) && Bare(c)
    ensures AddressOf(names, Row3(a, b, c)) == c && FirstCell(Row3(a, b, c)) == a
  {
    Row3Cells(a, b, c);
    StripIdle(a);
    StripIdle(c);
  }

  /** In every file of one lease under a header whose third column of three is the address
      and whose first cell is another: the first cell releases it, and its address does not. */
  lemma TwoColumns(head: string, a: string, b: string, c: string, kind: Kind) returns (content: string)
    requires Unbroken(head) && StripLeft(head) == head && |Cells(head)| == 3 && Cells(head)[2] == "address"
    requires Bare(a) && Bare(b) && Bare(c) && a != c
    ensures content == JoinLines([head, Row3(a, b, c)]) && Regular(SplitLines(content))
    ensures Released(content, a).Ok?
            && Parse(Released(content, a).value, kind) != Without(Parse(content, kind), a)
    ensures Listed(Parse(content, kind), c) && Released(content, c) == Err(LeaseNotFound)
  {
    var names, line := Cells(head), Row3(a, b, c);
    var lines := [head, line];
    content := JoinLines(lines);
    Row3Unbroken(a, b, c);
    WrittenLines(lines);
    SecondColumnReads(names, a, b, c);
    assert lines[1..] == [line];
    OneLineUnlike(names, line, a, c);
    NotFoundIff(content, kind, a);
    NotFoundIff(content, kind, c);
    ReleaseRemovesExactlyIff(content, kind, a);
  }

  lemma OneLineUnlike(names: seq<string>, line: string, a: string, c: string)
    requires FirstCell(line) == a != "" && AddressOf(names, line) == c != "" && a != c
    ensures SomeMatch([line], a, false) && !SomeMatch([line], c, false) && HasAddress(names, [line], c)
    ensures !TakenAlike(names, [line], a, false)
  {
    var data := [line];
    assert Matches(data[0], a) && AddressOf(names, data[0]) == c;
    assert Goes(data, 0, a, false);
  }

  lemma TwoColumnHeader() returns (head: string)
    ensures head == Row3("address", "x", "address")
    ensures Unbroken(head) && StripLeft(head) == head && |Cells(head)| == 3 && Cells(head)[2] == "address"
  {
    head := Row3("address", "x", "address");
    BareAddress();
    BareCharacters();
    BareRow("address", "x", "address");
  }

  lemma BareRow(a: string, b: string, c: string)
    requires Bare(a) && Bare(b) && Bare(c)
    ensures var line := Row3(a, b, c); Unbroken(line) && StripLeft(line) == line && Cells(line) == [a, b, c]
  {
    Row3Cells(a, b, c);
    Row3Unbroken(a, b, c);
    assert Row3(a, b, c)[0] == a[0];
  }

  lemma BareCharacters()
    ensures Bare("x") && Bare("1") && Bare("a") && Bare("2") && "1" != "2"
  {
    assert "1"[0] == '1' && "2"[0] == '2';
  }

  /** Such a file: releasing "1" takes away the lease listed as "2", and releasing "2" fails. */
  lemma TwoColumnsExample(kind: Kind) returns (content: string)
    ensures content == JoinLines([Row3("address", "x", "address"), Row3("1", "a", "2")])
    ensures Released(content, "1").Ok?
            && Parse(Released(content, "1").value, kind) != Without(Parse(content, kind), "1")
    ensures Listed(Parse(content, kind), "2") && Released(content, "2") == Err(LeaseNotFound)
  {
    var head := TwoColumnHeader();
    BareCharacters();
    content := TwoColumns(head, "1", "a", "2", kind);
  }

  // ---- The columns of a file without a header -----------------------------------------------------

  /** The cell at a position, "" where the row is too short for it. */
  function CellAt(row: seq<string>, i: nat): string {
    if i < |row| then row[i] else ""
  }

  lemma {:induction false} LookupAt(names: seq<string>, row: seq<string>, key: string, i: nat)
    requires i < |names| && names[i] == key && forall j :: i < j < |names| ==> names[j] != key
    ensures Lookup(names, row, key) == CellAt(row, i)
  {
    if i < |names| - 1 { LookupAt(names[..|names| - 1], row, key, i); }
  }

  lemma {:induction false} LookupNone(names: seq<string>, row: seq<string>, key: string)
    requires forall j :: 0 <= j < |names| ==> names[j] != key
    ensures Lookup(names, row, key) == ""
  {
    if names != [] { LookupNone(names[..|names| - 1], row, key); }
  }

  /** The word stands at this place and at no other. */
  predicate OnlyPlace(names: seq<string>, key: string, i: nat) {
    i < |names| && names[i] == key && forall j :: 0 <= j < |names| && j != i ==> names[j] != key
  }

  predicate NoPlace(names: seq<string>, key: string) {
    forall j :: 0 <= j < |names| ==> names[j] != key
  }

  lemma V4Places()
    ensures var names := FieldNames(V4);
            && OnlyPlace(names, "hwaddr", 1) && NoPlace(names, "duid") && OnlyPlace(names, "client_id", 2)
            && NoPlace(names, "iaid") && OnlyPlace(names, "expire", 4) && OnlyPlace(names, "subnet_id", 5)
            && OnlyPlace(names, "hostname", 8) && OnlyPlace(names, "state", 9) && OnlyPlace(names, "pool_id", 11)
  {
  }

  lemma V6Places()
    ensures var names := FieldNames(V6);
            && OnlyPlace(names, "duid", 1) && NoPlace(names, "hwaddr") && OnlyPlace(names, "iaid", 7)
            && NoPlace(names, "client_id") && OnlyPlace(names, "expire", 3)
  {
  }

  lemma V6MorePlaces()
    ensures var names := FieldNames(V6);
            && OnlyPlace(names, "subnet_id", 4) && OnlyPlace(names, "hostname", 11) && OnlyPlace(names, "state", 12)
            && OnlyPlace(names, "pool_id", 14)
  {
  }

  /** The values of an entry, in the order of `COLUMNS`. */
  function Values(hw: string, client: string, hostname: string, expires: string, state: string, subnet: string,
                  pool: string): seq<string>
  {
    [hw, client, hostname, expires, if state == "" then "active" else state, subnet, pool]
  }

  lemma ValuesAre(names: seq<string>, row: seq<string>)
    ensures var hw, duid := Lookup(names, row, "hwaddr"), Lookup(names, row, "duid");
            var client, iaid := Lookup(names, row, "client_id"), Lookup(names, row, "iaid");
            RowValues(names, row)
            == Values(if hw != "" then hw else duid, if client != "" then client else iaid,
                      Lookup(names, row, "hostname"), Lookup(names, row, "expire"), Lookup(names, row, "state"),
                      Lookup(names, row, "subnet_id"), Lookup(names, row, "pool_id"))
  {
  }

  lemma V4Values(row: seq<string>)
    ensures RowValues(FieldNames(V4), row)
            == Values(CellAt(row, 1), CellAt(row, 2), CellAt(row, 8), CellAt(row, 4), CellAt(row, 9), CellAt(row, 5),
                      CellAt(row, 11))
  {
    var names := FieldNames(V4);
    V4Places();
    ValuesAre(names, row);
    LookupAt(names, row, "hwaddr", 1);
    LookupNone(names, row, "duid");
    LookupAt(names, row, "client_id", 2);
    LookupNone(names, row, "iaid");
    LookupAt(names, row, "hostname", 8);
    LookupAt(names, row, "expire", 4);
    LookupAt(names, row, "state", 9);
    LookupAt(names, row, "subnet_id", 5);
    LookupAt(names, row, "pool_id", 11);
  }

  lemma V6Values(row: seq<string>)
    ensures RowValues(FieldNames(V6), row)
            == Values(CellAt(row, 1), CellAt(row, 7), CellAt(row, 11), CellAt(row, 3), CellAt(row, 12), CellAt(row, 4),
                      CellAt(row, 14))
  {
    var names := FieldNames(V6);
    V6Places();
    V6MorePlaces();
    ValuesAre(names, row);
    LookupAt(names, row, "duid", 1);
    LookupNone(names, row, "hwaddr");
    LookupAt(names, row, "iaid", 7);
    LookupNone(names, row, "client_id");
    LookupAt(names, row, "hostname", 11);
    LookupAt(names, row, "expire", 3);
    LookupAt(names, row, "state", 12);
    LookupAt(names, row, "subnet_id", 4);
    LookupAt(names, row, "pool_id", 14);
  }

  /** What a line of a file without a header is listed as: its first cell, trimmed, is the
      address, and each other value stands in its own place. */
  lemma HeaderlessEntry(kind: Kind, line: string)
    ensures FirstCell(line) == "" ==> LineEntry(FieldNames(kind), kind, line) == []
    ensures FirstCell(line) != "" ==>
              var row := Cells(line);
              LineEntry(FieldNames(kind), kind, line)
              == [Entry(FirstCell(line),
                        if kind.V4? then
                          Values(CellAt(row, 1), CellAt(row, 2), CellAt(row, 8), CellAt(row, 4), CellAt(row, 9),
                                 CellAt(row, 5), CellAt(row, 11))
                        else
                          Values(CellAt(row, 1), CellAt(row, 7), CellAt(row, 11), CellAt(row, 3), CellAt(row, 12),
                                 CellAt(row, 4), CellAt(row, 14)),
                        kind)]
  {
    FieldNamesAddressFirst(kind);
    AddressCell(FieldNames(kind), line);
    if kind.V4? { V4Values(Cells(line)); } else { V6Values(Cells(line)); }
  }
}
