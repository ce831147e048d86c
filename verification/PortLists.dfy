/** The three readers of a port list: the importer's `_ports`, the parity gate's
    `_expand_ports` and the firewall agent's `_parse_service_ports`. */
module PortLists {
  import opened Wrappers
  import opened Text

  const EXPANSION_CAP := 256

  function Range(low: int, end: int): (r: seq<int>)
    ensures |r| == if end > low then end - low else 0
    ensures forall i :: 0 <= i < |r| ==> r[i] == low + i
  {
    seq(if end > low then end - low else 0, i => low + i)
  }

  // ---- The two strict readers -----------------------------------------------

  /** One trimmed part of a list: a number or an inclusive range; None when some
      number does not parse. */
  function PartPorts(part: string): Option<seq<int>> {
    if part == "" then Some([])
    else if '-' in part then
      var low, high := ParseInt(Partition(part, '-').0), ParseInt(Partition(part, '-').1);
      if low.Some? && high.Some? then Some(Range(low.value, high.value + 1)) else None
    else
      var n := ParseInt(part);
      if n.Some? then Some([n.value]) else None
  }

  function TupleOfParts(parts: seq<string>): Option<seq<int>> {
    if parts == [] then Some([])
    else
      var init, last := TupleOfParts(parts[..|parts| - 1]), PartPorts(Strip(parts[|parts| - 1]));
      if init.Some? && last.Some? then Some(init.value + last.value) else None
  }

  function SetOfParts(parts: seq<string>): Option<set<int>> {
    if parts == [] then Some({})
    else
      var init, last := SetOfParts(parts[..|parts| - 1]), PartPorts(Strip(parts[|parts| - 1]));
      if init.Some? && last.Some? then Some(init.value + (set p | p in last.value)) else None
  }

  /** The importer's reading: ranges may be written with ':' or '-'. */
  function ImportedPorts(text: string): Option<seq<int>> {
    TupleOfParts(Split(ReplaceChar(text, ':', '-'), ','))
  }

  /** The parity gate's reading. */
  function ExpandedPorts(text: string): Option<set<int>> {
    SetOfParts(Split(text, ','))
  }

  method ReadImportedPorts(text: string) returns (ports: Option<seq<int>>)
    ensures ports == ImportedPorts(text)
  {
    var parts, out := Split(ReplaceChar(text, ':', '-'), ','), [];
    ghost var failed := false;
    for i := 0 to |parts|
      invariant TupleOfParts(parts[..i]) == Some(out)
    {
      assert parts[..i + 1][..i] == parts[..i];
      var part := PartPorts(Strip(parts[i]));
      if part.None? {
        TupleFails(parts, i + 1);
        return None;
      }
      out := out + part.value;
    }
    assert parts[..|parts|] == parts;
    return Some(out);
  }

  lemma {:induction false} TupleFails(parts: seq<string>, n: nat)
    requires n <= |parts| && TupleOfParts(parts[..n]).None?
    ensures TupleOfParts(parts).None?
    decreases |parts|
  {
    if n < |parts| {
      assert parts[..|parts| - 1][..n] == parts[..n];
      TupleFails(parts[..|parts| - 1], n);
    } else {
      assert parts[..n] == parts;
    }
  }

  method ReadExpandedPorts(text: string) returns (ports: Option<set<int>>)
    ensures ports == ExpandedPorts(text)
  {
    var parts, out := Split(text, ','), {};
    for i := 0 to |parts|
      invariant SetOfParts(parts[..i]) == Some(out)
    {
      assert parts[..i + 1][..i] == parts[..i];
      var part := PartPorts(Strip(parts[i]));
      if part.None? {
        SetFails(parts, i + 1);
        return None;
      }
      out := out + set p | p in part.value;
    }
    assert parts[..|parts|] == parts;
    return Some(out);
  }

  lemma {:induction false} SetFails(parts: seq<string>, n: nat)
    requires n <= |parts| && SetOfParts(parts[..n]).None?
    ensures SetOfParts(parts).None?
    decreases |parts|
  {
    if n < |parts| {
      assert parts[..|parts| - 1][..n] == parts[..n];
      SetFails(parts[..|parts| - 1], n);
    } else {
      assert parts[..n] == parts;
    }
  }

  function AsSet(ports: seq<int>): set<int> {
    set p | p in ports
  }

  lemma {:induction false} PartsAgree(parts: seq<string>)
    ensures TupleOfParts(parts).Some? == SetOfParts(parts).Some?
    ensures TupleOfParts(parts).Some? ==> SetOfParts(parts).value == AsSet(TupleOfParts(parts).value)
  {
    if parts != [] { PartsAgree(parts[..|parts| - 1]); }
  }

  // A ':' defeats the gate's reader: no number holds one, and a range on '-' leaves it
  // in one of its halves.

  lemma {:induction false} BadPartFails(parts: seq<string>, i: nat)
    requires i < |parts| && PartPorts(Strip(parts[i])).None?
    ensures SetOfParts(parts).None?
  {
    assert parts[..i + 1][..i] == parts[..i];
    SetFails(parts, i + 1);
  }

  lemma ColonDefeatsGate(text: string)
    requires ':' in text
    ensures ExpandedPorts(text) == None
  {
    CharacterDefeatsGate(text, ':');
  }

  /** So does any other character that stands in no list of numbers. */
  lemma CharacterDefeatsGate(text: string, c: char)
    requires c in text && !IsSpace(c) && !IsDigit(c) && c !in "_+-,"
    ensures ExpandedPorts(text) == None
  {
    var i := SplitKeeps(text, ',', c);
    var part := Strip(Split(text, ',')[i]);
    StripKeeps(Split(text, ',')[i], c);
    PartitionKeeps(part, '-', c);
    if c in Partition(part, '-').0 { ParseIntRejects(Partition(part, '-').0, c); }
    if c in Partition(part, '-').1 { ParseIntRejects(Partition(part, '-').1, c); }
    ParseIntRejects(part, c);
    BadPartFails(Split(text, ','), i);
  }

  /** The two readers fail together, or agree as sets, exactly on the texts that have no
      ':' or that neither reads. */
  lemma StrictReadersAgree(text: string)
    ensures (if ImportedPorts(text).Some? then ExpandedPorts(text) == Some(AsSet(ImportedPorts(text).value))
             else ExpandedPorts(text) == None)
            <==> (':' !in text || ImportedPorts(text).None?)
  {
    if ':' in text {
      ColonDefeatsGate(text);
    } else {
      ReplaceCharIdle(text, ':', '-');
      PartsAgree(Split(text, ','));
    }
  }

  lemma DigitsOnly(n: nat, c: char)
    requires !IsDigit(c)
    ensures c !in Decimal(n)
  {
  }

  lemma RangeCut(low: nat, high: nat)
    ensures var part := Decimal(low) + ['-'] + Decimal(high);
            '-' in part && part != "" && Partition(part, '-') == (Decimal(low), Decimal(high))
  {
    DigitsOnly(low, '-');
    PartitionAt(Decimal(low), Decimal(high), '-');
    assert (Decimal(low) + ['-'] + Decimal(high))[|Decimal(low)|] == '-';
  }

  lemma RangePart(low: nat, high: nat)
    ensures PartPorts(Decimal(low) + ['-'] + Decimal(high)) == Some(Range(low, high + 1))
  {
    RangeCut(low, high);
    ParsePrintedInt(low);
    ParsePrintedInt(high);
  }

  lemma RangeIsOnePart(low: nat, high: nat)
    ensures var text := Decimal(low) + ['-'] + Decimal(high); Split(text, ',') == [text] && Strip(text) == text
  {
    var text := Decimal(low) + ['-'] + Decimal(high);
    DigitsOnly(low, ',');
    DigitsOnly(high, ',');
    SplitFirst(text, "", ',');
    DigitIsNoSpace(text[0]);
    DigitIsNoSpace(text[|text| - 1]);
    StripIdle(text);
  }

  /** Every range written with ':': the importer reads its ports, the gate stops with an
      error. */
  lemma ColonRange(low: nat, high: nat)
    ensures var text := Decimal(low) + [':'] + Decimal(high);
            ImportedPorts(text) == Some(Range(low, high + 1)) && ExpandedPorts(text) == None
  {
    var text := Decimal(low) + [':'] + Decimal(high);
    assert text[|Decimal(low)|] == ':';
    ColonDefeatsGate(text);
    DigitsOnly(low, ':');
    DigitsOnly(high, ':');
    ReplaceCharAt(Decimal(low), Decimal(high), ':', '-');
    RangePart(low, high);
    RangeIsOnePart(low, high);
    OnePart(Decimal(low) + ['-'] + Decimal(high), Range(low, high + 1));
  }

  /** "80:82", say. */
  lemma ColonExample()
    ensures ImportedPorts("80:82") == Some([80, 81, 82]) && ExpandedPorts("80:82") == None
  {
    ColonRange(80, 82);
    assert Decimal(80) == "80" && Decimal(82) == "82";
    assert "80" + [':'] + "82" == "80:82";
    assert Range(80, 83) == [80, 81, 82];
  }

  lemma OnePart(part: string, ports: seq<int>)
    requires Split(part, ',') == [part] && Strip(part) == part && PartPorts(part) == Some(ports)
    ensures TupleOfParts(Split(part, ',')) == Some(ports)
  {
    var none: seq<int> := [];
    assert [part][..0] == [];
    assert none + ports == ports;
    assert TupleOfParts([part]) == Some(none + ports);
  }

  // ---- The lenient reader ---------------------------------------------------

  datatype PartResult = Skipped | Ports(ports: seq<int>) | TooWide

  /** One trimmed part as the agent reads it: unparsable or out of range counts for
      nothing, and a range of more than 256 ports spoils the whole list. */
  function AgentPart(part: string): PartResult {
    if part == "" then Skipped
    else if '-' in part then
      var low, high := ParseInt(Partition(part, '-').0), ParseInt(Partition(part, '-').1);
      if low.None? || high.None? || !(1 <= low.value <= high.value <= 65535) then Skipped
      else if high.value - low.value + 1 > EXPANSION_CAP then TooWide
      else Ports(Range(low.value, high.value + 1))
    else
      var n := ParseInt(part);
      if n.Some? && 1 <= n.value <= 65535 then Ports([n.value]) else Skipped
  }

  function PortsIn(parts: seq<string>): seq<int> {
    if parts == [] then []
    else
      var last := AgentPart(Strip(parts[|parts| - 1]));
      PortsIn(parts[..|parts| - 1]) + if last.Ports? then last.ports else []
  }

  predicate Spoiled(parts: seq<string>) {
    parts != [] && (Spoiled(parts[..|parts| - 1]) || AgentPart(Strip(parts[|parts| - 1])).TooWide?)
  }

  function ServicePorts(raw: Option<string>): seq<int> {
    if raw.None? then []
    else
      var parts := Split(raw.value, ',');
      if Spoiled(parts) then [] else PortsIn(parts)
  }

  method ParseServicePorts(raw: Option<string>) returns (ports: seq<int>)
    ensures ports == ServicePorts(raw)
  {
    if raw.None? { return []; }
    var parts := Split(raw.value, ',');
    ports := [];
    for i := 0 to |parts|
      invariant ports == PortsIn(parts[..i]) && !Spoiled(parts[..i])
    {
      var part := AgentPart(Strip(parts[i]));
      AgentStep(parts, i);
      if part.TooWide? {
        SpoiledStays(parts, i + 1);
        return [];
      }
      if part.Ports? { ports := ports + part.ports; }
    }
    assert parts[..|parts|] == parts;
  }

  lemma AgentStep(parts: seq<string>, i: nat)
    requires i < |parts|
    ensures var part := AgentPart(Strip(parts[i]));
            && PortsIn(parts[..i + 1]) == PortsIn(parts[..i]) + (if part.Ports? then part.ports else [])
            && Spoiled(parts[..i + 1]) == (Spoiled(parts[..i]) || part.TooWide?)
  {
    assert parts[..i + 1][..i] == parts[..i];
  }

  lemma {:induction false} SpoiledStays(parts: seq<string>, n: nat)
    requires n <= |parts| && Spoiled(parts[..n])
    ensures Spoiled(parts)
    decreases |parts|
  {
    if n < |parts| {
      assert parts[..|parts| - 1][..n] == parts[..n];
      SpoiledStays(parts[..|parts| - 1], n);
    } else {
      assert parts[..n] == parts;
    }
  }

  /** Whatever the input, every port is a port and the list stays bounded. */
  lemma ServicePortsBounded(raw: Option<string>)
    ensures forall p :: p in ServicePorts(raw) ==> 1 <= p <= 65535
    ensures raw.Some? ==> |ServicePorts(raw)| <= EXPANSION_CAP * |Split(raw.value, ',')|
  {
    if raw.Some? && !Spoiled(Split(raw.value, ',')) { PortsInBounded(Split(raw.value, ',')); }
  }

  lemma {:induction false} PortsInBounded(parts: seq<string>)
    requires !Spoiled(parts)
    ensures forall p :: p in PortsIn(parts) ==> 1 <= p <= 65535
    ensures |PortsIn(parts)| <= EXPANSION_CAP * |parts|
  {
    if parts != [] {
      PortsInBounded(parts[..|parts| - 1]);
    }
  }

  // ---- Printing and reading back --------------------------------------------

  function PrintPorts(ports: seq<int>): (parts: seq<string>)
    ensures |parts| == |ports|
  {
    if ports == [] then [] else PrintPorts(ports[..|ports| - 1]) + [PrintInt(ports[|ports| - 1])]
  }

  /** The list the importer writes into a row. */
  function PortText(ports: seq<int>): string {
    Join(PrintPorts(ports), ",")
  }

  predicate IsPort(p: int) {
    1 <= p <= 65535
  }

  /** A printed number reads back as itself when it is a port, else as nothing. */
  lemma PrintedPartReads(p: int)
    ensures ',' !in PrintInt(p)
    ensures AgentPart(Strip(PrintInt(p))) == if IsPort(p) then Ports([p]) else Skipped
  {
    ParsePrintedInt(p);
    if p < 0 {
      assert PrintInt(p)[0] == '-';
      assert ParseInt("").None?;
    }
  }

  predicate AllPorts(ports: seq<int>) {
    forall i :: 0 <= i < |ports| ==> IsPort(ports[i])
  }

  /** The numbers that are ports, in their order. */
  function PortsAmong(numbers: seq<int>): seq<int> {
    if numbers == [] then []
    else
      var last := numbers[|numbers| - 1];
      PortsAmong(numbers[..|numbers| - 1]) + if IsPort(last) then [last] else []
  }

  lemma {:induction false} AllAmong(ports: seq<int>)
    requires AllPorts(ports)
    ensures PortsAmong(ports) == ports
  {
    if ports != [] {
      AllAmong(ports[..|ports| - 1]);
      assert ports[..|ports| - 1] + [ports[|ports| - 1]] == ports;
    }
  }

  lemma {:induction false} PrintedPartsRead(numbers: seq<int>)
    ensures !Spoiled(PrintPorts(numbers)) && PortsIn(PrintPorts(numbers)) == PortsAmong(numbers)
    ensures forall part :: part in PrintPorts(numbers) ==> ',' !in part
  {
    if numbers != [] {
      var init, last := numbers[..|numbers| - 1], numbers[|numbers| - 1];
      PrintedPartsRead(init);
      PrintedPartReads(last);
      OneMorePart(PrintPorts(init), PrintInt(last));
    }
  }

  lemma OneMorePart(parts: seq<string>, part: string)
    ensures var last := AgentPart(Strip(part));
            && PortsIn(parts + [part]) == PortsIn(parts) + (if last.Ports? then last.ports else [])
            && Spoiled(parts + [part]) == (Spoiled(parts) || last.TooWide?)
  {
    assert (parts + [part])[..|parts|] == parts;
  }

  /** Print and read back: whatever the numbers, the agent reads those that are ports, in
      their order; the 256-port cap never triggers on a printed list. */
  lemma PortTextReads(numbers: seq<int>)
    ensures ServicePorts(Some(PortText(numbers))) == PortsAmong(numbers)
  {
    if numbers == [] {
      assert Split("", ',') == [""];
      AgentStep([""], 0);
      assert [""][..0] == [] && [""][..1] == [""] && Strip("") == "";
    } else {
      PrintedPartsRead(numbers);
      SplitJoin(PrintPorts(numbers), ',');
    }
  }

  /** So a list of ports reads back as itself. */
  lemma PortTextReadsBack(ports: seq<int>)
    requires AllPorts(ports)
    ensures ServicePorts(Some(PortText(ports))) == ports
  {
    PortTextReads(ports);
    AllAmong(ports);
  }

  /** A single printed number, port or not. */
  lemma SinglePortReads(p: int)
    ensures ServicePorts(Some(PrintInt(p))) == if IsPort(p) then [p] else []
  {
    PrintedPartReads(p);
    SplitFirst(PrintInt(p), "", ',');
    var parts := [PrintInt(p)];
    assert Split(PrintInt(p), ',') == parts;
    AgentStep(parts, 0);
    assert parts[..0] == [] && parts[..1] == parts;
  }

  // ---- Lists with ranges -------------------------------------------------------

  /** A number or a range, as a list is written by hand. */
  datatype Item = One(port: nat) | Span(low: nat, high: nat)

  function ItemText(item: Item): string {
    match item
    case One(port) => Decimal(port)
    case Span(low, high) => Decimal(low) + ['-'] + Decimal(high)
  }

  function ItemTexts(items: seq<Item>): (texts: seq<string>)
    ensures |texts| == |items|
  {
    if items == [] then [] else ItemTexts(items[..|items| - 1]) + [ItemText(items[|items| - 1])]
  }

  function ListText(items: seq<Item>): string {
    Join(ItemTexts(items), ",")
  }

  /** A range of ports, and one of more than 256 of them. */
  predicate Valid(item: Item) {
    match item
    case One(port) => 1 <= port <= 65535
    case Span(low, high) => 1 <= low <= high <= 65535
  }

  predicate Wide(item: Item) {
    item.Span? && Valid(item) && item.high - item.low >= 256
  }

  function Numbers(item: Item): seq<int> {
    match item
    case One(port) => [port]
    case Span(low, high) => Range(low, high + 1)
  }

  /** The numbers of the valid items, in order. */
  function ValidNumbers(items: seq<Item>): seq<int> {
    if items == [] then []
    else
      var last := items[|items| - 1];
      ValidNumbers(items[..|items| - 1]) + if Valid(last) then Numbers(last) else []
  }

  function AllNumbers(items: seq<Item>): seq<int> {
    if items == [] then [] else AllNumbers(items[..|items| - 1]) + Numbers(items[|items| - 1])
  }

  lemma ItemIsPart(item: Item)
    ensures Strip(ItemText(item)) == ItemText(item) != "" && ',' !in ItemText(item) && ':' !in ItemText(item)
  {
    match item
    case One(port) =>
      DigitsOnly(port, ',');
      DigitsOnly(port, ':');
      ParsePrintedInt(port);
    case Span(low, high) =>
      RangeIsOnePart(low, high);
      DigitsOnly(low, ',');
      DigitsOnly(high, ',');
      DigitsOnly(low, ':');
      DigitsOnly(high, ':');
  }

  lemma ItemReads(item: Item)
    ensures PartPorts(ItemText(item)) == Some(Numbers(item))
    ensures AgentPart(ItemText(item))
            == if !Valid(item) then Skipped else if Wide(item) then TooWide else Ports(Numbers(item))
  {
    match item
    case One(port) =>
      DigitsOnly(port, '-');
      ParsePrintedInt(port);
    case Span(low, high) =>
      RangePart(low, high);
      RangeCut(low, high);
      ParsePrintedInt(low);
      ParsePrintedInt(high);
  }

  predicate SomeWide(items: seq<Item>) {
    exists i :: 0 <= i < |items| && Wide(items[i])
  }

  /** The list is read as this says, item by item. */
  predicate ReadsAs(items: seq<Item>, texts: seq<string>) {
    && (Spoiled(texts) <==> SomeWide(items))
    && (!SomeWide(items) ==> PortsIn(texts) == ValidNumbers(items))
    && TupleOfParts(texts) == Some(AllNumbers(items))
    && forall part :: part in texts ==> ',' !in part && ':' !in part
  }

  lemma SomeWideMore(init: seq<Item>, last: Item)
    ensures SomeWide(init + [last]) <==> SomeWide(init) || Wide(last)
  {
    var all := init + [last];
    assert all[|init|] == last;
    if SomeWide(init) {
      var i :| 0 <= i < |init| && Wide(init[i]);
      assert Wide(all[i]);
    }
    if SomeWide(all) {
      var i :| 0 <= i < |all| && Wide(all[i]);
      if i < |init| { assert Wide(init[i]); }
    }
  }

  lemma NumbersMore(init: seq<Item>, last: Item)
    ensures ValidNumbers(init + [last]) == ValidNumbers(init) + if Valid(last) then Numbers(last) else []
    ensures AllNumbers(init + [last]) == AllNumbers(init) + Numbers(last)
  {
    assert (init + [last])[..|init|] == init;
  }

  lemma TupleMore(texts: seq<string>, text: string)
    ensures TupleOfParts(texts + [text])
            == var init, last := TupleOfParts(texts), PartPorts(Strip(text));
               if init.Some? && last.Some? then Some(init.value + last.value) else None
  {
    assert (texts + [text])[..|texts|] == texts;
  }

  lemma ItemMore(init: seq<Item>, last: Item, texts: seq<string>)
    requires ReadsAs(init, texts)
    ensures ReadsAs(init + [last], texts + [ItemText(last)])
  {
    ItemIsPart(last);
    ItemReads(last);
    OneMorePart(texts, ItemText(last));
    TupleMore(texts, ItemText(last));
    SomeWideMore(init, last);
    NumbersMore(init, last);
  }

  lemma NothingRead()
    ensures ReadsAs([], [])
  {
  }

  lemma TextsMore(init: seq<Item>, last: Item)
    ensures ItemTexts(init + [last]) == ItemTexts(init) + [ItemText(last)]
  {
    assert (init + [last])[..|init|] == init;
  }

  lemma {:induction false} ItemsRead(items: seq<Item>)
    ensures ReadsAs(items, ItemTexts(items))
  {
    if items == [] {
      NothingRead();
    } else {
      var init, last := items[..|items| - 1], items[|items| - 1];
      ItemsRead(init);
      ItemMore(init, last, ItemTexts(init));
      TextsMore(init, last);
      assert items == init + [last];
    }
  }

  /** Every list of numbers and ranges, in any order: the agent reads the valid ones, in order,
      unless one range holds more than 256 ports, which empties the whole list; the importer
      and the gate read them all, one as a list and the other as a set. */
  lemma ListReads(items: seq<Item>)
    requires items != []
    ensures ServicePorts(Some(ListText(items))) == if SomeWide(items) then [] else ValidNumbers(items)
    ensures ImportedPorts(ListText(items)) == Some(AllNumbers(items))
    ensures ExpandedPorts(ListText(items)) == Some(set p | p in AllNumbers(items))
  {
    var texts := ItemTexts(items);
    ItemsRead(items);
    SplitJoin(texts, ',');
    NoColon(texts);
    StrictReadersAgree(ListText(items));
    ReplaceCharIdle(ListText(items), ':', '-');
  }

  lemma {:induction false} NoColon(texts: seq<string>)
    requires forall part :: part in texts ==> ':' !in part
    ensures ':' !in Join(texts, ",")
  {
    if |texts| > 1 { NoColon(texts[1..]); }
  }

  /** A range of 256 ports is read whole, and one of 257 empties the list. */
  lemma CapExample()
    ensures ServicePorts(Some(ListText([Span(8000, 8255)]))) == Range(8000, 8256)
    ensures ServicePorts(Some(ListText([One(22), Span(8000, 8256)]))) == []
  {
    ListReads([Span(8000, 8255)]);
    ListReads([One(22), Span(8000, 8256)]);
    assert Wide([One(22), Span(8000, 8256)][1]);
    assert [Span(8000, 8255)][..0] == [];
    assert ValidNumbers([Span(8000, 8255)]) == [] + Range(8000, 8256);
  }
}
