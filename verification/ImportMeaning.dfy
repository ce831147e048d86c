/** What the import preserves: nothing is dropped silently, and the rules the agent
    builds from the plan accept and drop what the captured lines did. */
module ImportMeaning {
  import opened Wrappers
  import opened Sequences
  import opened Text
  import opened PortLists
  import opened LegacyImport
  import Agent = AgentRules

  // ---- Accounting -----------------------------------------------------------

  /** The sizes of a map's values, added up. */
  ghost function Sum<K(!new), V(!new)>(size: V -> nat, m: map<K, V>): nat
    decreases |m.Keys|
  {
    if |m.Keys| == 0 then 0 else size(m[Pick(m.Keys)]) + Sum(size, m - {Pick(m.Keys)})
  }

  lemma {:induction false} SumWithout<K(!new), V(!new)>(size: V -> nat, m: map<K, V>, k: K)
    requires k in m
    ensures Sum(size, m) == size(m[k]) + Sum(size, m - {k})
    decreases |m.Keys|
  {
    var c := Pick(m.Keys);
    if c != k {
      SumWithout(size, m - {c}, k);
      SumWithout(size, m - {k}, c);
      assert (m - {c}) - {k} == (m - {k}) - {c};
    }
  }

  lemma UpdatedWithout<K, V>(m: map<K, V>, k: K, v: V)
    ensures m[k := v] - {k} == m - {k}
    ensures k !in m ==> m - {k} == m
  {
  }

  lemma SumUpdate<K(!new), V(!new)>(size: V -> nat, m: map<K, V>, k: K, v: V)
    ensures Sum(size, m[k := v]) + (if k in m then size(m[k]) else 0) == Sum(size, m) + size(v)
  {
    SumWithout(size, m[k := v], k);
    UpdatedWithout(m, k, v);
    if k in m { SumWithout(size, m, k); }
  }

  function Itself(n: nat): nat { n }

  function Length(notes: seq<SkipNote>): nat { |notes| }

  ghost function SkipTotal(skips: map<Category, seq<SkipNote>>): nat {
    Sum(Length, skips)
  }

  ghost function KindTotal(rowKinds: map<(Origin, RowKind), nat>): nat {
    Sum(Itself, rowKinds)
  }

  /** Where lines went: skipped, aggregated, unmapped, and rows produced. */
  datatype Tally = Tally(skipped: nat, aggregated: nat, unmapped: nat, rows: nat)

  ghost function TallyOf(st: PlanState): Tally {
    Tally(SkipTotal(st.skips), st.internalLines, |st.unmapped|, |st.rowMeta|)
  }

  function Plus(a: Tally, b: Tally): Tally {
    Tally(a.skipped + b.skipped, a.aggregated + b.aggregated, a.unmapped + b.unmapped, a.rows + b.rows)
  }

  /** Accept and drop lines give a row per port, the other row lines one row. */
  function RowsFor(rule: Rule, kind: RowKind): nat {
    if kind.Accept? || kind.Drop? then |rule.dports| else 1
  }

  function VerdictTally(rule: Rule, verdict: Verdict): Tally {
    match verdict
    case Skip(_) => Tally(1, 0, 0, 0)
    case Aggregate(_) => Tally(0, 1, 0, 0)
    case Unmapped => Tally(0, 0, 1, 0)
    case Row(kind) => Tally(0, 0, 0, RowsFor(rule, kind))
  }

  function LineTally(rule: Rule): Tally {
    var verdict := Classify(rule);
    if verdict.Err? then Tally(0, 0, 0, 0) else VerdictTally(rule, verdict.value)
  }

  /** A line adds to exactly one of the four, and a row line does add a row. */
  lemma OneBucketPerLine(rule: Rule)
    requires Classify(rule).Ok?
    ensures var t := LineTally(rule);
            (if t.skipped > 0 then 1 else 0) + (if t.aggregated > 0 then 1 else 0)
            + (if t.unmapped > 0 then 1 else 0) + (if t.rows > 0 then 1 else 0) == 1
  {
    ClassifiedKinds(rule);
  }

  function LinesTally(rules: seq<Rule>): Tally {
    if rules == [] then Tally(0, 0, 0, 0)
    else Plus(LinesTally(rules[..|rules| - 1]), LineTally(rules[|rules| - 1]))
  }

  function RowLines(rules: seq<Rule>): nat {
    if rules == [] then 0
    else RowLines(rules[..|rules| - 1])
         + if Classify(rules[|rules| - 1]).Ok? && Classify(rules[|rules| - 1]).value.Row? then 1 else 0
  }

  lemma AddSkipCounts(st: PlanState, rule: Rule, family: Family, cat: Category)
    ensures GrewBy(st, AddSkip(st, rule, family, cat), Tally(1, 0, 0, 0))
  {
    var notes := if cat in st.skips then st.skips[cat] else [];
    SumUpdate(Length, st.skips, cat, notes + [SkipNote(family, rule.line, rule.text)]);
  }

  lemma {:induction false} BumpKindsCounts(counts: map<(Origin, RowKind), nat>, rows: seq<PlannedRow>, origin: Origin)
    ensures KindTotal(BumpKinds(counts, rows, origin)) == KindTotal(counts) + |rows|
  {
    if rows != [] {
      var init, last := rows[..|rows| - 1], rows[|rows| - 1];
      BumpKindsCounts(counts, init, origin);
      KindBump(BumpKinds(counts, init, origin), (origin, last.kind));
    }
  }

  lemma {:induction false} PortRowsKind(kind: RowKind, rule: Rule, ports: seq<int>, family: Family)
    requires kind.Accept? || kind.Drop?
    ensures |PortRows(kind, rule, ports, family)| == |ports| && AllOfKind(PortRows(kind, rule, ports, family), kind)
  {
    if ports != [] { PortRowsKind(kind, rule, ports[..|ports| - 1], family); }
  }

  predicate AllOfKind(rows: seq<PlannedRow>, kind: RowKind) {
    forall i :: 0 <= i < |rows| ==> rows[i].kind == kind
  }

  lemma BuildRowsCounts(rule: Rule, kind: RowKind, family: Family)
    requires LineVerdict(rule, Row(kind)) && BuildRows(rule, kind, family).Ok?
    ensures var rows := BuildRows(rule, kind, family).value;
            |rows| == RowsFor(rule, kind) && AllOfKind(rows, kind)
  {
    if kind.Accept? || kind.Drop? { PortRowsKind(kind, rule, rule.dports, family); }
  }

  /** The plan grew by `t`. */
  ghost predicate GrewBy(st: PlanState, st': PlanState, t: Tally) {
    && TallyOf(st') == Plus(TallyOf(st), t)
    && KindTotal(st'.rowKinds) + |st.rowMeta| == KindTotal(st.rowKinds) + |st'.rowMeta|
    && st.internalPorts <= st'.internalPorts
    && (if t.aggregated == 0 then st'.internalPorts == st.internalPorts else |st'.internalPorts| > 0)
  }

  lemma ExtendRowsCounts(st: PlanState, rows: seq<PlannedRow>, origin: Origin)
    ensures GrewBy(st, AddRows(st, rows, origin), Tally(0, 0, 0, |rows|))
  {
    BumpKindsCounts(st.rowKinds, rows, origin);
  }

  lemma ExtendByCounts(st: PlanState, rule: Rule, family: Family, verdict: Verdict)
    requires LineVerdict(rule, verdict) && ExtendBy(st, rule, family, verdict).Ok?
    ensures GrewBy(st, ExtendBy(st, rule, family, verdict).value, VerdictTally(rule, verdict))
  {
    match verdict
    case Unmapped =>
    case Skip(cat) => AddSkipCounts(st, rule, family, cat);
    case Aggregate(port) => assert |{port}| <= |st.internalPorts + {port}|;
    case Row(kind) =>
      BuildRowsCounts(rule, kind, family);
      ExtendRowsCounts(st, BuildRows(rule, kind, family).value, FromFamily(family));
  }

  lemma ExtendCounts(st: PlanState, rule: Rule, family: Family)
    requires Extend(st, rule, family).Ok?
    ensures GrewBy(st, Extend(st, rule, family).value, LineTally(rule))
  {
    ClassifiedKinds(rule);
    ExtendByCounts(st, rule, family, Classify(rule).value);
  }

  lemma {:induction false} ExtendAllCounts(st: PlanState, rules: seq<Rule>, family: Family)
    requires ExtendAll(st, rules, family).Ok?
    ensures GrewBy(st, ExtendAll(st, rules, family).value, LinesTally(rules))
    ensures var t := LinesTally(rules); |rules| == t.skipped + t.aggregated + t.unmapped + RowLines(rules)
  {
    if rules != [] {
      var init, last := rules[..|rules| - 1], rules[|rules| - 1];
      var before := ExtendAll(st, init, family).value;
      ExtendAllCounts(st, init, family);
      ExtendCounts(before, last, family);
    }
  }

  lemma FinishCounts(st: PlanState)
    ensures var st' := Finish(st);
            && st' == st.(rowMeta := st'.rowMeta, rowKinds := st'.rowKinds)
            && |st'.rowMeta| == |st.rowMeta| + (if st.internalPorts != {} then 1 else 0)
            && KindTotal(st'.rowKinds) + |st.rowMeta| == KindTotal(st.rowKinds) + |st'.rowMeta|
  {
    if st.internalPorts != {} { AddRowCounts(st, InternalRow(st.internalPorts), FromAggregate); }
  }

  lemma KindBump(counts: map<(Origin, RowKind), nat>, key: (Origin, RowKind))
    ensures KindTotal(Bump(counts, key)) == KindTotal(counts) + 1
  {
    SumUpdate(Itself, counts, key, (if key in counts then counts[key] else 0) + 1);
  }

  lemma AddRowCounts(st: PlanState, row: PlannedRow, origin: Origin)
    ensures var st' := AddRow(st, row, origin);
            && st' == st.(rowMeta := st'.rowMeta, rowKinds := st'.rowKinds)
            && |st'.rowMeta| == |st.rowMeta| + 1 && KindTotal(st'.rowKinds) == KindTotal(st.rowKinds) + 1
  {
    KindBump(st.rowKinds, (origin, row.kind));
  }

  /** No silent drops: every parsed line is a skip, an aggregated port, an unmapped note
      or a row line; the plan's rows are the row lines' rows and, exactly when some
      DOCKER-USER port was seen, the aggregate row; and the kind counters add up. */
  lemma NoSilentDrops(v4: seq<Line>, v6: seq<Line>)
    requires PlanOf(v4, v6).Ok?
    ensures ParseDump(v4).Ok? && ParseDump(v6).Ok?
    ensures var st, r4, r6 := PlanOf(v4, v6).value, ParseDump(v4).value, ParseDump(v6).value;
            var t := Plus(LinesTally(r4), LinesTally(r6));
            && |r4| + |r6| == SkipTotal(st.skips) + st.internalLines + |st.unmapped| + RowLines(r4) + RowLines(r6)
            && SkipTotal(st.skips) == t.skipped && st.internalLines == t.aggregated && |st.unmapped| == t.unmapped
            && |st.rowMeta| == t.rows + (if t.aggregated > 0 then 1 else 0)
            && (t.aggregated > 0 <==> st.internalPorts != {})
            && KindTotal(st.rowKinds) == |st.rowMeta|
  {
    var r4, r6 := ParseDump(v4).value, ParseDump(v6).value;
    var st4 := ExtendAll(EMPTY_PLAN, r4, V4).value;
    ExtendAllCounts(EMPTY_PLAN, r4, V4);
    ExtendAllCounts(st4, r6, V6);
    var st6 := ExtendAll(st4, r6, V6).value;
    FinishCounts(st6);
  }

  // ---- The counters, kind by kind -------------------------------------------

  function CountAt(counts: map<(Origin, RowKind), nat>, key: (Origin, RowKind)): nat {
    if key in counts then counts[key] else 0
  }

  /** Rows of one kind that a family's lines give. */
  function KindRows(rules: seq<Rule>, kind: RowKind): nat {
    if rules == [] then 0
    else
      var last := rules[|rules| - 1];
      KindRows(rules[..|rules| - 1], kind) + if Classify(last) == Ok(Row(kind)) then RowsFor(last, kind) else 0
  }

  lemma {:induction false} BumpKindsAt(counts: map<(Origin, RowKind), nat>, rows: seq<PlannedRow>, origin: Origin,
                                       kind: RowKind, key: (Origin, RowKind))
    requires AllOfKind(rows, kind)
    ensures CountAt(BumpKinds(counts, rows, origin), key)
            == CountAt(counts, key) + if key == (origin, kind) then |rows| else 0
  {
    if rows != [] { BumpKindsAt(counts, rows[..|rows| - 1], origin, kind, key); }
  }

  lemma ExtendAt(st: PlanState, rule: Rule, family: Family, verdict: Verdict, key: (Origin, RowKind))
    requires LineVerdict(rule, verdict) && ExtendBy(st, rule, family, verdict).Ok?
    ensures CountAt(ExtendBy(st, rule, family, verdict).value.rowKinds, key)
            == CountAt(st.rowKinds, key)
               + if verdict.Row? && key == (FromFamily(family), verdict.kind) then RowsFor(rule, verdict.kind) else 0
  {
    if verdict.Row? {
      var kind := verdict.kind;
      BuildRowsCounts(rule, kind, family);
      BumpKindsAt(st.rowKinds, BuildRows(rule, kind, family).value, FromFamily(family), kind, key);
    }
  }

  /** Each counter is the number of rows of its kind that its family's lines gave. */
  lemma {:induction false} CountersByKind(st: PlanState, rules: seq<Rule>, family: Family, key: (Origin, RowKind))
    requires ExtendAll(st, rules, family).Ok?
    ensures CountAt(ExtendAll(st, rules, family).value.rowKinds, key)
            == CountAt(st.rowKinds, key) + if key.0 == FromFamily(family) then KindRows(rules, key.1) else 0
  {
    if rules != [] {
      var init, last := rules[..|rules| - 1], rules[|rules| - 1];
      CountersByKind(st, init, family, key);
      ClassifiedKinds(last);
      ExtendAt(ExtendAll(st, init, family).value, last, family, Classify(last).value, key);
    }
  }

  // ---- Meaning --------------------------------------------------------------

  type Pair = (string, Option<int>)

  /** The (protocol, port) pairs a line names when its verdict is `kind`. */
  function LinePairs(kind: RowKind): Rule -> seq<(string, int)> {
    rule => if Classify(rule) == Ok(Row(kind)) then PairsOf(rule, rule.dports) else []
  }

  function WithProtocol(rule: Rule): int -> seq<(string, int)> {
    port => [(ProtocolOf(rule), port)]
  }

  function PairsOf(rule: Rule, ports: seq<int>): seq<(string, int)> {
    Flat(WithProtocol(rule), ports)
  }

  /** What the agent makes of such a pair: a tagged protocol leaves the input chain, and a
      number that is no port loses its port. */
  function Carry(pair: (string, int)): seq<Pair> {
    if Agent.Tagged(pair.0) then [] else [(pair.0, if IsPort(pair.1) then Some(pair.1) else None)]
  }

  function Keep(pair: (string, int)): seq<Pair> {
    [(pair.0, Some(pair.1))]
  }

  predicate Carriable(pair: (string, int)) {
    !Agent.Tagged(pair.0) && IsPort(pair.1)
  }

  function PairOf(r: Agent.AgentRule): Pair {
    (if r.protocol.Some? then r.protocol.value else "any", r.port)
  }

  /** A plain accept of the input chain, or an explicit drop of it: one neither rate
      limited nor tied to a destination. */
  predicate Selected(r: Agent.AgentRule, kind: RowKind) {
    r.chain.InputChain?
    && (kind.Accept? ==> r.action.Accept?)
    && (kind.Drop? ==> r.action.Drop? && r.limit.None? && r.destination.None?)
  }

  function Select(kind: RowKind): Agent.AgentRule -> seq<Pair> {
    r => if Selected(r, kind) then [PairOf(r)] else []
  }

  /** The agent's rules for one planned row. */
  function RowRules(row: PlannedRow): seq<Agent.AgentRule> {
    var rules := Agent.RulesFromPayload(Agent.PayloadOf(row.row));
    if rules.Ok? then rules.value else []
  }

  /** The agent's rules for the plan, as its deploy loop collects them. */
  function PlanRules(rows: seq<PlannedRow>): seq<Agent.AgentRule> {
    Flat(RowRules, rows)
  }

  /** The pairs the agent's input chain accepts (or drops), in rule order. */
  function InputPairs(rows: seq<PlannedRow>, kind: RowKind): seq<Pair> {
    Flat(Select(kind), PlanRules(rows))
  }

  // Names and tags.

  /** A tag has no blank and no slash, starts with a letter and is ten characters or more. */
  predicate TagLike(tag: string) {
    ' ' !in tag && '/' !in tag && |tag| >= 10 && tag[0] in "ai"
  }

  lemma NameTag(verb: string, protocol: string, tail: string, tag: string)
    requires TagLike(tag) && |verb| < 10 && !Contains(tail, tag)
    ensures Contains(verb + " " + protocol + "/" + tail, tag) <==> Contains(protocol, tag)
  {
    var name, rest := verb + " " + protocol + "/" + tail, protocol + ['/'] + tail;
    assert name == (verb + " ") + protocol + ("/" + tail);
    assert name == verb + [' '] + rest;
    if Contains(protocol, tag) { ContainsInLarger(verb + " ", protocol, "/" + tail, tag); }
    if Contains(name, tag) {
      ContainsAcross(verb, ' ', rest, tag);
      ContainsAcross(protocol, '/', tail, tag);
    }
  }

  lemma LowerName(verb: string, protocol: string, tail: string)
    requires Lower(verb) == verb && Lower(tail) == tail
    ensures Lower(verb + " " + protocol + "/" + tail) == verb + " " + Lower(protocol) + "/" + tail
  {
    var name := verb + " " + protocol + "/" + tail;
    var lowered := verb + " " + Lower(protocol) + "/" + tail;
    var a, b := |verb| + 1, |verb| + 1 + |protocol|;
    forall i | 0 <= i < |name| ensures LowerChar(name[i]) == lowered[i] {
      if i < |verb| {
        assert LowerChar(verb[i]) == verb[i];
      } else if a <= i < b {
        assert name[i] == protocol[i - a] && lowered[i] == Lower(protocol)[i - a];
      } else if i > b {
        assert name[i] == tail[i - b - 1] && LowerChar(tail[i - b - 1]) == tail[i - b - 1];
      }
    }
  }

  lemma TagsAreTags()
    ensures TagLike(Agent.ANTI_SPOOF) && TagLike(Agent.INTERNAL_PORT)
  {
  }

  lemma NumberChars(port: int, i: nat)
    requires i < |PrintInt(port)|
    ensures IsDigit(PrintInt(port)[i]) || PrintInt(port)[i] == '-'
  {
  }

  /** What stands behind the protocol is in lower case and holds no tag. */
  lemma PlainTail(port: int, family: Family, tag: string)
    requires TagLike(tag)
    ensures var tail := PrintInt(port) + Suffix(family); Lower(tail) == tail && !Contains(tail, tag)
  {
    var number, tail := PrintInt(port), PrintInt(port) + Suffix(family);
    forall i | 0 <= i < |number| ensures IsDigit(number[i]) || number[i] == '-' { NumberChars(port, i); }
    forall i | 0 <= i < |tail| ensures LowerChar(tail[i]) == tail[i] {
      if i >= |number| { assert tail[i] == Suffix(family)[i - |number|]; }
    }
    assert |Suffix(family)| < 10;
    forall i: nat ensures !OccursAt(tail, tag, i) {
      if i + |tag| <= |tail| { assert tail[i..i + |tag|][0] == tail[i] == number[i]; }
    }
  }

  /** The row's name is tagged exactly when the line's protocol text is. */
  lemma PortNameTagged(kind: RowKind, rule: Rule, port: int, family: Family)
    requires kind.Accept? || kind.Drop?
    ensures Agent.Tagged(PortName(VerbFor(kind), rule, port, family)) <==> Agent.Tagged(ProtocolOf(rule))
  {
    TagsAreTags();
    VerbIsPlain(kind);
    OneTag(VerbFor(kind), rule, port, family, Agent.ANTI_SPOOF);
    OneTag(VerbFor(kind), rule, port, family, Agent.INTERNAL_PORT);
  }

  lemma VerbIsPlain(kind: RowKind)
    ensures Lower(VerbFor(kind)) == VerbFor(kind) && |VerbFor(kind)| < 10
  {
  }

  lemma OneTag(verb: string, rule: Rule, port: int, family: Family, tag: string)
    requires TagLike(tag) && Lower(verb) == verb && |verb| < 10
    ensures Contains(Lower(PortName(verb, rule, port, family)), tag) <==> Contains(Lower(ProtocolOf(rule)), tag)
  {
    var tail := PrintInt(port) + Suffix(family);
    PlainTail(port, family, tag);
    LowerName(verb, ProtocolOf(rule), tail);
    NameTag(verb, Lower(ProtocolOf(rule)), tail, tag);
  }

  lemma LowerKeepsTag(before: string, tag: string, after: string)
    requires Lower(tag) == tag
    ensures Contains(Lower(before + tag + after), tag)
  {
    LowerAppend(before + tag, after);
    LowerAppend(before, tag);
    assert tag[0..|tag|] == tag;
    assert OccursAt(tag, tag, 0);
    ContainsInLarger(Lower(before), tag, Lower(after), tag);
  }

  // Rows of each kind.

  lemma {:induction false} PerPortUnselected(base: Agent.AgentRule, ports: seq<int>, kind: RowKind)
    requires !Selected(base, kind)
    ensures Flat(Select(kind), Flat(Agent.OnPort(base), ports)) == []
  {
    if ports != [] {
      PerPortUnselected(base, ports[..|ports| - 1], kind);
      var last := base.(port := Some(ports[|ports| - 1]));
      FlatAppend(Select(kind), Flat(Agent.OnPort(base), ports[..|ports| - 1]), [last]);
      FlatOne(Select(kind), last);
    }
  }

  lemma UnselectedRow(row: PlannedRow, kind: RowKind)
    requires row.row.action.AcceptWord? || row.row.action.DropWord?
    requires !Selected(Agent.BaseRule(Agent.PayloadOf(row.row)), kind)
    ensures InputPairs([row], kind) == []
  {
    var base := Agent.BaseRule(Agent.PayloadOf(row.row));
    FlatOne(RowRules, row);
    FlatOne(Select(kind), base);
    PerPortUnselected(base, ServicePorts(row.row.ports), kind);
  }

  lemma InputPairsAppend(a: seq<PlannedRow>, b: seq<PlannedRow>, kind: RowKind)
    ensures InputPairs(a + b, kind) == InputPairs(a, kind) + InputPairs(b, kind)
  {
    FlatAppend(RowRules, a, b);
    FlatAppend(Select(kind), PlanRules(a), PlanRules(b));
  }

  lemma PortRowRules(rowKind: RowKind, rule: Rule, port: int, family: Family)
    requires rowKind.Accept? || rowKind.Drop?
    ensures var row := PortRow(rowKind, rule, port, family);
            var base := Agent.BaseRule(Agent.PayloadOf(row.row));
            RowRules(row) == [if IsPort(port) then base.(port := Some(port)) else base]
  {
    SinglePortReads(port);
    FlatOne(Agent.OnPort(Agent.BaseRule(Agent.PayloadOf(PortRow(rowKind, rule, port, family).row))), port);
  }

  /** A port row becomes one rule: the pair itself when the port is one, and a rule for the
      whole protocol when it is not. */
  lemma PortRowMeaning(rowKind: RowKind, rule: Rule, port: int, family: Family, kind: RowKind)
    requires kind.Accept? || kind.Drop?
    requires rowKind.Accept? || rowKind.Drop?
    ensures InputPairs([PortRow(rowKind, rule, port, family)], kind)
            == if rowKind == kind then Carry((ProtocolOf(rule), port)) else []
  {
    var row := PortRow(rowKind, rule, port, family);
    PortNameTagged(rowKind, rule, port, family);
    PortRowRules(rowKind, rule, port, family);
    FlatOne(RowRules, row);
    FlatOne(Select(kind), RowRules(row)[0]);
  }

  lemma {:induction false} PortRowsMeaning(rowKind: RowKind, rule: Rule, ports: seq<int>, family: Family, kind: RowKind)
    requires kind.Accept? || kind.Drop?
    requires rowKind.Accept? || rowKind.Drop?
    ensures InputPairs(PortRows(rowKind, rule, ports, family), kind)
            == if rowKind == kind then Flat(Carry, PairsOf(rule, ports)) else []
  {
    if ports != [] {
      var init, last := ports[..|ports| - 1], ports[|ports| - 1];
      PortRowsMeaning(rowKind, rule, init, family, kind);
      PortRowMeaning(rowKind, rule, last, family, kind);
      InputPairsAppend(PortRows(rowKind, rule, init, family), [PortRow(rowKind, rule, last, family)], kind);
      FlatAppend(Carry, PairsOf(rule, init), [(ProtocolOf(rule), last)]);
      FlatOne(Carry, (ProtocolOf(rule), last));
    }
  }

  lemma OtherRowMeaning(rule: Rule, rowKind: RowKind, family: Family, kind: RowKind)
    requires kind.Accept? || kind.Drop?
    requires rowKind.Meter? || rowKind.LoopbackGuard? || rowKind.AntiSpoof?
    requires LineVerdict(rule, Row(rowKind)) && BuildRows(rule, rowKind, family).Ok?
    ensures InputPairs(BuildRows(rule, rowKind, family).value, kind) == []
  {
    var row := BuildRows(rule, rowKind, family).value[0];
    if rowKind.AntiSpoof? { AntiSpoofNameTagged(rule); }
    UnselectedRow(row, kind);
  }

  lemma AntiSpoofNameTagged(rule: Rule)
    ensures Agent.Tagged(AntiSpoofName(rule))
  {
    PrefixTagged(" " + Partition(rule.dest, '/').0 + " via " + rule.inIface);
  }

  lemma PrefixTagged(rest: string)
    requires Lower(Agent.ANTI_SPOOF) == Agent.ANTI_SPOOF
    ensures Agent.Tagged(Agent.ANTI_SPOOF + rest)
  {
    LowerKeepsTag([], Agent.ANTI_SPOOF, rest);
    assert [] + Agent.ANTI_SPOOF == Agent.ANTI_SPOOF;
  }

  lemma InternalNameTagged()
    ensures Agent.Tagged(INTERNAL_NAME)
  {
    LowerKeepsTag("docker-", Agent.INTERNAL_PORT, "-protection");
  }

  /** Anti-spoof and DOCKER-USER rows put their rules in the forward chain only. */
  lemma ForwardRows(row: PlannedRow, rule: Rule, ports: set<int>, r: Agent.AgentRule)
    requires row.row.name == AntiSpoofName(rule) || row == InternalRow(ports)
    requires r in RowRules(row)
    ensures r.chain.ForwardChain?
  {
    AntiSpoofNameTagged(rule);
    InternalNameTagged();
    var base := Agent.BaseRule(Agent.PayloadOf(row.row));
    FlatMembers(Agent.OnPort(base), ServicePorts(row.row.ports), r);
  }

  /** A dropping row's rule before ports. */
  function DropBase(row: PlannedRow): Agent.AgentRule
    requires row.row.action.DropWord?
  {
    Agent.BaseRule(Agent.PayloadOf(row.row))
  }

  /** The aggregate row protects exactly the collected numbers that are ports, in order; when
      none is, it becomes one rule for the whole protocol. */
  lemma InternalRowPorts(ports: set<int>)
    ensures ServicePorts(InternalRow(ports).row.ports) == PortsAmong(SortedPorts(ports))
    ensures (forall p :: p in ports ==> IsPort(p)) ==> ServicePorts(InternalRow(ports).row.ports) == SortedPorts(ports)
    ensures (forall p :: p in ports ==> !IsPort(p)) <==>
            RowRules(InternalRow(ports)) == [DropBase(InternalRow(ports))]
  {
    PortTextReads(SortedPorts(ports));
    if forall p :: p in ports ==> IsPort(p) { AllAmong(SortedPorts(ports)); }
    NoneAmong(SortedPorts(ports));
    WholeProtocolIff(InternalRow(ports));
  }

  lemma {:induction false} NoneAmong(numbers: seq<int>)
    ensures PortsAmong(numbers) == [] <==> forall p :: p in numbers ==> !IsPort(p)
  {
    if numbers != [] {
      NoneAmong(numbers[..|numbers| - 1]);
      assert numbers == numbers[..|numbers| - 1] + [numbers[|numbers| - 1]];
    }
  }

  /** A row has a rule without a port exactly when its list gives no port. */
  lemma WholeProtocolIff(row: PlannedRow)
    requires row.row.action.DropWord?
    ensures RowRules(row) == [DropBase(row)] <==> ServicePorts(row.row.ports) == []
  {
    var base, ports := DropBase(row), ServicePorts(row.row.ports);
    if ports != [] {
      FlatMembers(Agent.OnPort(base), ports, base);
      assert base.port == None;
      assert base !in Flat(Agent.OnPort(base), ports);
    }
  }

  // From rows to plans.

  lemma LineMeaning(st: PlanState, rule: Rule, family: Family, verdict: Verdict, kind: RowKind)
    requires kind.Accept? || kind.Drop?
    requires LineVerdict(rule, verdict) && ExtendBy(st, rule, family, verdict).Ok?
    ensures InputPairs(ExtendBy(st, rule, family, verdict).value.rowMeta, kind)
            == InputPairs(st.rowMeta, kind)
               + if verdict == Row(kind) then Flat(Carry, PairsOf(rule, rule.dports)) else []
  {
    if verdict.Row? {
      var rows := BuildRows(rule, verdict.kind, family).value;
      InputPairsAppend(st.rowMeta, rows, kind);
      if verdict.kind.Accept? || verdict.kind.Drop? {
        PortRowsMeaning(verdict.kind, rule, rule.dports, family, kind);
      } else {
        OtherRowMeaning(rule, verdict.kind, family, kind);
      }
    }
  }

  lemma {:induction false} LinesMeaning(st: PlanState, rules: seq<Rule>, family: Family, kind: RowKind)
    requires kind.Accept? || kind.Drop?
    requires ExtendAll(st, rules, family).Ok?
    ensures InputPairs(ExtendAll(st, rules, family).value.rowMeta, kind)
            == InputPairs(st.rowMeta, kind) + Flat(Carry, Flat(LinePairs(kind), rules))
  {
    if rules != [] {
      var init, last := rules[..|rules| - 1], rules[|rules| - 1];
      LinesMeaning(st, init, family, kind);
      ClassifiedKinds(last);
      var before := ExtendAll(st, init, family).value;
      LineMeaning(before, last, family, Classify(last).value, kind);
      LastLinePairs(rules, kind);
      Associates(InputPairs(st.rowMeta, kind), Flat(Carry, Flat(LinePairs(kind), init)),
                 Flat(Carry, LinePairs(kind)(last)));
    }
  }

  lemma LastLinePairs(rules: seq<Rule>, kind: RowKind)
    requires rules != []
    ensures var init, last := rules[..|rules| - 1], rules[|rules| - 1];
            Flat(Carry, Flat(LinePairs(kind), rules))
            == Flat(Carry, Flat(LinePairs(kind), init)) + Flat(Carry, LinePairs(kind)(last))
  {
    var init, last := rules[..|rules| - 1], rules[|rules| - 1];
    FlatAppend(Carry, Flat(LinePairs(kind), init), LinePairs(kind)(last));
  }

  lemma FinishMeaning(st: PlanState, kind: RowKind)
    requires kind.Accept? || kind.Drop?
    ensures InputPairs(Finish(st).rowMeta, kind) == InputPairs(st.rowMeta, kind)
  {
    if st.internalPorts != {} {
      InternalNameTagged();
      UnselectedRow(InternalRow(st.internalPorts), kind);
      InputPairsAppend(st.rowMeta, [InternalRow(st.internalPorts)], kind);
    }
  }

  /** The (protocol, port) pairs named by the lines of one verdict in both captures. */
  function Named(r4: seq<Rule>, r6: seq<Rule>, kind: RowKind): seq<(string, int)> {
    Flat(LinePairs(kind), r4) + Flat(LinePairs(kind), r6)
  }

  lemma FirstFamilyMeaning(start: PlanState, r4: seq<Rule>, kind: RowKind)
    requires kind.Accept? || kind.Drop?
    requires start.rowMeta == [] && ExtendAll(start, r4, V4).Ok?
    ensures InputPairs(ExtendAll(start, r4, V4).value.rowMeta, kind) == Flat(Carry, Flat(LinePairs(kind), r4))
  {
    LinesMeaning(start, r4, V4, kind);
  }

  lemma BothFamiliesMeaning(r4: seq<Rule>, r6: seq<Rule>, st4: PlanState, st6: PlanState, kind: RowKind)
    requires kind.Accept? || kind.Drop?
    requires ExtendAll(EMPTY_PLAN, r4, V4) == Ok(st4) && ExtendAll(st4, r6, V6) == Ok(st6)
    ensures InputPairs(st6.rowMeta, kind) == Flat(Carry, Named(r4, r6, kind))
  {
    FirstFamilyMeaning(EMPTY_PLAN, r4, kind);
    LinesMeaning(st4, r6, V6, kind);
    FlatAppend(Carry, Flat(LinePairs(kind), r4), Flat(LinePairs(kind), r6));
  }

  /** Import preserves meaning.  The input chain the agent builds from a plan accepts (or
      explicitly drops) what the accepting (or dropping) lines name, in order, with the two
      exceptions spelled out by `Carry`. */
  lemma ImportMeaningCarried(v4: seq<Line>, v6: seq<Line>, kind: RowKind)
    requires kind.Accept? || kind.Drop?
    requires PlanOf(v4, v6).Ok?
    ensures ParseDump(v4).Ok? && ParseDump(v6).Ok?
    ensures InputPairs(PlanOf(v4, v6).value.rowMeta, kind)
            == Flat(Carry, Named(ParseDump(v4).value, ParseDump(v6).value, kind))
  {
    var r4, r6 := ParseDump(v4).value, ParseDump(v6).value;
    var st4 := ExtendAll(EMPTY_PLAN, r4, V4).value;
    var st6 := ExtendAll(st4, r6, V6).value;
    BothFamiliesMeaning(r4, r6, st4, st6, kind);
    FinishMeaning(st6, kind);
  }

  lemma {:induction false} CarriedShort(pairs: seq<(string, int)>)
    ensures |Flat(Carry, pairs)| <= |pairs| == |Flat(Keep, pairs)|
    ensures Flat(Carry, pairs) == Flat(Keep, pairs) <==> forall i :: 0 <= i < |pairs| ==> Carriable(pairs[i])
  {
    if pairs != [] {
      var init, last := pairs[..|pairs| - 1], pairs[|pairs| - 1];
      CarriedShort(init);
      var c, e := Flat(Carry, init), Flat(Keep, init);
      if |Carry(last)| == 1 && c + Carry(last) == e + Keep(last) {
        assert |c| == |e|;
        assert c == (c + Carry(last))[..|c|] && e == (e + Keep(last))[..|e|];
        assert Carry(last)[0] == (c + Carry(last))[|c|] && Keep(last)[0] == (e + Keep(last))[|e|];
      }
      assert forall i :: 0 <= i < |init| ==> init[i] == pairs[i];
    }
  }

  /** So it carries exactly those pairs if and only if every named port is a port and no
      named protocol text holds a chain tag. */
  lemma ImportIsExactIff(v4: seq<Line>, v6: seq<Line>, kind: RowKind)
    requires kind.Accept? || kind.Drop?
    requires PlanOf(v4, v6).Ok?
    ensures ParseDump(v4).Ok? && ParseDump(v6).Ok?
    ensures var named := Named(ParseDump(v4).value, ParseDump(v6).value, kind);
            InputPairs(PlanOf(v4, v6).value.rowMeta, kind) == Flat(Keep, named)
            <==> forall i :: 0 <= i < |named| ==> Carriable(named[i])
  {
    ImportMeaningCarried(v4, v6, kind);
    CarriedShort(Named(ParseDump(v4).value, ParseDump(v6).value, kind));
  }

  // A line it does not carry.

  lemma ReadPair(rule: Rule, tokens: seq<Token>, i: nat, word: Word, value: string, next: Rule)
    requires i + 1 < |tokens| && tokens[i] == Opt(word) && tokens[i + 1] == Token(value)
    requires !word.Bang? && !word.Module? && SetOption(rule, word, false, value) == Ok(next)
    ensures ParseOptions(rule, tokens, i, false) == ParseOptions(next, tokens, i + 2, false)
  {
    WordOfIff(tokens[i], word);
    WordOfIff(tokens[i], Bang);
    WordOfIff(tokens[i], Module);
  }

  lemma ZeroParses()
    ensures ParseInt("0") == Some(0)
  {
    ParsePrintedInt(0);
    assert PrintInt(0) == "0";
  }

  /** `-A INPUT -p tcp --dport 0 -j ACCEPT` */
  function ZeroTokens(): seq<Token> {
    [Token("-A"), Token("INPUT"), Opt(Proto), Token("tcp"), Opt(DPort), Token("0"), Opt(Jump), Token("ACCEPT")]
  }

  function ZeroRule(text: string): Rule {
    NewRule(Filter, Input, 2, text).(protocol := "tcp", dports := [0], target := ToAccept)
  }

  lemma ZeroLineParses(text: string)
    ensures ParseAppend(Filter, ZeroTokens(), 2, text) == Ok(ZeroRule(text))
  {
    InputIsInput();
    ZeroTokensRead(ZeroTokens(), text);
  }

  lemma ZeroTokensRead(tokens: seq<Token>, text: string)
    requires |tokens| == 8 && ChainOf(tokens[1].text) == Input && tokens[2] == Opt(Proto) && tokens[3] == Token("tcp")
    requires tokens[4] == Opt(DPort) && tokens[5] == Token("0") && tokens[6] == Opt(Jump) && tokens[7] == Token("ACCEPT")
    ensures ParseAppend(Filter, tokens, 2, text) == Ok(ZeroRule(text))
  {
    var start := NewRule(Filter, Input, 2, text);
    TcpSets(start);
    ReadPair(start, tokens, 2, Proto, "tcp", start.(protocol := "tcp"));
    ZeroAndAccept(start.(protocol := "tcp"), tokens);
  }

  lemma TcpSets(rule: Rule)
    ensures SetOption(rule, Proto, false, "tcp") == Ok(rule.(protocol := "tcp"))
  {
  }

  lemma InputIsInput()
    ensures ChainOf("INPUT") == Input
  {
  }

  lemma ZeroAndAccept(rule: Rule, tokens: seq<Token>)
    requires |tokens| == 8 && tokens[4] == Opt(DPort) && tokens[5] == Token("0")
    requires tokens[6] == Opt(Jump) && tokens[7] == Token("ACCEPT") && rule.dports == []
    ensures ParseOptions(rule, tokens, 4, false) == Ok(rule.(dports := [0], target := ToAccept))
  {
    var next := rule.(dports := [0]);
    PortZeroSets(rule);
    AcceptSets(next);
    ReadPair(rule, tokens, 4, DPort, "0", next);
    ReadPair(next, tokens, 6, Jump, "ACCEPT", next.(target := ToAccept));
  }

  lemma PortZeroSets(rule: Rule)
    requires rule.dports == []
    ensures SetOption(rule, DPort, false, "0") == Ok(rule.(dports := [0]))
  {
    ZeroParses();
    assert rule.dports + [0] == [0];
  }

  lemma AcceptSets(rule: Rule)
    ensures SetOption(rule, Jump, false, "ACCEPT") == Ok(rule.(target := ToAccept))
  {
  }

  lemma OneLineDump(tokens: seq<Token>, text: string, rule: Rule)
    requires ParseAppend(Filter, tokens, 2, text) == Ok(rule)
    ensures ParseDump([TableStart(Filter), Append(tokens, text, true)]) == Ok([rule])
  {
    var lines := [TableStart(Filter), Append(tokens, text, true)];
    var none: seq<Rule> := [];
    assert lines[0] == TableStart(Filter) && lines[1] == Append(tokens, text, true);
    assert ParseUpTo(lines, 0) == Ok(Parsed(none, NoTable));
    assert ParseUpTo(lines, 1) == Ok(Parsed(none, Filter));
    assert none + [rule] == [rule];
    assert ParseUpTo(lines, 2) == Ok(Parsed(none + [rule], Filter));
  }

  lemma AcceptExtends(rule: Rule)
    requires Classify(rule) == Ok(Row(Accept))
    ensures ExtendAll(EMPTY_PLAN, [rule], V4).Ok?
  {
    assert [rule][..0] == [];
    assert ExtendAll(EMPTY_PLAN, [], V4) == Ok(EMPTY_PLAN);
  }

  lemma ZeroIsAccepted(text: string)
    ensures Classify(ZeroRule(text)) == Ok(Row(Accept))
  {
    assert !Contains("", "RELATED") && !Contains("", "ESTABLISHED");
  }

  lemma OneLinePairs(rule: Rule, kind: RowKind)
    requires Classify(rule) == Ok(Row(kind)) && rule.dports == [0] && rule.protocol == "tcp"
    ensures Named([rule], [], kind) == [("tcp", 0)]
  {
    FlatOne(LinePairs(kind), rule);
    FlatOne(WithProtocol(rule), 0);
  }

  /** An accept of tcp port 0 becomes an accept of the whole protocol. */
  lemma PortZeroExample(text: string) returns (v4: seq<Line>)
    ensures v4 == [TableStart(Filter), Append(ZeroTokens(), text, true)]
    ensures PlanOf(v4, []).Ok? && ParseDump(v4) == Ok([ZeroRule(text)])
    ensures Named([ZeroRule(text)], [], Accept) == [("tcp", 0)]
    ensures InputPairs(PlanOf(v4, []).value.rowMeta, Accept) == [("tcp", None)]
  {
    v4 := [TableStart(Filter), Append(ZeroTokens(), text, true)];
    ZeroLineParses(text);
    OneLineDump(ZeroTokens(), text, ZeroRule(text));
    ZeroIsAccepted(text);
    AcceptExtends(ZeroRule(text));
    OneLinePairs(ZeroRule(text), Accept);
    PlanOfOne(v4, ZeroRule(text));
    ImportMeaningCarried(v4, [], Accept);
    NoTagInTcp();
    FlatOne(Carry, ("tcp", 0));
  }

  lemma PlanOfOne(v4: seq<Line>, rule: Rule)
    requires ParseDump(v4) == Ok([rule]) && ExtendAll(EMPTY_PLAN, [rule], V4).Ok?
    ensures PlanOf(v4, []).Ok? && ParseDump([]) == Ok([])
  {
    assert ParseUpTo([], 0) == Ok(Parsed([], NoTable));
  }

  lemma NoTagInTcp()
    ensures !Agent.Tagged("tcp")
  {
    assert |Lower("tcp")| == 3 && |Agent.ANTI_SPOOF| == 10 && |Agent.INTERNAL_PORT| == 13;
  }
}
