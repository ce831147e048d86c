/** The import followed to its end: every rule the agent builds for a whole plan, told line
    by line in the line's own terms. */
module ImportedRules {
  import opened Wrappers
  import opened Sequences
  import opened Text
  import opened PortLists
  import opened LegacyImport
  import opened ImportMeaning
  import Agent = AgentRules

  type AgentRule = Agent.AgentRule

  // ---- Which line is what -----------------------------------------------------

  predicate StateHolds(rule: Rule, word: string) {
    CtState in rule.opts && Contains(rule.opts[CtState], word)
  }

  /** An option with a text of its own. */
  predicate Gives(rule: Rule, field: Field) {
    field in rule.opts && rule.opts[field] != ""
  }

  predicate Bridge(iface: string) {
    iface == "docker0" || "br-" <= iface
  }

  /** INPUT lines the renderer writes of its own accord. */
  predicate Rendered(rule: Rule) {
    || StateHolds(rule, "RELATED") || StateHolds(rule, "ESTABLISHED")
    || (!rule.inNeg && (rule.inIface == "lo" || Bridge(rule.inIface)))
    || Gives(rule, LogPrefix)
  }

  /** The chains docker owns. */
  predicate DockerName(name: string) {
    || name == "DOCKER" || name == "DOCKER-USER" || name == "DOCKER-BRIDGE" || name == "DOCKER-CT"
    || name == "DOCKER-FORWARD" || name == "DOCKER-INTERNAL" || name == "DOCKER-ISOLATION"
  }

  /** What a chain's name and a target's name are taken for. */
  lemma NamesAre(name: string)
    ensures ChainOf(name) == Input <==> name == "INPUT"
    ensures ChainOf(name) == Forward <==> name == "FORWARD"
    ensures ChainOf(name) == Prerouting <==> name == "PREROUTING"
    ensures ChainOf(name) == DockerUser <==> name == "DOCKER-USER"
    ensures ChainOf(name) == DockerOwned(name) <==> DockerName(name) && name != "DOCKER-USER"
    ensures TargetOf(name) == NoTarget <==> name == ""
    ensures TargetOf(name) == ToAccept <==> name == "ACCEPT"
    ensures TargetOf(name) == ToDrop <==> name == "DROP"
    ensures TargetOf(name) == ToDocker(name) <==> DockerName(name)
  {
    assert name in DOCKER_CHAINS <==> DockerName(name);
  }

  predicate OnInput(rule: Rule) {
    rule.table == Filter && rule.chain == Input
  }

  predicate OnPrerouting(rule: Rule) {
    rule.table == Raw && rule.chain == Prerouting
  }

  /** The lines that are skipped, and as what. */
  predicate SkippedAs(rule: Rule, cat: Category) {
    var state := StateHolds(rule, "RELATED") || StateHolds(rule, "ESTABLISHED");
    var local := !rule.inNeg && rule.inIface == "lo";
    var bridge := !rule.inNeg && Bridge(rule.inIface);
    match cat
    case DockerNat => rule.table == NatTable
    case Conntrack => OnInput(rule) && state
    case LoopbackAccept => OnInput(rule) && !state && local
    case DockerBridge => OnInput(rule) && !state && bridge
    case DropLog => OnInput(rule) && !state && !local && !bridge && Gives(rule, LogPrefix)
    case DockerChain => rule.table == Filter && rule.chain.DockerOwned?
    case ForwardPlumbing =>
      && rule.table == Filter && rule.chain == Forward
      && (rule.target.ToDocker? || Bridge(rule.inIface) || Bridge(rule.outIface) || StateHolds(rule, "RELATED"))
  }

  /** The line kinds, each by its own condition. */
  predicate IsA(rule: Rule, kind: RowKind) {
    match kind
    case Meter => OnInput(rule) && !Rendered(rule) && Gives(rule, HlName)
    case Accept =>
      OnInput(rule) && !Rendered(rule) && !Gives(rule, HlName) && rule.dports != [] && rule.target == ToAccept
    case Drop => OnInput(rule) && !Rendered(rule) && !Gives(rule, HlName) && rule.dports != [] && rule.target == ToDrop
    case LoopbackGuard =>
      && OnPrerouting(rule) && rule.target == ToDrop && rule.dest == "127.0.0.1/32"
      && rule.inNeg && rule.inIface == "lo" && rule.protocol == "tcp" && rule.dports != []
    case AntiSpoof =>
      && OnPrerouting(rule) && rule.target == ToDrop && rule.dest != ""
      && rule.inNeg && rule.inIface != "" && rule.protocol == "" && rule.dports == []
    case InternalProtection => false
  }

  /** What a line is, exactly. */
  lemma ClassifiedAs(rule: Rule, kind: RowKind, cat: Category, port: int)
    ensures Classify(rule) == Ok(Row(kind)) <==> IsA(rule, kind)
    ensures Classify(rule) == Ok(Skip(cat)) <==> SkippedAs(rule, cat)
    ensures Classify(rule) == Ok(Aggregate(port))
            <==> rule.table == Filter && rule.chain == DockerUser && Gives(rule, CtOrig)
                 && ParseInt(rule.opts[CtOrig]) == Some(port)
    ensures Classify(rule).Err?
            <==> rule.table == Filter && rule.chain == DockerUser && Gives(rule, CtOrig)
                 && ParseInt(rule.opts[CtOrig]).None?
  {
    StateHoldsIff(rule, "RELATED");
    StateHoldsIff(rule, "ESTABLISHED");
    if OnInput(rule) { InputIs(rule, kind, cat); }
  }

  lemma StateHoldsIff(rule: Rule, word: string)
    requires word != ""
    ensures StateHolds(rule, word) <==> Contains(Get(rule, CtState), word)
  {
    assert !Contains("", word);
  }

  lemma InputIs(rule: Rule, kind: RowKind, cat: Category)
    requires OnInput(rule)
    ensures HardcodedInput(rule) == Some(cat) <==> SkippedAs(rule, cat)
    ensures HardcodedInput(rule).Some? <==> Rendered(rule)
    ensures Classify(rule) == Ok(Row(kind)) <==> IsA(rule, kind)
  {
    StateHoldsIff(rule, "RELATED");
    StateHoldsIff(rule, "ESTABLISHED");
  }

  // ---- What a line becomes ------------------------------------------------------

  /** A text moves its rules to the forward chain when it holds one of the two tags. */
  predicate Forwards(text: string) {
    Contains(Lower(text), "anti-spoof") || Contains(Lower(text), "internal-port")
  }

  function ChainBy(text: string): Agent.AgentChain {
    if Forwards(text) then Agent.ForwardChain else Agent.InputChain
  }

  function ProtocolText(rule: Rule): string {
    if rule.protocol == "" then "any" else rule.protocol
  }

  function PortOrNone(port: int): Option<int> {
    if 1 <= port <= 65535 then Some(port) else None
  }

  /** The rule for one port of an accepting or dropping line. */
  function RuleForPort(verb: string, action: Agent.AgentAction, rule: Rule, port: int, family: Family): AgentRule {
    var protocol := ProtocolText(rule);
    Agent.AgentRule(
      Some(verb + " " + protocol + "/" + (PrintInt(port) + if family.V6? then " (ipv6)" else "")),
      ChainBy(protocol), None, None, Some(protocol), action, None, 0, Contains(Lower(protocol), "anti-spoof"),
      PortOrNone(port))
  }

  function RulesForPorts(verb: string, action: Agent.AgentAction, rule: Rule, ports: seq<int>, family: Family)
    : seq<AgentRule>
  {
    if ports == [] then []
    else RulesForPorts(verb, action, rule, ports[..|ports| - 1], family)
         + [RuleForPort(verb, action, rule, ports[|ports| - 1], family)]
  }

  /** A rule for each number of the list that is a port; if none is, one for the protocol. */
  function ForEach(base: AgentRule, ports: seq<int>): seq<AgentRule> {
    if ports == [] then [] else ForEach(base, ports[..|ports| - 1]) + [base.(port := Some(ports[|ports| - 1]))]
  }

  function OverPorts(base: AgentRule, numbers: seq<int>): seq<AgentRule> {
    var ports := PortsAmong(numbers);
    if ports == [] then [base] else ForEach(base, ports)
  }

  /** The meter's rate and burst as the renderer wants them. */
  function LimitText(rule: Rule): string
    requires HlRate in rule.opts
  {
    var burst := if HlBurst in rule.opts then rule.opts[HlBurst] else "5";
    ReplaceAll(rule.opts[HlRate], "/min", "/minute") + " burst " + burst + " packets"
  }

  /** What the agent is to make of a line of this kind. */
  function KindRules(rule: Rule, kind: RowKind, family: Family): seq<AgentRule>
    requires IsA(rule, kind)
  {
    match kind
    case Accept => RulesForPorts("allow", Agent.Accept, rule, rule.dports, family)
    case Drop => RulesForPorts("drop", Agent.Drop, rule, rule.dports, family)
    case AntiSpoof =>
      [Agent.AgentRule(Some("anti-spoof" + (" " + Partition(rule.dest, '/').0 + " via " + rule.inIface)),
                       Agent.ForwardChain, None, Some(rule.dest), Some("any"), Agent.Drop, None, 0, true, None)]
    case LoopbackGuard =>
      var port := rule.dports[0];
      [Agent.AgentRule(Some("loopback-guard tcp/" + PrintInt(port)), Agent.InputChain, None, Some("127.0.0.1"),
                       Some("tcp"), Agent.Drop, None, 0, false, PortOrNone(port))]
    case Meter =>
      if HlRate !in rule.opts then []
      else
        var name := rule.opts[HlName];
        OverPorts(Agent.AgentRule(Some(name), ChainBy(name), None, None, Some(ProtocolText(rule)), Agent.Drop,
                                  Some(LimitText(rule)), 0, Contains(Lower(name), "anti-spoof"), None),
                  rule.dports)
  }

  // ---- Rows and rules -------------------------------------------------------------

  /** A row's rules, when its action is one of the importer's two words. */
  lemma RowRulesAre(row: PlannedRow, action: Agent.AgentAction, base: AgentRule)
    requires row.row.action == (if action == Agent.Accept then AcceptWord else DropWord)
    requires action == Agent.Accept || action == Agent.Drop
    requires row.row.protocol != "" && row.row.sourceType == AnyAddress
    requires base == Agent.AgentRule(
                       Some(row.row.name), ChainBy(row.row.name), None,
                       if row.row.destType.AnyAddress? then None else row.row.destValue,
                       Some(row.row.protocol), action, row.row.limit, 0, Contains(Lower(row.row.name), "anti-spoof"), None)
    requires !row.row.destType.OtherAddress?
    ensures RowRules(row)
            == var ports := ServicePorts(row.row.ports); if ports == [] then [base] else ForEach(base, ports)
  {
    assert Agent.BaseRule(Agent.PayloadOf(row.row)) == base;
    ForEachIsFlat(base, ServicePorts(row.row.ports));
  }

  lemma {:induction false} ForEachIsFlat(base: AgentRule, ports: seq<int>)
    ensures ForEach(base, ports) == Flat(Agent.OnPort(base), ports)
  {
    if ports != [] { ForEachIsFlat(base, ports[..|ports| - 1]); }
  }

  lemma OneRow(row: PlannedRow)
    ensures PlanRules([row]) == RowRules(row)
  {
    FlatOne(RowRules, row);
  }

  lemma OnePortEach(base: AgentRule, port: int)
    requires base.port == None
    ensures (var ports := ServicePorts(Some(PrintInt(port))); if ports == [] then [base] else ForEach(base, ports))
            == [base.(port := PortOrNone(port))]
  {
    SinglePortReads(port);
    assert [port][..0] == [];
    assert ForEach(base, [port]) == ForEach(base, []) + [base.(port := Some(port))];
  }

  /** An anti-spoof line becomes one drop of all that is forwarded to its destination. */
  lemma AntiSpoofRules(rule: Rule, family: Family)
    requires IsA(rule, RowKind.AntiSpoof)
    ensures BuildRows(rule, RowKind.AntiSpoof, family).Ok?
    ensures PlanRules(BuildRows(rule, RowKind.AntiSpoof, family).value) == KindRules(rule, RowKind.AntiSpoof, family)
  {
    var row := BuildRows(rule, RowKind.AntiSpoof, family).value[0];
    AntiSpoofNameTagged(rule);
    AntiSpoofHolds(rule);
    OneRow(row);
    RowRulesAre(row, Agent.Drop, KindRules(rule, RowKind.AntiSpoof, family)[0]);
  }

  lemma AntiSpoofHolds(rule: Rule)
    ensures Contains(Lower(AntiSpoofName(rule)), "anti-spoof")
  {
    var rest := " " + Partition(rule.dest, '/').0 + " via " + rule.inIface;
    LowerKeepsTag([], "anti-spoof", rest);
    assert [] + "anti-spoof" + rest == "anti-spoof" + rest;
  }

  // The guard's name holds neither tag.

  lemma GuardHead(tag: string)
    requires tag == "anti-spoof" || tag == "internal-port"
    ensures !Contains("loopback-guard tcp", tag)
  {
    var head := "loopback-guard tcp";
    assert tag[0] == 'a' || tag[0] == 'i';
    assert tag[1] == 'n';
    forall k | 0 <= k < |head| - 1 ensures !(head[k] == tag[0] && head[k + 1] == tag[1]) {}
    NoPairNoWord(head, tag);
  }

  lemma GuardUntagged(port: int, tag: string)
    requires tag == "anti-spoof" || tag == "internal-port"
    ensures !Contains(Lower("loopback-guard tcp/" + PrintInt(port)), tag)
  {
    var head, tail := "loopback-guard tcp", PrintInt(port);
    assert PrintInt(port) + Suffix(V4) == tail;
    PlainTail(port, V4, tag);
    GuardHead(tag);
    LowerAppend("loopback-guard tcp/", tail);
    assert Lower("loopback-guard tcp/") == head + ['/'];
    if Contains(head + ['/'] + tail, tag) { ContainsAcross(head, '/', tail, tag); }
  }

  /** A loopback guard becomes one drop of its port towards 127.0.0.1. */
  lemma GuardRules(rule: Rule, family: Family)
    requires IsA(rule, RowKind.LoopbackGuard)
    ensures BuildRows(rule, RowKind.LoopbackGuard, family).Ok?
    ensures PlanRules(BuildRows(rule, RowKind.LoopbackGuard, family).value)
            == KindRules(rule, RowKind.LoopbackGuard, family)
  {
    var row, port := BuildRows(rule, RowKind.LoopbackGuard, family).value[0], rule.dports[0];
    var base := KindRules(rule, RowKind.LoopbackGuard, family)[0].(port := None);
    GuardUntagged(port, "anti-spoof");
    GuardUntagged(port, "internal-port");
    OneRow(row);
    RowRulesAre(row, Agent.Drop, base);
    OnePortEach(base, port);
  }

  /** A meter becomes a limited drop for each of its ports, under its own name. */
  lemma MeterRules(rule: Rule, family: Family)
    requires IsA(rule, RowKind.Meter)
    ensures BuildRows(rule, RowKind.Meter, family).Ok? <==> HlRate in rule.opts
    ensures HlRate in rule.opts ==>
              PlanRules(BuildRows(rule, RowKind.Meter, family).value) == KindRules(rule, RowKind.Meter, family)
  {
    if HlRate in rule.opts {
      var row, name := BuildRows(rule, RowKind.Meter, family).value[0], rule.opts[HlName];
      var base := Agent.AgentRule(Some(name), ChainBy(name), None, None, Some(ProtocolText(rule)), Agent.Drop,
                                  Some(LimitText(rule)), 0, Contains(Lower(name), "anti-spoof"), None);
      OneRow(row);
      RowRulesAre(row, Agent.Drop, base);
      PortTextReads(rule.dports);
    }
  }

  /** A rate per minute is written out, once. */
  lemma LimitPerMinute(rule: Rule, amount: string, rest: string)
    requires HlRate in rule.opts && rule.opts[HlRate] == amount + ("/min" + rest) && '/' !in amount && '/' !in rest
    ensures LimitText(rule)
            == amount + ("/minute" + rest) + " burst "
               + (if HlBurst in rule.opts then rule.opts[HlBurst] else "5") + " packets"
  {
    ReplacePast(amount, "/min" + rest);
    ReplaceIdle(rest);
    assert ("/min" + rest)[..4] == "/min" && ("/min" + rest)[4..] == rest;
  }

  lemma {:induction false} ReplacePast(a: string, b: string)
    requires '/' !in a
    ensures ReplaceAll(a + b, "/min", "/minute") == a + ReplaceAll(b, "/min", "/minute")
  {
    if a == "" {
      assert a + b == b;
    } else {
      var s := a + b;
      ReplacePast(a[1..], b);
      assert s[1..] == a[1..] + b;
      assert |s| >= 4 ==> s[..4][0] == a[0] != "/min"[0];
      if |s| < 4 { ReplaceShort(b); }
    }
  }

  lemma ReplaceShort(s: string)
    requires |s| < 4
    ensures ReplaceAll(s, "/min", "/minute") == s
  {
  }

  lemma ReplaceIdle(s: string)
    requires '/' !in s
    ensures ReplaceAll(s, "/min", "/minute") == s
  {
    ReplacePast(s, "");
    assert s + "" == s;
  }

  /** A rate that is written out already is spoiled: 10/minute becomes 10/minuteute. */
  lemma WrittenOutIsSpoiled(rule: Rule, amount: string)
    requires HlRate in rule.opts && rule.opts[HlRate] == amount + "/minute" && '/' !in amount
    ensures LimitText(rule)
            == amount + "/minuteute" + " burst " + (if HlBurst in rule.opts then rule.opts[HlBurst] else "5") + " packets"
  {
    assert "/min" + "ute" == "/minute" && "/minute" + "ute" == "/minuteute";
    LimitPerMinute(rule, amount, "ute");
  }

  lemma PortNameTags(kind: RowKind, rule: Rule, port: int, family: Family)
    requires kind.Accept? || kind.Drop?
    ensures var name := PortName(VerbFor(kind), rule, port, family);
            && ChainBy(name) == ChainBy(ProtocolText(rule))
            && (Contains(Lower(name), "anti-spoof") <==> Contains(Lower(ProtocolText(rule)), "anti-spoof"))
  {
    TagsAreTags();
    VerbIsPlain(kind);
    OneTag(VerbFor(kind), rule, port, family, "anti-spoof");
    OneTag(VerbFor(kind), rule, port, family, "internal-port");
  }

  function VerbOf(kind: RowKind): string {
    if kind.Accept? then "allow" else "drop"
  }

  function ActionBy(kind: RowKind): Agent.AgentAction {
    if kind.Accept? then Agent.Accept else Agent.Drop
  }

  lemma PortRules(kind: RowKind, rule: Rule, port: int, family: Family)
    requires kind.Accept? || kind.Drop?
    ensures PlanRules([PortRow(kind, rule, port, family)])
            == [RuleForPort(VerbOf(kind), ActionBy(kind), rule, port, family)]
  {
    var row := PortRow(kind, rule, port, family);
    var base := RuleForPort(VerbOf(kind), ActionBy(kind), rule, port, family).(port := None);
    PortNameTags(kind, rule, port, family);
    OneRow(row);
    RowRulesAre(row, ActionBy(kind), base);
    OnePortEach(base, port);
  }

  /** An accepting or dropping line becomes one rule per port. */
  lemma {:induction false} PortsRules(kind: RowKind, rule: Rule, ports: seq<int>, family: Family)
    requires kind.Accept? || kind.Drop?
    ensures PlanRules(PortRows(kind, rule, ports, family))
            == RulesForPorts(VerbOf(kind), ActionBy(kind), rule, ports, family)
  {
    if ports != [] {
      var init, last := ports[..|ports| - 1], ports[|ports| - 1];
      PortsRules(kind, rule, init, family);
      PortRules(kind, rule, last, family);
      FlatAppend(RowRules, PortRows(kind, rule, init, family), [PortRow(kind, rule, last, family)]);
    }
  }

  // ---- Whole plans ------------------------------------------------------------------

  /** The agent's rules for one line; most lines have none. */
  function RulesOf(rule: Rule, family: Family): seq<AgentRule> {
    if IsA(rule, RowKind.Accept) then KindRules(rule, RowKind.Accept, family)
    else if IsA(rule, RowKind.Drop) then KindRules(rule, RowKind.Drop, family)
    else if IsA(rule, RowKind.Meter) then KindRules(rule, RowKind.Meter, family)
    else if IsA(rule, RowKind.AntiSpoof) then KindRules(rule, RowKind.AntiSpoof, family)
    else if IsA(rule, RowKind.LoopbackGuard) then KindRules(rule, RowKind.LoopbackGuard, family)
    else []
  }

  function LineRules(family: Family): Rule -> seq<AgentRule> {
    rule => RulesOf(rule, family)
  }

  /** The ports the DOCKER-USER lines protect. */
  function Protected(rules: seq<Rule>): set<int> {
    if rules == [] then {}
    else Protected(rules[..|rules| - 1]) + PortProtected(rules[|rules| - 1])
  }

  function PortProtected(rule: Rule): set<int> {
    if rule.table == Filter && rule.chain == DockerUser && Gives(rule, CtOrig) && ParseInt(rule.opts[CtOrig]).Some? then
      {ParseInt(rule.opts[CtOrig]).value}
    else {}
  }

  /** One forwarded drop per protected port, in increasing order. */
  function ProtectionRules(ports: set<int>): seq<AgentRule> {
    if ports == {} then []
    else OverPorts(Agent.AgentRule(Some("docker-internal-port-protection"), Agent.ForwardChain, None, None, Some("tcp"),
                                   Agent.Drop, None, 0, false, None),
                   SortedPorts(ports))
  }

  lemma RowBecomes(rule: Rule, kind: RowKind, family: Family)
    requires IsA(rule, kind) && LineVerdict(rule, Row(kind)) && BuildRows(rule, kind, family).Ok?
    ensures PlanRules(BuildRows(rule, kind, family).value) == RulesOf(rule, family)
  {
    match kind
    case Accept => PortsRules(RowKind.Accept, rule, rule.dports, family);
    case Drop => PortsRules(RowKind.Drop, rule, rule.dports, family);
    case Meter => MeterRules(rule, family);
    case AntiSpoof => AntiSpoofRules(rule, family);
    case LoopbackGuard => GuardRules(rule, family);
  }

  lemma LineBecomes(st: PlanState, rule: Rule, family: Family)
    requires Extend(st, rule, family).Ok?
    ensures var after := Extend(st, rule, family).value;
            && PlanRules(after.rowMeta) == PlanRules(st.rowMeta) + RulesOf(rule, family)
            && after.internalPorts == st.internalPorts + PortProtected(rule)
  {
    var verdict := Classify(rule).value;
    ClassifiedKinds(rule);
    match verdict
    case Row(kind) =>
      var rows := BuildRows(rule, kind, family).value;
      ClassifiedAs(rule, kind, DockerNat, 0);
      RowBecomes(rule, kind, family);
      FlatAppend(RowRules, st.rowMeta, rows);
    case Aggregate(port) =>
      ClassifiedAs(rule, Accept, DockerNat, port);
      NoRules(rule, family);
    case Skip(cat) =>
      ClassifiedAs(rule, Accept, cat, 0);
      NoRules(rule, family);
    case Unmapped =>
      ClassifiedAs(rule, Accept, DockerNat, 0);
      NoRules(rule, family);
      NoPort(rule);
  }

  lemma NoRules(rule: Rule, family: Family)
    requires Classify(rule).Ok? && !Classify(rule).value.Row?
    ensures RulesOf(rule, family) == []
  {
    forall kind: RowKind ensures !IsA(rule, kind) { ClassifiedAs(rule, kind, DockerNat, 0); }
  }

  lemma NoPort(rule: Rule)
    requires Classify(rule) == Ok(Unmapped)
    ensures PortProtected(rule) == {}
  {
    if PortProtected(rule) != {} { ClassifiedAs(rule, Accept, DockerNat, ParseInt(rule.opts[CtOrig]).value); }
  }

  lemma {:induction false} LinesBecome(st: PlanState, rules: seq<Rule>, family: Family)
    requires ExtendAll(st, rules, family).Ok?
    ensures var after := ExtendAll(st, rules, family).value;
            && PlanRules(after.rowMeta) == PlanRules(st.rowMeta) + Flat(LineRules(family), rules)
            && after.internalPorts == st.internalPorts + Protected(rules)
  {
    if rules != [] {
      var init, last := rules[..|rules| - 1], rules[|rules| - 1];
      LinesBecome(st, init, family);
      LineBecomes(ExtendAll(st, init, family).value, last, family);
      Associates(PlanRules(st.rowMeta), Flat(LineRules(family), init), RulesOf(last, family));
    }
  }

  lemma ProtectionName()
    ensures INTERNAL_NAME == "docker-internal-port-protection"
    ensures Forwards(INTERNAL_NAME) && !Contains(Lower(INTERNAL_NAME), "anti-spoof")
  {
    InternalNameTagged();
    ProtectionIsNoSpoof("docker-internal-port-protection");
  }

  lemma ProtectionIsNoSpoof(name: string)
    requires name == "docker-internal-port-protection"
    ensures !Contains(Lower(name), "anti-spoof")
  {
    assert Lower(name) == name;
    forall k | 0 <= k < |name| - 1 ensures !(name[k] == 'a' && name[k + 1] == 'n') {}
    NoPairNoWord(name, "anti-spoof");
  }

  lemma NoPairNoWord(s: string, word: string)
    requires |word| >= 2 && forall k :: 0 <= k < |s| - 1 ==> !(s[k] == word[0] && s[k + 1] == word[1])
    ensures !Contains(s, word)
  {
    forall i: nat | i + |word| <= |s| ensures !OccursAt(s, word, i) {
      assert s[i..i + |word|][0] == s[i] && s[i..i + |word|][1] == s[i + 1];
    }
  }

  lemma ProtectionBecomes(ports: set<int>)
    requires ports != {}
    ensures PlanRules([InternalRow(ports)]) == ProtectionRules(ports)
  {
    var row := InternalRow(ports);
    ProtectionName();
    OneRow(row);
    RowRulesAre(row, Agent.Drop,
                Agent.AgentRule(Some("docker-internal-port-protection"), Agent.ForwardChain, None, None, Some("tcp"),
                                Agent.Drop, None, 0, false, None));
    PortTextReads(SortedPorts(ports));
  }

  /** The agent's rules for a whole plan are those of the IPv4 lines, of the IPv6 lines, and
      one drop for each protected port, in this order and no others. */
  lemma PlanBecomes(v4: seq<Line>, v6: seq<Line>)
    requires PlanOf(v4, v6).Ok?
    ensures ParseDump(v4).Ok? && ParseDump(v6).Ok?
    ensures var r4, r6 := ParseDump(v4).value, ParseDump(v6).value;
            PlanRules(PlanOf(v4, v6).value.rowMeta)
            == Flat(LineRules(V4), r4) + Flat(LineRules(V6), r6) + ProtectionRules(Protected(r4) + Protected(r6))
  {
    var r4, r6 := ParseDump(v4).value, ParseDump(v6).value;
    var st4 := ExtendAll(EMPTY_PLAN, r4, V4).value;
    var st6 := ExtendAll(st4, r6, V6).value;
    StartBecomes(EMPTY_PLAN, r4);
    LinesBecome(st4, r6, V6);
    FinishBecomes(st6);
  }

  lemma StartBecomes(start: PlanState, rules: seq<Rule>)
    requires start.rowMeta == [] && start.internalPorts == {} && ExtendAll(start, rules, V4).Ok?
    ensures var after := ExtendAll(start, rules, V4).value;
            PlanRules(after.rowMeta) == Flat(LineRules(V4), rules) && after.internalPorts == Protected(rules)
  {
    LinesBecome(start, rules, V4);
  }

  lemma FinishBecomes(st: PlanState)
    ensures PlanRules(Finish(st).rowMeta) == PlanRules(st.rowMeta) + ProtectionRules(st.internalPorts)
  {
    if st.internalPorts == {} {
      assert PlanRules(st.rowMeta) + [] == PlanRules(st.rowMeta);
    } else {
      ProtectionBecomes(st.internalPorts);
      FlatAppend(RowRules, st.rowMeta, [InternalRow(st.internalPorts)]);
    }
  }

  // ---- What the plan notes ------------------------------------------------------------

  function NotesAt(skips: map<Category, seq<SkipNote>>, cat: Category): seq<SkipNote> {
    if cat in skips then skips[cat] else []
  }

  /** The line's family, number and text, if it is one of these. */
  function NoteIf(noted: bool, rule: Rule, family: Family): seq<SkipNote> {
    if noted then [SkipNote(family, rule.line, rule.text)] else []
  }

  /** A line no rule of the importer speaks of. */
  ghost predicate Unread(rule: Rule) {
    && (forall kind :: !IsA(rule, kind)) && (forall cat :: !SkippedAs(rule, cat))
    && !(rule.table == Filter && rule.chain == DockerUser && Gives(rule, CtOrig))
  }

  function SkipNotes(rules: seq<Rule>, family: Family, cat: Category): seq<SkipNote> {
    if rules == [] then []
    else
      var last := rules[|rules| - 1];
      SkipNotes(rules[..|rules| - 1], family, cat) + NoteIf(SkippedAs(last, cat), last, family)
  }

  ghost function UnreadNotes(rules: seq<Rule>, family: Family): seq<SkipNote> {
    if rules == [] then []
    else
      var last := rules[|rules| - 1];
      UnreadNotes(rules[..|rules| - 1], family) + NoteIf(Unread(last), last, family)
  }

  /** How many NAT lines masquerade with this text. */
  function Masquerades(rules: seq<Rule>, text: string): nat {
    if rules == [] then 0
    else
      var last := rules[|rules| - 1];
      Masquerades(rules[..|rules| - 1], text)
      + if last.table == NatTable && last.text == text && Contains(text, "MASQUERADE") then 1 else 0
  }

  function MasqueradesAt(counts: map<string, nat>, text: string): nat {
    if text in counts then counts[text] else 0
  }

  lemma UnmappedIsUnread(rule: Rule)
    requires Classify(rule).Ok?
    ensures Classify(rule) == Ok(Unmapped) <==> Unread(rule)
  {
    var port := if Classify(rule).value.Aggregate? then Classify(rule).value.port else 0;
    forall kind ensures Classify(rule) == Ok(Row(kind)) <==> IsA(rule, kind) { ClassifiedAs(rule, kind, DockerNat, port); }
    forall cat ensures Classify(rule) == Ok(Skip(cat)) <==> SkippedAs(rule, cat) {
      ClassifiedAs(rule, Accept, cat, port);
    }
    ClassifiedAs(rule, Accept, DockerNat, port);
    if rule.table == Filter && rule.chain == DockerUser && Gives(rule, CtOrig) {
      ClassifiedAs(rule, Accept, DockerNat, ParseInt(rule.opts[CtOrig]).value);
    }
  }

  /** What these lines add to the plan's notes under one category and for one text. */
  ghost predicate Noted(before: PlanState, after: PlanState, rules: seq<Rule>, family: Family, cat: Category,
                        text: string)
  {
    && NotesAt(after.skips, cat) == NotesAt(before.skips, cat) + SkipNotes(rules, family, cat)
    && after.unmapped == before.unmapped + UnreadNotes(rules, family)
    && after.natLines == before.natLines + NatLines(rules)
    && MasqueradesAt(after.masquerade, text) == MasqueradesAt(before.masquerade, text) + Masquerades(rules, text)
  }

  lemma OneNoted(rule: Rule, family: Family, cat: Category, text: string)
    ensures SkipNotes([rule], family, cat) == NoteIf(SkippedAs(rule, cat), rule, family)
    ensures UnreadNotes([rule], family) == NoteIf(Unread(rule), rule, family)
    ensures NatLines([rule]) == if rule.table == NatTable then 1 else 0
    ensures Masquerades([rule], text)
            == if rule.table == NatTable && rule.text == text && Contains(text, "MASQUERADE") then 1 else 0
  {
    assert [rule][..0] == [];
  }

  lemma LineNoted(st: PlanState, rule: Rule, family: Family, cat: Category, text: string)
    requires Extend(st, rule, family).Ok?
    ensures Noted(st, Extend(st, rule, family).value, [rule], family, cat, text)
  {
    ClassifiedKinds(rule);
    ClassifiedAs(rule, Accept, cat, 0);
    ClassifiedAs(rule, Accept, DockerNat, 0);
    UnmappedIsUnread(rule);
    OneNoted(rule, family, cat, text);
    VerdictNoted(st, rule, family, Classify(rule).value, cat, text);
  }

  lemma VerdictNoted(st: PlanState, rule: Rule, family: Family, verdict: Verdict, cat: Category, text: string)
    requires LineVerdict(rule, verdict) && ExtendBy(st, rule, family, verdict).Ok?
    ensures var after := ExtendBy(st, rule, family, verdict).value;
            && NotesAt(after.skips, cat) == NotesAt(st.skips, cat) + NoteIf(verdict == Skip(cat), rule, family)
            && after.unmapped == st.unmapped + NoteIf(verdict.Unmapped?, rule, family)
            && after.natLines == st.natLines + (if verdict == Skip(DockerNat) then 1 else 0)
            && MasqueradesAt(after.masquerade, text)
               == MasqueradesAt(st.masquerade, text)
                  + if verdict == Skip(DockerNat) && rule.text == text && Contains(text, "MASQUERADE") then 1 else 0
  {
    NothingMore(NotesAt(st.skips, cat));
    NothingMore(st.unmapped);
  }

  lemma NothingMore<T>(a: seq<T>)
    ensures a + [] == a
  {
  }

  lemma NotesMore(rules: seq<Rule>, rule: Rule, family: Family, cat: Category, text: string)
    ensures SkipNotes(rules + [rule], family, cat) == SkipNotes(rules, family, cat) + SkipNotes([rule], family, cat)
    ensures UnreadNotes(rules + [rule], family) == UnreadNotes(rules, family) + UnreadNotes([rule], family)
    ensures NatLines(rules + [rule]) == NatLines(rules) + NatLines([rule])
    ensures Masquerades(rules + [rule], text) == Masquerades(rules, text) + Masquerades([rule], text)
  {
    assert (rules + [rule])[..|rules|] == rules;
    OneNoted(rule, family, cat, text);
  }

  lemma NotedMore(st: PlanState, mid: PlanState, after: PlanState, rules: seq<Rule>, rule: Rule, family: Family,
                  cat: Category, text: string)
    requires Noted(st, mid, rules, family, cat, text) && Noted(mid, after, [rule], family, cat, text)
    ensures Noted(st, after, rules + [rule], family, cat, text)
  {
    NotesMore(rules, rule, family, cat, text);
    Associates(NotesAt(st.skips, cat), SkipNotes(rules, family, cat), SkipNotes([rule], family, cat));
    Associates(st.unmapped, UnreadNotes(rules, family), UnreadNotes([rule], family));
  }

  function NatLines(rules: seq<Rule>): nat {
    if rules == [] then 0
    else NatLines(rules[..|rules| - 1]) + if rules[|rules| - 1].table == NatTable then 1 else 0
  }

  lemma NothingNoted(st: PlanState, family: Family, cat: Category, text: string)
    ensures Noted(st, st, [], family, cat, text)
  {
  }

  lemma OneMoreNoted(st: PlanState, mid: PlanState, rules: seq<Rule>, rule: Rule, family: Family, cat: Category,
                     text: string)
    requires Noted(st, mid, rules, family, cat, text) && Extend(mid, rule, family).Ok?
    ensures Noted(st, Extend(mid, rule, family).value, rules + [rule], family, cat, text)
  {
    LineNoted(mid, rule, family, cat, text);
    NotedMore(st, mid, Extend(mid, rule, family).value, rules, rule, family, cat, text);
  }

  lemma ExtendLast(st: PlanState, rules: seq<Rule>, family: Family) returns (mid: PlanState)
    requires rules != [] && ExtendAll(st, rules, family).Ok?
    ensures var init, last := rules[..|rules| - 1], rules[|rules| - 1];
            && rules == init + [last] && ExtendAll(st, init, family) == Ok(mid)
            && ExtendAll(st, rules, family) == Extend(mid, last, family)
  {
    mid := ExtendAll(st, rules[..|rules| - 1], family).value;
  }

  lemma {:induction false} LinesNoted(st: PlanState, rules: seq<Rule>, family: Family, cat: Category, text: string)
    requires ExtendAll(st, rules, family).Ok?
    ensures Noted(st, ExtendAll(st, rules, family).value, rules, family, cat, text)
  {
    if rules == [] {
      NothingNoted(st, family, cat, text);
    } else {
      var mid := ExtendLast(st, rules, family);
      LinesNoted(st, rules[..|rules| - 1], family, cat, text);
      OneMoreNoted(st, mid, rules[..|rules| - 1], rules[|rules| - 1], family, cat, text);
    }
  }

  lemma BothNoted(start: PlanState, r4: seq<Rule>, r6: seq<Rule>, st4: PlanState, st6: PlanState, cat: Category,
                  text: string)
    requires start.skips == map[] && start.unmapped == [] && start.natLines == 0 && start.masquerade == map[]
    requires Noted(start, st4, r4, V4, cat, text) && Noted(st4, st6, r6, V6, cat, text)
    ensures NotesAt(st6.skips, cat) == SkipNotes(r4, V4, cat) + SkipNotes(r6, V6, cat)
    ensures st6.unmapped == UnreadNotes(r4, V4) + UnreadNotes(r6, V6)
    ensures st6.natLines == NatLines(r4) + NatLines(r6)
    ensures MasqueradesAt(st6.masquerade, text) == Masquerades(r4, text) + Masquerades(r6, text)
  {
    assert NotesAt(start.skips, cat) == [];
    assert [] + SkipNotes(r4, V4, cat) == SkipNotes(r4, V4, cat) && [] + UnreadNotes(r4, V4) == UnreadNotes(r4, V4);
  }

  lemma FinishNotes(st: PlanState)
    ensures var plan := Finish(st);
            && plan.skips == st.skips && plan.unmapped == st.unmapped && plan.natLines == st.natLines
            && plan.masquerade == st.masquerade
  {
  }

  /** The plan's report: the skipped lines of each category and the unread ones, each with its
      family, number and text, in the order of the captures, the NAT lines counted, and the
      masquerading ones by their text. */
  lemma PlanNotes(v4: seq<Line>, v6: seq<Line>, cat: Category, text: string)
    requires PlanOf(v4, v6).Ok?
    ensures ParseDump(v4).Ok? && ParseDump(v6).Ok?
    ensures var r4, r6, plan := ParseDump(v4).value, ParseDump(v6).value, PlanOf(v4, v6).value;
            && NotesAt(plan.skips, cat) == SkipNotes(r4, V4, cat) + SkipNotes(r6, V6, cat)
            && plan.unmapped == UnreadNotes(r4, V4) + UnreadNotes(r6, V6)
            && plan.natLines == NatLines(r4) + NatLines(r6)
            && MasqueradesAt(plan.masquerade, text) == Masquerades(r4, text) + Masquerades(r6, text)
  {
    var r4, r6 := ParseDump(v4).value, ParseDump(v6).value;
    var st4 := ExtendAll(EMPTY_PLAN, r4, V4).value;
    var st6 := ExtendAll(st4, r6, V6).value;
    LinesNoted(EMPTY_PLAN, r4, V4, cat, text);
    LinesNoted(st4, r6, V6, cat, text);
    BothNoted(EMPTY_PLAN, r4, r6, st4, st6, cat, text);
    FinishNotes(st6);
  }
}
