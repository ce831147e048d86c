/** One firewall of the simulator: an ordered rule table and the verdict loop over it. */
module Simulator {
  import opened Wrappers
  import opened Sorting
  import opened Addresses

  datatype Protocol = Tcp | Udp | Icmp | AnyProtocol

  datatype Action = Accept | Drop | Reject | Log | Nat

  /** An address field.  The simulator keeps text; this is the text with what it parses as:
      absent, empty, the word "any", an address, a CIDR block, and text that parses as
      neither. Two spellings of one address are different values. */
  datatype AddrText =
    | Missing
    | Empty
    | AnyWord
    | Address(spelled: string, ip: Ip)
    | Block(spelled: string, net: Net)
    | BadBlock(text: string)
    | OtherText(text: string)

  /** A chain's name; any other text names a chain no packet is sent through. */
  datatype Chain = Input | Forward | Output | Prerouting | Postrouting | OtherChain(name: string)

  datatype InterfaceType = Wan | Lan | OtherType(name: string)

  datatype Packet = Packet(
    src: AddrText, dst: AddrText, protocol: Protocol,
    srcPort: Option<int>, dstPort: Option<int>,
    interfaceIn: string, interfaceOut: string,
    flags: seq<string>, payloadSize: int, state: string)

  datatype Rule = Rule(
    id: int, name: string, chain: Chain, action: Action,
    src: AddrText, dst: AddrText, protocol: Option<Protocol>,
    srcPort: Option<int>, dstPort: Option<int>,
    interfaceIn: Option<string>, interfaceOut: Option<string>, state: Option<string>,
    log: bool, order: int, enabled: bool)

  datatype LogLine = NatApplied(name: string) | RuleLogged(id: int, name: string, action: Action)

  datatype Dnat = Dnat(kind: Action, originalDst: AddrText, translatedDst: AddrText)

  /** The translation dictionary: the prerouting part and the postrouting rule's name. */
  datatype Translation = Translation(pre: Option<Dnat>, post: Option<string>)

  datatype SimResult = SimResult(
    packet: Packet, matched: Option<Rule>, action: Action, chains: seq<Chain>,
    evaluated: nat, logs: seq<LogLine>, translation: Translation)

  /** A firewall's configuration, as a value. */
  datatype Config = Config(
    id: string, name: string, rules: seq<Rule>, interfaces: map<string, InterfaceType>, natRules: seq<Rule>)

  // ---- Matching -------------------------------------------------------------

  /** A block with host bits set, or text that is no address, is inside nothing. */
  predicate InNetwork(addr: AddrText, block: AddrText) {
    addr.Address? && block.Block? && Holds(block.net, addr.ip)
  }

  predicate AddressMatches(want: AddrText, have: AddrText) {
    match want
    case Missing => true
    case Empty => true
    case AnyWord => true
    case Block(_, _) => InNetwork(have, want)
    case BadBlock(_) => InNetwork(have, want)
    case Address(_, _) => have == want
    case OtherText(_) => have == want
  }

  /** An absent port and port 0 constrain nothing. */
  predicate PortMatches(want: Option<int>, have: Option<int>) {
    want.Some? && want.value != 0 ==> have == want
  }

  /** An absent name and the empty name constrain nothing. */
  predicate NameMatches(want: Option<string>, have: string) {
    want.Some? && want.value != "" ==> have == want.value
  }

  predicate Matches(rule: Rule, packet: Packet) {
    && rule.enabled
    && AddressMatches(rule.src, packet.src)
    && AddressMatches(rule.dst, packet.dst)
    && (rule.protocol.Some? && !rule.protocol.value.AnyProtocol? ==> packet.protocol == rule.protocol.value)
    && PortMatches(rule.srcPort, packet.srcPort)
    && PortMatches(rule.dstPort, packet.dstPort)
    && NameMatches(rule.interfaceIn, packet.interfaceIn)
    && NameMatches(rule.interfaceOut, packet.interfaceOut)
    && NameMatches(rule.state, packet.state)
  }

  predicate Hits(rule: Rule, chain: Chain, packet: Packet) {
    rule.chain == chain && Matches(rule, packet)
  }

  predicate Blocks(action: Action) {
    action.Drop? || action.Reject?
  }

  predicate Stops(rule: Rule, chain: Chain, packet: Packet) {
    Hits(rule, chain, packet) && Blocks(rule.action)
  }

  function TypeOf(interfaces: map<string, InterfaceType>, name: string): InterfaceType {
    if name in interfaces then interfaces[name] else OtherType("unknown")
  }

  function DetermineChain(interfaces: map<string, InterfaceType>, packet: Packet): (chain: Chain)
    ensures chain.Input? || chain.Forward? || chain.Output?
  {
    var src, dst := TypeOf(interfaces, packet.interfaceIn), TypeOf(interfaces, packet.interfaceOut);
    if src.Wan? then Input
    else if src.Lan? && dst.Wan? then Forward
    else Output
  }

  // ---- What a packet's verdict is -------------------------------------------

  /** How many rules the loop visits: up to and including the first that stops it. */
  function Visited(rules: seq<Rule>, chain: Chain, packet: Packet): (n: nat)
    ensures n <= |rules|
  {
    if rules == [] then 0
    else if Stops(rules[0], chain, packet) then 1
    else 1 + Visited(rules[1..], chain, packet)
  }

  function LastHit(rules: seq<Rule>, chain: Chain, packet: Packet): Option<Rule> {
    if rules == [] then None
    else if Hits(rules[|rules| - 1], chain, packet) then Some(rules[|rules| - 1])
    else LastHit(rules[..|rules| - 1], chain, packet)
  }

  function CountChain(rules: seq<Rule>, chain: Chain): nat {
    if rules == [] then 0
    else CountChain(rules[..|rules| - 1], chain) + if rules[|rules| - 1].chain == chain then 1 else 0
  }

  function HitLogs(rules: seq<Rule>, chain: Chain, packet: Packet): seq<LogLine> {
    if rules == [] then []
    else
      var last := rules[|rules| - 1];
      HitLogs(rules[..|rules| - 1], chain, packet)
      + if Hits(last, chain, packet) && last.log then [RuleLogged(last.id, last.name, last.action)] else []
  }

  /** One more rule looked at, for each of the four functions above. */
  lemma VisitStep(rules: seq<Rule>, i: nat, chain: Chain, packet: Packet)
    requires i < |rules|
    ensures Visited(rules[i..], chain, packet)
            == if Stops(rules[i], chain, packet) then 1 else 1 + Visited(rules[i + 1..], chain, packet)
    ensures LastHit(rules[..i + 1], chain, packet)
            == if Hits(rules[i], chain, packet) then Some(rules[i]) else LastHit(rules[..i], chain, packet)
    ensures CountChain(rules[..i + 1], chain)
            == CountChain(rules[..i], chain) + if rules[i].chain == chain then 1 else 0
    ensures HitLogs(rules[..i + 1], chain, packet)
            == HitLogs(rules[..i], chain, packet)
               + if Hits(rules[i], chain, packet) && rules[i].log
                 then [RuleLogged(rules[i].id, rules[i].name, rules[i].action)] else []
  {
    assert rules[..i + 1][..i] == rules[..i];
    assert rules[i..][1..] == rules[i + 1..];
  }

  lemma OneMoreVisit(rules: seq<Rule>, i: nat, chain: Chain, packet: Packet)
    requires i < |rules|
    ensures Visited(rules[i..], chain, packet)
            == if Stops(rules[i], chain, packet) then 1 else 1 + Visited(rules[i + 1..], chain, packet)
  {
    VisitStep(rules, i, chain, packet);
  }

  /** What the loop knows after these rules. */
  predicate Looked(seen: seq<Rule>, chain: Chain, packet: Packet, matched: Option<Rule>, evaluated: nat,
                   logs: seq<LogLine>)
  {
    matched == LastHit(seen, chain, packet) && evaluated == CountChain(seen, chain) && logs == HitLogs(seen, chain, packet)
  }

  lemma LookStep(rules: seq<Rule>, i: nat, chain: Chain, packet: Packet, matched: Option<Rule>, evaluated: nat,
                 logs: seq<LogLine>)
    requires i < |rules| && Looked(rules[..i], chain, packet, matched, evaluated, logs)
    ensures var rule := rules[i];
            Looked(rules[..i + 1], chain, packet, if Hits(rule, chain, packet) then Some(rule) else matched,
                   if rule.chain == chain then evaluated + 1 else evaluated,
                   if Hits(rule, chain, packet) && rule.log then logs + [RuleLogged(rule.id, rule.name, rule.action)]
                   else logs)
  {
    VisitStep(rules, i, chain, packet);
  }

  /** One round of the loop: what it knows afterwards, and whether it goes on. */
  lemma LoopStep(rules: seq<Rule>, i: nat, chain: Chain, packet: Packet, matched: Option<Rule>, evaluated: nat,
                 logs: seq<LogLine>, matches: bool)
    requires i < |rules| && Looked(rules[..i], chain, packet, matched, evaluated, logs)
    requires matches == Matches(rules[i], packet)
    ensures var rule := rules[i];
            var hit := rule.chain == chain && matches;
            && Looked(rules[..i + 1], chain, packet, if hit then Some(rule) else matched,
                      if rule.chain == chain then evaluated + 1 else evaluated,
                      if hit && rule.log then logs + [RuleLogged(rule.id, rule.name, rule.action)] else logs)
            && Visited(rules[i..], chain, packet)
               == if hit && Blocks(rule.action) then 1 else 1 + Visited(rules[i + 1..], chain, packet)
  {
    OneMoreVisit(rules, i, chain, packet);
    LookStep(rules, i, chain, packet, matched, evaluated, logs);
  }

  function FirstNat(natRules: seq<Rule>, packet: Packet, chain: Chain): Option<Rule> {
    if natRules == [] then None
    else if Hits(natRules[0], chain, packet) then Some(natRules[0])
    else FirstNat(natRules[1..], packet, chain)
  }

  function ApplyNat(packet: Packet, rule: Rule): Dnat {
    Dnat(rule.action, packet.dst, rule.dst)
  }

  function ActionOf(matched: Option<Rule>): Action {
    if matched.Some? then matched.value.action else Accept
  }

  /** The result of one packet through one firewall. */
  function Simulate(c: Config, packet: Packet): SimResult {
    var chain := DetermineChain(c.interfaces, packet);
    var seen := c.rules[..Visited(c.rules, chain, packet)];
    var pre := if chain.Forward? then FirstNat(c.natRules, packet, Prerouting) else None;
    var matched := LastHit(seen, chain, packet);
    var action := ActionOf(matched);
    var post := if chain.Forward? && action.Accept? then FirstNat(c.natRules, packet, Postrouting) else None;
    SimResult(
      packet, matched, action, [chain], CountChain(seen, chain),
      (if pre.Some? then [NatApplied(pre.value.name)] else []) + HitLogs(seen, chain, packet),
      Translation(if pre.Some? then Some(ApplyNat(packet, pre.value)) else None,
                  if post.Some? then Some(post.value.name) else None))
  }

  // ---- Test suites ----------------------------------------------------------

  datatype TestCase = TestCase(
    id: string, packet: Packet, expectedAction: Action, expectedChain: Option<Chain>, critical: bool)

  datatype Failure = ActionDiffers(want: Action, got: Action) | ChainDiffers(chain: Chain, traversed: seq<Chain>)

  datatype TestResult = TestResult(
    test: TestCase, passed: bool, actualAction: Action, actualRule: Option<Rule>, error: Option<Failure>)

  datatype Summary = Summary(
    total: nat, passed: nat, failed: nat, criticalFailures: seq<string>, canDeploy: bool)

  function RunSingleTest(c: Config, test: TestCase): TestResult {
    var r := Simulate(c, test.packet);
    var actionOk := r.action == test.expectedAction;
    var chainOk := test.expectedChain.Some? && test.expectedChain.value != OtherChain("") ==> test.expectedChain.value in r.chains;
    TestResult(
      test, actionOk && chainOk, r.action, r.matched,
      if !chainOk then Some(ChainDiffers(test.expectedChain.value, r.chains))
      else if !actionOk then Some(ActionDiffers(test.expectedAction, r.action))
      else None)
  }

  function RunTests(c: Config, tests: seq<TestCase>): seq<TestResult> {
    if tests == [] then []
    else RunTests(c, tests[..|tests| - 1]) + [RunSingleTest(c, tests[|tests| - 1])]
  }

  function CriticalFailures(results: seq<TestResult>): seq<string> {
    if results == [] then []
    else
      var last := results[|results| - 1];
      CriticalFailures(results[..|results| - 1])
      + if !last.passed && last.test.critical then [last.test.id] else []
  }

  function CountFailed(results: seq<TestResult>): nat {
    if results == [] then 0
    else CountFailed(results[..|results| - 1]) + if results[|results| - 1].passed then 0 else 1
  }

  lemma SuiteStep(c: Config, tests: seq<TestCase>, n: nat, results: seq<TestResult>, r: TestResult)
    requires n < |tests|
    ensures RunTests(c, tests[..n + 1]) == RunTests(c, tests[..n]) + [RunSingleTest(c, tests[n])]
    ensures CountFailed(results + [r]) == CountFailed(results) + if r.passed then 0 else 1
    ensures CriticalFailures(results + [r])
            == CriticalFailures(results) + if !r.passed && r.test.critical then [r.test.id] else []
  {
    assert tests[..n + 1][..n] == tests[..n];
    assert (results + [r])[..|results|] == results;
  }

  lemma {:induction false} RunTestsAt(c: Config, tests: seq<TestCase>, i: nat)
    requires i < |tests|
    ensures |RunTests(c, tests)| == |tests| && RunTests(c, tests)[i] == RunSingleTest(c, tests[i])
  {
    var n := |tests| - 1;
    if n > 0 { RunTestsAt(c, tests[..n], if i < n then i else 0); }
  }

  /** No failure counted means every test passed; a critical failure is a failure. */
  lemma {:induction false} CountersSound(results: seq<TestResult>)
    ensures CountFailed(results) == 0 <==> forall r :: r in results ==> r.passed
    ensures CriticalFailures(results) != [] ==> CountFailed(results) > 0
  {
    if results != [] {
      CountersSound(results[..|results| - 1]);
      assert results == results[..|results| - 1] + [results[|results| - 1]];
    }
  }

  /** The places of the failed results. */
  function Failed(results: seq<TestResult>): set<nat> {
    set i: nat | i < |results| && !results[i].passed
  }

  lemma {:induction false} FailedCounted(results: seq<TestResult>)
    ensures CountFailed(results) == |Failed(results)|
  {
    if results != [] {
      var n := |results| - 1;
      FailedCounted(results[..n]);
      FailedLess(results, n);
    }
  }

  lemma FailedLess(results: seq<TestResult>, n: nat)
    requires |results| == n + 1
    ensures |Failed(results)| == |Failed(results[..n])| + if results[n].passed then 0 else 1
  {
    var before, after := Failed(results[..n]), Failed(results);
    forall i: nat ensures i in before <==> i < n && i in after {}
    if results[n].passed {
      assert after == before;
    } else {
      assert n in after && n !in before;
      assert after == before + {n};
    }
  }

  /** The suite reports, test by test, what each test by itself says, and the failure counter
      is how many of them fail. */
  lemma SuitePasses(c: Config, tests: seq<TestCase>)
    ensures |RunTests(c, tests)| == |tests|
    ensures forall i :: 0 <= i < |tests| ==> RunTests(c, tests)[i] == RunSingleTest(c, tests[i])
    ensures CountFailed(RunTests(c, tests)) == |Failed(RunTests(c, tests))|
    ensures forall i: nat :: i in Failed(RunTests(c, tests)) <==> i < |tests| && !RunSingleTest(c, tests[i]).passed
  {
    forall i | 0 <= i < |tests|
      ensures |RunTests(c, tests)| == |tests| && RunTests(c, tests)[i] == RunSingleTest(c, tests[i])
    {
      RunTestsAt(c, tests, i);
    }
    FailedCounted(RunTests(c, tests));
  }

  // ---- The simulator object -------------------------------------------------

  function OrderOf(rule: Rule): int { rule.order }

  class FirewallSimulator {
    const firewallId: string
    const firewallName: string
    var rules: seq<Rule>
    var interfaces: map<string, InterfaceType>
    var natRules: seq<Rule>

    function Configuration(): Config
      reads this
    {
      Config(firewallId, firewallName, rules, interfaces, natRules)
    }

    constructor (id: string, name: string)
      ensures Configuration() == Config(id, name, [], map[], [])
    {
      firewallId, firewallName := id, name;
      rules, interfaces, natRules := [], map[], [];
    }

    method AddRule(rule: Rule)
      modifies this`rules
      ensures StablySorted(OrderOf, old(rules) + [rule], rules)
      ensures rules == StableSort(OrderOf, old(rules) + [rule])
    {
      rules := rules + [rule];
      StableSortCorrect(OrderOf, rules);
      rules := StableSort(OrderOf, rules);
    }

    method AddNatRule(rule: Rule)
      modifies this`natRules
      ensures StablySorted(OrderOf, old(natRules) + [rule], natRules)
      ensures natRules == StableSort(OrderOf, old(natRules) + [rule])
    {
      natRules := natRules + [rule];
      StableSortCorrect(OrderOf, natRules);
      natRules := StableSort(OrderOf, natRules);
    }

    method SetInterfaces(types: map<string, InterfaceType>)
      modifies this`interfaces
      ensures interfaces == types
    {
      interfaces := types;
    }

    method CheckNat(packet: Packet, chain: Chain) returns (found: Option<Rule>)
      ensures found == FirstNat(natRules, packet, chain)
    {
      for i := 0 to |natRules|
        invariant FirstNat(natRules, packet, chain) == FirstNat(natRules[i..], packet, chain)
      {
        if natRules[i].chain == chain && Matches(natRules[i], packet) {
          return Some(natRules[i]);
        }
      }
      return None;
    }

    /** The verdict loop: every rule of the chain up to the first that blocks. */
    method EvaluateRules(packet: Packet, chain: Chain)
      returns (matched: Option<Rule>, action: Action, evaluated: nat, logs: seq<LogLine>)
      ensures Looked(rules[..Visited(rules, chain, packet)], chain, packet, matched, evaluated, logs)
      ensures action == ActionOf(matched)
    {
      matched, action, evaluated, logs := None, Accept, 0, [];
      var i := 0;
      while i < |rules|
        invariant 0 <= i <= |rules|
        invariant Visited(rules, chain, packet) == i + Visited(rules[i..], chain, packet)
        invariant Looked(rules[..i], chain, packet, matched, evaluated, logs) && action == ActionOf(matched)
      {
        var rule := rules[i];
        var matches := Matches(rule, packet);
        LoopStep(rules, i, chain, packet, matched, evaluated, logs, matches);
        if rule.chain == chain {
          evaluated := evaluated + 1;
          if matches {
            matched, action := Some(rule), rule.action;
            if rule.log { logs := logs + [RuleLogged(rule.id, rule.name, rule.action)]; }
            if Blocks(rule.action) { return; }
          }
        }
        i := i + 1;
      }
    }

    method SimulatePacket(packet: Packet) returns (result: SimResult)
      ensures result == Simulate(Configuration(), packet)
    {
      var chain := DetermineChain(interfaces, packet);
      var logs: seq<LogLine> := [];
      var translation := Translation(None, None);
      if chain.Forward? {
        var pre := CheckNat(packet, Prerouting);
        if pre.Some? {
          translation := translation.(pre := Some(ApplyNat(packet, pre.value)));
          logs := logs + [NatApplied(pre.value.name)];
        }
      }
      var matched, action, evaluated, ruleLogs := EvaluateRules(packet, chain);
      logs := logs + ruleLogs;
      if chain.Forward? && action.Accept? {
        var post := CheckNat(packet, Postrouting);
        if post.Some? { translation := translation.(post := Some(post.value.name)); }
      }
      result := SimResult(packet, matched, action, [chain], evaluated, logs, translation);
    }

    method RunTest(test: TestCase) returns (result: TestResult)
      ensures result == RunSingleTest(Configuration(), test)
    {
      var r := SimulatePacket(test.packet);
      var passed, error := r.action == test.expectedAction, None;
      if !passed { error := Some(ActionDiffers(test.expectedAction, r.action)); }
      if test.expectedChain.Some? && test.expectedChain.value != OtherChain("") && test.expectedChain.value !in r.chains {
        passed, error := false, Some(ChainDiffers(test.expectedChain.value, r.chains));
      }
      result := TestResult(test, passed, r.action, r.matched, error);
    }

    /** Deployment is allowed exactly when every test passed. */
    method RunTestSuite(tests: seq<TestCase>) returns (results: seq<TestResult>, summary: Summary)
      ensures results == RunTests(Configuration(), tests)
      ensures summary.total == |tests| == summary.passed + summary.failed
      ensures summary.failed == CountFailed(results)
      ensures summary.criticalFailures == CriticalFailures(results)
      ensures summary.canDeploy <==> forall r :: r in results ==> r.passed
    {
      results := [];
      var passed, failed, critical := 0, 0, [];
      for n := 0 to |tests|
        invariant results == RunTests(Configuration(), tests[..n])
        invariant n == passed + failed
        invariant failed == CountFailed(results)
        invariant critical == CriticalFailures(results)
      {
        var result := RunTest(tests[n]);
        SuiteStep(Configuration(), tests, n, results, result);
        results := results + [result];
        if result.passed {
          passed := passed + 1;
        } else {
          failed := failed + 1;
          if tests[n].critical { critical := critical + [tests[n].id]; }
        }
      }
      assert tests[..|tests|] == tests;
      CountersSound(results);
      summary := Summary(|tests|, passed, failed, critical, critical == [] && failed == 0);
    }
  }

  // ---- The rule table over a run of insertions ------------------------------

  /** The table after `AddRule` on each of `inserted`, in turn, from the empty table. */
  function TableAfter(inserted: seq<Rule>): seq<Rule> {
    if inserted == [] then []
    else StableSort(OrderOf, TableAfter(inserted[..|inserted| - 1]) + [inserted[|inserted| - 1]])
  }

  lemma {:induction false} TableIsStableSort(inserted: seq<Rule>)
    ensures TableAfter(inserted) == StableSort(OrderOf, inserted)
    ensures StablySorted(OrderOf, inserted, TableAfter(inserted))
  {
    StableSortCorrect(OrderOf, inserted);
    if inserted != [] {
      var init, last := inserted[..|inserted| - 1], inserted[|inserted| - 1];
      TableIsStableSort(init);
      SortAbsorbs(OrderOf, init, [last]);
      assert init + [last] == inserted;
    }
  }

  /** Handing over the rules already sorted makes no difference. */
  lemma PresortingIsIdle(inserted: seq<Rule>)
    ensures TableAfter(StableSort(OrderOf, inserted)) == TableAfter(inserted)
  {
    TableIsStableSort(inserted);
    TableIsStableSort(StableSort(OrderOf, inserted));
    SortAbsorbs(OrderOf, inserted, []);
  }

  // ---- Which rules concern a packet -----------------------------------------

  predicate Listed(interfaces: map<string, InterfaceType>, name: string, kind: InterfaceType) {
    name in interfaces && interfaces[name] == kind
  }

  /** The chain a packet takes, by the interfaces it enters and leaves on. */
  predicate Takes(interfaces: map<string, InterfaceType>, packet: Packet, chain: Chain) {
    match chain
    case Input => Listed(interfaces, packet.interfaceIn, Wan)
    case Forward => Listed(interfaces, packet.interfaceIn, Lan) && Listed(interfaces, packet.interfaceOut, Wan)
    case Output =>
      && !Listed(interfaces, packet.interfaceIn, Wan)
      && !(Listed(interfaces, packet.interfaceIn, Lan) && Listed(interfaces, packet.interfaceOut, Wan))
    case Prerouting => false
    case Postrouting => false
    case OtherChain(_) => false
  }

  /** A packet traverses one chain: input exactly when it enters on an interface listed as
      wan, forward exactly when it enters on one listed as lan and leaves on one listed as
      wan, and output otherwise, unlisted interfaces included. */
  lemma TraversedChain(c: Config, packet: Packet)
    ensures var chains := Simulate(c, packet).chains;
            && (chains == [Input] <==> Listed(c.interfaces, packet.interfaceIn, Wan))
            && (chains == [Forward]
                <==> Listed(c.interfaces, packet.interfaceIn, Lan) && Listed(c.interfaces, packet.interfaceOut, Wan))
            && (chains == [Input] || chains == [Forward] || chains == [Output])
  {
  }

  /** Between two lan interfaces that is output, where one would expect forward. */
  lemma InterVlanIsOutput(c: Config, packet: Packet)
    requires Listed(c.interfaces, packet.interfaceIn, Lan) && Listed(c.interfaces, packet.interfaceOut, Lan)
    ensures Simulate(c, packet).chains == [Output]
    ensures forall r: Rule :: r.chain == Forward ==> Simulate(c, packet).matched != Some(r)
  {
    LastHitIsHit(c.rules[..Visited(c.rules, Output, packet)], Output, packet);
  }

  /** The rule stands in the packet's chain and matches it. */
  predicate Applies(r: Rule, interfaces: map<string, InterfaceType>, packet: Packet) {
    Takes(interfaces, packet, r.chain) && Matches(r, packet)
  }

  predicate Blocking(r: Rule, interfaces: map<string, InterfaceType>, packet: Packet) {
    Applies(r, interfaces, packet) && (r.action == Drop || r.action == Reject)
  }

  lemma ConcernIsHit(r: Rule, interfaces: map<string, InterfaceType>, packet: Packet)
    ensures Applies(r, interfaces, packet) <==> Hits(r, DetermineChain(interfaces, packet), packet)
    ensures Blocking(r, interfaces, packet) <==> Stops(r, DetermineChain(interfaces, packet), packet)
  {
  }

  // ---- What a rule matches --------------------------------------------------

  /** The rule's demands, one at a time: a field that demands nothing can be left out, and one
      that does is met on its own. Absent and empty texts, "any" and port 0 demand nothing. */
  lemma EachFieldNarrows(r: Rule, p: Packet)
    ensures r.enabled && Free(r) ==> Matches(r, p)
    ensures !r.enabled ==> !Matches(r, p)
    ensures Matches(r, p) <==> Matches(r.(src := Missing), p) && Admits(r.src, p.src)
    ensures Matches(r, p) <==> Matches(r.(dst := Missing), p) && Admits(r.dst, p.dst)
    ensures Matches(r, p)
            <==> Matches(r.(protocol := None), p) && r.protocol in {None, Some(AnyProtocol), Some(p.protocol)}
    ensures Matches(r, p) <==> Matches(r.(srcPort := None), p) && (r.srcPort in {None, Some(0)} || r.srcPort == p.srcPort)
    ensures Matches(r, p) <==> Matches(r.(dstPort := None), p) && (r.dstPort in {None, Some(0)} || r.dstPort == p.dstPort)
    ensures Matches(r, p)
            <==> Matches(r.(interfaceIn := None), p) && NoneOrOne(r.interfaceIn, p.interfaceIn)
    ensures Matches(r, p)
            <==> Matches(r.(interfaceOut := None), p) && NoneOrOne(r.interfaceOut, p.interfaceOut)
    ensures Matches(r, p) <==> Matches(r.(state := None), p) && NoneOrOne(r.state, p.state)
  {
    AdmitsIff(r.src, p.src);
    AdmitsIff(r.dst, p.dst);
  }

  lemma AdmitsIff(want: AddrText, have: AddrText)
    ensures AddressMatches(want, have) <==> Admits(want, have)
  {
    if want.Block? && have.Address? && Aligned(want.net) && have.ip.width == want.net.width {
      HoldsIsQuotient(want.net, have.ip);
    }
  }

  /** A name field admits every name, or its own. */
  predicate NoneOrOne(want: Option<string>, have: string) {
    want.None? || want.value == "" || want.value == have
  }

  /** A rule with no demands. */
  predicate Free(r: Rule) {
    && r.src == r.dst == Missing && r.protocol == None && r.srcPort == r.dstPort == None
    && r.interfaceIn == r.interfaceOut == r.state == None
  }

  /** What an address field admits: every address, the addresses of a block without host
      bits, or one spelling. */
  predicate Admits(want: AddrText, have: AddrText) {
    || want in {Missing, Empty, AnyWord}
    || (want.Block? && have.Address? && Aligned(want.net) && have.ip.width == want.net.width
        && want.net.base <= have.ip.value < want.net.base + Size(want.net))
    || ((want.Address? || want.OtherText?) && have == want)
  }

  // ---- Theorems about the verdict -------------------------------------------

  lemma {:induction false} VisitedStops(rules: seq<Rule>, chain: Chain, packet: Packet, i: nat)
    requires i < |rules| && Stops(rules[i], chain, packet)
    requires forall j :: 0 <= j < i ==> !Stops(rules[j], chain, packet)
    ensures Visited(rules, chain, packet) == i + 1
  {
    if i > 0 { VisitedStops(rules[1..], chain, packet, i - 1); }
  }

  lemma {:induction false} VisitedAll(rules: seq<Rule>, chain: Chain, packet: Packet)
    requires forall j :: 0 <= j < |rules| ==> !Stops(rules[j], chain, packet)
    ensures Visited(rules, chain, packet) == |rules|
  {
    if rules != [] { VisitedAll(rules[1..], chain, packet); }
  }

  lemma {:induction false} LastHitIsLast(rules: seq<Rule>, chain: Chain, packet: Packet, j: nat)
    requires j < |rules| && Hits(rules[j], chain, packet)
    requires forall k :: j < k < |rules| ==> !Hits(rules[k], chain, packet)
    ensures LastHit(rules, chain, packet) == Some(rules[j])
  {
    if j < |rules| - 1 { LastHitIsLast(rules[..|rules| - 1], chain, packet, j); }
  }

  lemma {:induction false} LastHitIsHit(rules: seq<Rule>, chain: Chain, packet: Packet)
    ensures LastHit(rules, chain, packet).Some? ==>
              LastHit(rules, chain, packet).value in rules && Hits(LastHit(rules, chain, packet).value, chain, packet)
    ensures LastHit(rules, chain, packet).None? ==> forall r :: r in rules ==> !Hits(r, chain, packet)
  {
    if rules != [] {
      LastHitIsHit(rules[..|rules| - 1], chain, packet);
      assert rules == rules[..|rules| - 1] + [rules[|rules| - 1]];
    }
  }

  /** The verdict is the first DROP or REJECT that matches in the packet's chain. */
  lemma FirstBlockDecides(c: Config, packet: Packet, i: nat)
    requires i < |c.rules| && Blocking(c.rules[i], c.interfaces, packet)
    requires forall j :: 0 <= j < i ==> !Blocking(c.rules[j], c.interfaces, packet)
    ensures var r := Simulate(c, packet);
            && r.matched == Some(c.rules[i]) && r.action == c.rules[i].action
            && r.evaluated == CountChain(c.rules[..i + 1], c.rules[i].chain)
            && r.translation.post.None?
  {
    var chain := DetermineChain(c.interfaces, packet);
    forall j | 0 <= j <= i
      ensures Blocking(c.rules[j], c.interfaces, packet) <==> Stops(c.rules[j], chain, packet)
    {
      ConcernIsHit(c.rules[j], c.interfaces, packet);
    }
    VisitedStops(c.rules, chain, packet, i);
    LastHitIsLast(c.rules[..i + 1], chain, packet, i);
  }

  /** Failing that it is the last rule that matches, and failing that ACCEPT. */
  lemma LastMatchDecides(c: Config, packet: Packet)
    requires forall j :: 0 <= j < |c.rules| ==> !Blocking(c.rules[j], c.interfaces, packet)
    ensures var r := Simulate(c, packet);
            && r.evaluated == CountChain(c.rules, r.chains[0])
            && (forall j :: 0 <= j < |c.rules| && Applies(c.rules[j], c.interfaces, packet)
                            && (forall k :: j < k < |c.rules| ==> !Applies(c.rules[k], c.interfaces, packet))
                  ==> r.matched == Some(c.rules[j]) && r.action == c.rules[j].action)
            && ((forall j :: 0 <= j < |c.rules| ==> !Applies(c.rules[j], c.interfaces, packet))
                  ==> r.matched == None && r.action == Accept)
  {
    var chain := DetermineChain(c.interfaces, packet);
    forall j | 0 <= j < |c.rules|
      ensures Applies(c.rules[j], c.interfaces, packet) <==> Hits(c.rules[j], chain, packet)
      ensures !Stops(c.rules[j], chain, packet)
    {
      ConcernIsHit(c.rules[j], c.interfaces, packet);
    }
    VisitedAll(c.rules, chain, packet);
    assert c.rules[..|c.rules|] == c.rules;
    forall j | 0 <= j < |c.rules| && Hits(c.rules[j], chain, packet)
               && (forall k :: j < k < |c.rules| ==> !Hits(c.rules[k], chain, packet))
      ensures LastHit(c.rules, chain, packet) == Some(c.rules[j])
    {
      LastHitIsLast(c.rules, chain, packet, j);
    }
    LastHitIsHit(c.rules, chain, packet);
  }

  /** A packet is blocked exactly when some rule of its chain that matches it drops or
      rejects, wherever in the table that rule stands. */
  lemma BlockedIffSomeRuleBlocks(c: Config, packet: Packet)
    ensures Simulate(c, packet).action in {Drop, Reject}
            <==> exists r :: r in c.rules && Blocking(r, c.interfaces, packet)
  {
    var chain := DetermineChain(c.interfaces, packet);
    if r :| r in c.rules && Blocking(r, c.interfaces, packet) {
      var i :| 0 <= i < |c.rules| && c.rules[i] == r;
      var first := FirstBlocking(c.rules, c.interfaces, packet, i);
      FirstBlockDecides(c, packet, first);
    } else {
      forall j | 0 <= j < |c.rules| ensures !Stops(c.rules[j], chain, packet) {
        ConcernIsHit(c.rules[j], c.interfaces, packet);
        assert c.rules[j] in c.rules;
      }
      VisitedAll(c.rules, chain, packet);
      assert c.rules[..|c.rules|] == c.rules;
      LastHitIsHit(c.rules, chain, packet);
    }
  }

  /** So a packet that enters from wan is blocked exactly when an input rule that matches it
      blocks. */
  lemma FromWanBlockedIff(c: Config, packet: Packet)
    requires Listed(c.interfaces, packet.interfaceIn, Wan)
    ensures Simulate(c, packet).action in {Drop, Reject}
            <==> exists r :: r in c.rules && r.chain == Input && Matches(r, packet) && r.action in {Drop, Reject}
  {
    BlockedIffSomeRuleBlocks(c, packet);
    if r :| r in c.rules && r.chain == Input && Matches(r, packet) && r.action in {Drop, Reject} {
      assert Blocking(r, c.interfaces, packet);
    }
  }

  lemma {:induction false} FirstBlocking(rules: seq<Rule>, interfaces: map<string, InterfaceType>, packet: Packet,
                                         i: nat) returns (first: nat)
    requires i < |rules| && Blocking(rules[i], interfaces, packet)
    ensures first <= i && Blocking(rules[first], interfaces, packet)
    ensures forall j :: 0 <= j < first ==> !Blocking(rules[j], interfaces, packet)
  {
    first := i;
    if j :| 0 <= j < i && Blocking(rules[j], interfaces, packet) {
      first := FirstBlocking(rules, interfaces, packet, j);
    }
  }

  // ---- What is counted and logged --------------------------------------------

  /** The loop gets as far as rule `i`. */
  predicate Reached(c: Config, packet: Packet, i: nat) {
    i < |c.rules| && forall j :: 0 <= j < i ==> !Blocking(c.rules[j], c.interfaces, packet)
  }

  lemma {:induction false} ReachedIff(rules: seq<Rule>, chain: Chain, packet: Packet, i: nat)
    requires i < |rules|
    ensures i < Visited(rules, chain, packet) <==> forall j :: 0 <= j < i ==> !Stops(rules[j], chain, packet)
  {
    if i > 0 {
      ReachedIff(rules[1..], chain, packet, i - 1);
      if forall j :: 0 <= j < i ==> !Stops(rules[j], chain, packet) {
        forall j | 0 <= j < i - 1 ensures !Stops(rules[1..][j], chain, packet) { assert rules[1..][j] == rules[j + 1]; }
      } else {
        var j :| 0 <= j < i && Stops(rules[j], chain, packet);
        if j > 0 { assert Stops(rules[1..][j - 1], chain, packet); }
      }
    }
  }

  lemma ReachedVisited(c: Config, packet: Packet, i: nat)
    requires i < |c.rules|
    ensures Reached(c, packet, i) <==> i < Visited(c.rules, DetermineChain(c.interfaces, packet), packet)
  {
    ReachedIff(c.rules, DetermineChain(c.interfaces, packet), packet, i);
    forall j | 0 <= j < i
      ensures Blocking(c.rules[j], c.interfaces, packet) <==> Stops(c.rules[j], DetermineChain(c.interfaces, packet), packet)
    {
      ConcernIsHit(c.rules[j], c.interfaces, packet);
    }
  }

  /** The places of the chain's rules. */
  function Places(rules: seq<Rule>, chain: Chain): set<nat> {
    set i: nat | i < |rules| && rules[i].chain == chain
  }

  lemma {:induction false} CountIsSize(rules: seq<Rule>, chain: Chain)
    ensures CountChain(rules, chain) == |Places(rules, chain)|
  {
    if rules != [] {
      var n := |rules| - 1;
      CountIsSize(rules[..n], chain);
      var before, after := Places(rules[..n], chain), Places(rules, chain);
      forall i: nat ensures i in before <==> i < n && i in after {}
      if rules[n].chain == chain {
        assert after == before + {n};
      } else {
        assert after == before;
      }
    }
  }

  lemma {:induction false} LoggedIff(rules: seq<Rule>, chain: Chain, packet: Packet, line: LogLine)
    ensures line in HitLogs(rules, chain, packet)
            <==> exists i :: 0 <= i < |rules| && LogsHit(rules[i], chain, packet, line)
  {
    if rules != [] {
      var n := |rules| - 1;
      LoggedIff(rules[..n], chain, packet, line);
      assert forall i :: 0 <= i < n ==> rules[..n][i] == rules[i];
    }
  }

  predicate LogsHit(r: Rule, chain: Chain, packet: Packet, line: LogLine) {
    Hits(r, chain, packet) && r.log && line == RuleLogged(r.id, r.name, r.action)
  }

  /** Evaluated are the packet's chain's rules up to the one that blocks, and of those the ones
      that match and ask for it are logged. */
  lemma CountedAndLogged(c: Config, packet: Packet, line: LogLine)
    requires line.RuleLogged?
    ensures Simulate(c, packet).evaluated
            == |set i: nat | i < |c.rules| && Reached(c, packet, i) && Takes(c.interfaces, packet, c.rules[i].chain)|
    ensures line in Simulate(c, packet).logs
            <==> exists i :: 0 <= i < |c.rules| && Reached(c, packet, i) && LogsRule(c, packet, i, line)
  {
    var chain := DetermineChain(c.interfaces, packet);
    var seen := c.rules[..Visited(c.rules, chain, packet)];
    forall i: nat | i < |c.rules| ensures Reached(c, packet, i) <==> i < |seen| { ReachedVisited(c, packet, i); }
    CountIsSize(seen, chain);
    assert Places(seen, chain)
           == set i: nat | i < |c.rules| && Reached(c, packet, i) && Takes(c.interfaces, packet, c.rules[i].chain);
    LoggedIff(seen, chain, packet, line);
    forall i | 0 <= i < |seen| ensures LogsHit(seen[i], chain, packet, line) <==> LogsRule(c, packet, i, line) {
      ConcernIsHit(c.rules[i], c.interfaces, packet);
    }
  }

  predicate LogsRule(c: Config, packet: Packet, i: nat, line: LogLine)
    requires i < |c.rules|
  {
    var r := c.rules[i];
    Applies(r, c.interfaces, packet) && r.log && line == RuleLogged(r.id, r.name, r.action)
  }

  /** A test passes exactly when the action is the expected one and the packet takes the
      expected chain, if one is given; an error tells that it did not. */
  lemma TestPasses(c: Config, test: TestCase)
    ensures var r := RunSingleTest(c, test);
            && (r.passed <==> && Simulate(c, test.packet).action == test.expectedAction
                              && (test.expectedChain.None? || test.expectedChain.value == OtherChain("")
                                  || Takes(c.interfaces, test.packet, test.expectedChain.value)))
            && (r.passed <==> r.error.None?)
            && r.actualAction == Simulate(c, test.packet).action && r.actualRule == Simulate(c, test.packet).matched
  {
    TraversedChain(c, test.packet);
  }

  /** The rule without its place in the table. */
  function Unordered(rule: Rule): Rule {
    rule.(order := 0)
  }

  /** Whether a packet is blocked depends neither on the insertion order nor on the
      `order` values, only on which rules there are. */
  lemma BlockingIgnoresOrder(a: seq<Rule>, b: seq<Rule>, c: Config, packet: Packet)
    requires Shapes(a) == Shapes(b)
    ensures Simulate(c.(rules := TableAfter(a)), packet).action in {Drop, Reject}
            <==> Simulate(c.(rules := TableAfter(b)), packet).action in {Drop, Reject}
  {
    BlockedIffSomeRuleBlocks(c.(rules := TableAfter(a)), packet);
    BlockedIffSomeRuleBlocks(c.(rules := TableAfter(b)), packet);
    BlockerCarriesOver(a, b, c.interfaces, packet);
    BlockerCarriesOver(b, a, c.interfaces, packet);
  }

  lemma TableMembers(a: seq<Rule>, r: Rule)
    ensures r in TableAfter(a) <==> r in a
  {
    TableIsStableSort(a);
    assert r in multiset(TableAfter(a)) <==> r in multiset(a);
  }

  function Shapes(rules: seq<Rule>): (shapes: set<Rule>)
    ensures forall x :: x in shapes <==> exists r :: r in rules && Unordered(r) == x
  {
    set r | r in rules :: Unordered(r)
  }

  lemma BlockerCarriesOver(a: seq<Rule>, b: seq<Rule>, interfaces: map<string, InterfaceType>, packet: Packet)
    requires Shapes(a) == Shapes(b)
    ensures (exists r :: r in TableAfter(a) && Blocking(r, interfaces, packet)) ==>
            (exists r :: r in TableAfter(b) && Blocking(r, interfaces, packet))
  {
    if r :| r in TableAfter(a) && Blocking(r, interfaces, packet) {
      TableMembers(a, r);
      assert Unordered(r) in Shapes(b);
      var s :| s in b && Unordered(s) == Unordered(r);
      TableMembers(b, s);
      assert Blocking(Unordered(s), interfaces, packet) == Blocking(s, interfaces, packet);
      assert Blocking(Unordered(r), interfaces, packet) == Blocking(r, interfaces, packet);
    }
  }

  /** With distinct `order` values the whole result, matched rule, evaluation count
      and logs included, ignores the insertion order. */
  lemma DistinctOrdersFixTheResult(a: seq<Rule>, b: seq<Rule>, c: Config, packet: Packet)
    requires multiset(a) == multiset(b)
    requires forall i, j :: 0 <= i < j < |a| ==> a[i].order != a[j].order
    ensures TableAfter(a) == TableAfter(b)
    ensures Simulate(c.(rules := TableAfter(a)), packet) == Simulate(c.(rules := TableAfter(b)), packet)
  {
    TableIsStableSort(a);
    TableIsStableSort(b);
    DistinctSortIgnoresOrder(OrderOf, a, b);
  }

  // ---- What destination NAT can do ------------------------------------------

  lemma {:induction false} FirstNatHits(natRules: seq<Rule>, packet: Packet, chain: Chain)
    ensures FirstNat(natRules, packet, chain).Some? ==>
              Hits(FirstNat(natRules, packet, chain).value, chain, packet)
  {
    if natRules != [] { FirstNatHits(natRules[1..], packet, chain); }
  }

  lemma {:induction false} FirstNatAt(natRules: seq<Rule>, packet: Packet, chain: Chain, i: nat)
    requires i < |natRules| && Hits(natRules[i], chain, packet)
    requires forall j :: 0 <= j < i ==> !Hits(natRules[j], chain, packet)
    ensures FirstNat(natRules, packet, chain) == Some(natRules[i])
  {
    if i > 0 { FirstNatAt(natRules[1..], packet, chain, i - 1); }
  }

  /** The first rule of a NAT chain that matches. */
  predicate FirstMatch(natRules: seq<Rule>, packet: Packet, chain: Chain, i: nat) {
    && i < |natRules| && natRules[i].chain == chain && Matches(natRules[i], packet)
    && forall j :: 0 <= j < i ==> natRules[j].chain != chain || !Matches(natRules[j], packet)
  }

  /** Only forwarded packets are translated: on the way in by the first prerouting rule that
      matches, which is logged first, and on the way out, if accepted, by the first
      postrouting one. */
  lemma TranslatedBy(c: Config, packet: Packet, i: nat)
    ensures var r := Simulate(c, packet);
            && (r.chains != [Forward] ==> r.translation == Translation(None, None))
            && (r.chains == [Forward] && FirstMatch(c.natRules, packet, Prerouting, i) ==>
                  r.translation.pre == Some(Dnat(c.natRules[i].action, packet.dst, c.natRules[i].dst))
                  && r.logs != [] && r.logs[0] == NatApplied(c.natRules[i].name))
            && (r.chains == [Forward] && r.action == Accept && FirstMatch(c.natRules, packet, Postrouting, i) ==>
                  r.translation.post == Some(c.natRules[i].name))
            && (r.action != Accept ==> r.translation.post == None)
  {
    if FirstMatch(c.natRules, packet, Prerouting, i) { FirstNatAt(c.natRules, packet, Prerouting, i); }
    if FirstMatch(c.natRules, packet, Postrouting, i) { FirstNatAt(c.natRules, packet, Postrouting, i); }
  }

  /** The translated destination is the matching rule's own destination field, so
      it is either the packet's destination again or not a host address at all: no
      rule table can send a packet on to a different host. */
  lemma NatNeverReachesAnotherHost(c: Config, packet: Packet)
    ensures var pre := Simulate(c, packet).translation.pre;
            pre.Some? ==>
              && pre.value.originalDst == packet.dst
              && (pre.value.translatedDst.Address? ==> pre.value.translatedDst == packet.dst)
              && Takes(c.interfaces, packet, Forward)
  {
    FirstNatHits(c.natRules, packet, Prerouting);
  }
}
