/** The firewall agent's reading of a console row: renderer rule objects, one per port. */
module AgentRules {
  import opened Wrappers
  import opened Sequences
  import opened Text
  import opened PortLists
  import Import = LegacyImport

  datatype AgentChain = InputChain | ForwardChain

  datatype AgentAction = Accept | Drop | Reject | Log | Queue

  datatype AgentRule = AgentRule(
    name: Option<string>, chain: AgentChain, source: Option<string>, destination: Option<string>,
    protocol: Option<string>, action: AgentAction, limit: Option<string>, order: int,
    antiSpoof: bool, port: Option<int>)

  /** What stands under `order_index`: nothing (or null, or an empty container), a number, a
      text, or something that is neither. */
  datatype OrderField = NoOrder | NumberOrder(value: int) | TextOrder(text: string) | OtherOrder

  /** What stands under `name`: no such key, null, or a text. */
  datatype NameField = NoName | NullName | GivenName(text: string)

  /** A row payload. */
  datatype Payload = Payload(
    name: NameField, sourceType: Import.AddressType, sourceValue: Option<string>,
    destType: Import.AddressType, destValue: Option<string>, protocol: Option<string>,
    ports: Option<string>, action: Option<Import.ActionWord>, limit: Option<string>,
    order: OrderField)

  datatype Invalid = MissingName | BadAction | BadOrder

  const ANTI_SPOOF := "anti-spoof"
  const INTERNAL_PORT := "internal-port"

  /** The name carries one of the tags that move a rule to the forward chain. */
  predicate Tagged(name: string) {
    Contains(Lower(name), ANTI_SPOOF) || Contains(Lower(name), INTERNAL_PORT)
  }

  function RuleChain(name: string): AgentChain {
    if Tagged(name) then ForwardChain else InputChain
  }

  function EndPoint(kind: Import.AddressType, value: Option<string>): Option<string> {
    if kind.HostAddress? || kind.NetworkAddress? || kind.RangeAddress? then value else None
  }

  function ActionFor(word: Option<Import.ActionWord>): Option<AgentAction> {
    match word
    case None => Some(Accept)
    case Some(AcceptWord) => Some(Accept)
    case Some(DropWord) => Some(Drop)
    case Some(RejectWord) => Some(Reject)
    case Some(LogWord) => Some(Log)
    case Some(QueueWord) => Some(Queue)
    case Some(OtherWord(text)) => if text == "" then Some(Accept) else None
  }

  /** `int(order_index or 0)`. */
  function OrderFor(order: OrderField): Option<int> {
    match order
    case NoOrder => Some(0)
    case NumberOrder(n) => Some(n)
    case TextOrder(text) => if text == "" then Some(0) else ParseInt(text)
    case OtherOrder => None
  }

  function OnPort(base: AgentRule): int -> seq<AgentRule> {
    port => [base.(port := Some(port))]
  }

  /** One rule per port, or a single rule without a port. */
  function PerPort(base: AgentRule, ports: seq<int>): seq<AgentRule> {
    if ports == [] then [base] else Flat(OnPort(base), ports)
  }

  /** The rule a valid payload describes, before ports. */
  function BaseRule(entry: Payload): AgentRule
    requires !entry.name.NoName? && ActionFor(entry.action).Some? && OrderFor(entry.order).Some?
  {
    var name := if entry.name.GivenName? then entry.name.text else "";
    AgentRule(
      if entry.name.GivenName? then Some(name) else None, RuleChain(name),
      EndPoint(entry.sourceType, entry.sourceValue), EndPoint(entry.destType, entry.destValue),
      if entry.protocol == Some("") then None else entry.protocol,
      ActionFor(entry.action).value, entry.limit, OrderFor(entry.order).value,
      Contains(Lower(name), ANTI_SPOOF), None)
  }

  function RulesFromPayload(entry: Payload): Result<seq<AgentRule>, Invalid> {
    if entry.name.NoName? then Err(MissingName)
    else if ActionFor(entry.action).None? then Err(BadAction)
    else if OrderFor(entry.order).None? then Err(BadOrder)
    else Ok(PerPort(BaseRule(entry), ServicePorts(entry.ports)))
  }

  function PayloadOf(row: Import.ConsoleRow): Payload {
    Payload(GivenName(row.name), row.sourceType, row.sourceValue, row.destType, row.destValue,
            Some(row.protocol), row.ports, Some(row.action), row.limit, NoOrder)
  }

  predicate UnknownAction(action: Option<Import.ActionWord>) {
    action.Some? && action.value.OtherWord? && action.value.text != ""
  }

  /** Neither absent, a number, nor the text of one. */
  predicate NoInteger(order: OrderField) {
    order.OtherOrder? || (order.TextOrder? && order.text != "" && ParseInt(order.text).None?)
  }

  // ---- What a payload becomes ---------------------------------------------------

  /** The name is a text that holds the word, in whatever letters. */
  predicate NameHolds(entry: Payload, word: string) {
    entry.name.GivenName? && Contains(Lower(entry.name.text), word)
  }

  /** The words that name an action; no word and an empty one name accept. */
  predicate NamedBy(action: AgentAction, word: Option<Import.ActionWord>) {
    match action
    case Accept => word.None? || word.value.AcceptWord? || (word.value.OtherWord? && word.value.text == "")
    case Drop => word == Some(Import.DropWord)
    case Reject => word == Some(Import.RejectWord)
    case Log => word == Some(Import.LogWord)
    case Queue => word == Some(Import.QueueWord)
  }

  /** An end point counts for hosts, networks and ranges, and for nothing else. */
  predicate EndsAt(kind: Import.AddressType, value: Option<string>, end: Option<string>) {
    match kind
    case HostAddress => end == value
    case NetworkAddress => end == value
    case RangeAddress => end == value
    case AnyAddress => end == None
    case OtherAddress(_) => end == None
  }

  predicate OrderedBy(n: int, order: OrderField) {
    match order
    case NoOrder => n == 0
    case NumberOrder(value) => n == value
    case TextOrder(text) => if text == "" then n == 0 else ParseInt(text) == Some(n)
    case OtherOrder => false
  }

  /** The rule says what the payload's fields say. */
  predicate Says(r: AgentRule, entry: Payload) {
    && r.name == (if entry.name.GivenName? then Some(entry.name.text) else None)
    && (r.chain.ForwardChain? <==> NameHolds(entry, "anti-spoof") || NameHolds(entry, "internal-port"))
    && (r.antiSpoof <==> NameHolds(entry, "anti-spoof"))
    && NamedBy(r.action, entry.action)
    && EndsAt(entry.sourceType, entry.sourceValue, r.source) && EndsAt(entry.destType, entry.destValue, r.destination)
    && (if entry.protocol.None? || entry.protocol.value == "" then r.protocol == None else r.protocol == entry.protocol)
    && r.limit == entry.limit && OrderedBy(r.order, entry.order)
  }

  /** The agent rejects a payload exactly when its name is missing, its action unknown or its
      order no integer; otherwise every rule says what the payload says, and their ports are
      the list's, in order, or none when the list gives none. */
  lemma RejectedPayloads(entry: Payload)
    ensures RulesFromPayload(entry).Err? <==> entry.name.NoName? || UnknownAction(entry.action) || NoInteger(entry.order)
    ensures RulesFromPayload(entry).Ok? ==>
              var rules, ports := RulesFromPayload(entry).value, ServicePorts(entry.ports);
              && (forall i :: 0 <= i < |rules| ==> Says(rules[i], entry))
              && (forall p :: p in ports ==> IsPort(p))
              && if ports == [] then |rules| == 1 && rules[0].port == None
                 else |rules| == |ports| && forall i :: 0 <= i < |rules| ==> rules[i].port == Some(ports[i])
  {
    if RulesFromPayload(entry).Ok? {
      BaseSays(entry);
      ServicePortsBounded(entry.ports);
      AllSay(entry, BaseRule(entry), ServicePorts(entry.ports));
    }
  }

  lemma AllSay(entry: Payload, base: AgentRule, ports: seq<int>)
    requires Says(base, entry) && base.port == None
    ensures var rules := PerPort(base, ports);
            && (forall i :: 0 <= i < |rules| ==> Says(rules[i], entry))
            && if ports == [] then |rules| == 1 && rules[0].port == None
               else |rules| == |ports| && forall i :: 0 <= i < |rules| ==> rules[i].port == Some(ports[i])
  {
    EachPort(base, ports);
    forall port ensures Says(base.(port := port), entry) {}
  }

  lemma BaseSays(entry: Payload)
    requires !entry.name.NoName? && ActionFor(entry.action).Some? && OrderFor(entry.order).Some?
    ensures Says(BaseRule(entry), entry) && BaseRule(entry).port == None
  {
  }

  lemma {:induction false} EachPort(base: AgentRule, ports: seq<int>)
    ensures var rules := Flat(OnPort(base), ports);
            |rules| == |ports| && forall i :: 0 <= i < |ports| ==> rules[i] == base.(port := Some(ports[i]))
  {
    if ports != [] { EachPort(base, ports[..|ports| - 1]); }
  }
}
