/** The legacy importer: iptables-save lines are parsed into rules, rules are
    classified, and classified rules become console rows in a plan. */
module LegacyImport {
  import opened Wrappers
  import opened Sequences
  import opened Text
  import opened PortLists

  // ---- Lines and tokens -----------------------------------------------------

  /** Options whose value is kept by name. */
  datatype Field =
    | CtState | CtOrig | CtDir | HlRate | HlBurst | HlName | HlMode
    | RateLimit | LogPrefix | AddrKind | Comment | ToDest | ToSource

  /** Every word the parser gives a meaning to; long and short spellings are distinct words. */
  datatype Word =
    | Bang | Module
    | In | InLong | Out | OutLong | Src | SrcLong | Dst | DstLong
    | Proto | ProtoLong | Jump | JumpLong | Goto | GotoLong
    | DPort | DPorts | SPort | SPorts
    | Named(field: Field)

  /** One token, which is its text. */
  datatype Token = Token(text: string)

  function Spelling(word: Word): string {
    match word
    case Bang => "!" case Module => "-m"
    case In => "-i" case InLong => "--in-interface" case Out => "-o" case OutLong => "--out-interface"
    case Src => "-s" case SrcLong => "--src" case Dst => "-d" case DstLong => "--dst"
    case Proto => "-p" case ProtoLong => "--protocol"
    case Jump => "-j" case JumpLong => "--jump" case Goto => "-g" case GotoLong => "--goto"
    case DPort => "--dport" case DPorts => "--dports" case SPort => "--sport" case SPorts => "--sports"
    case Named(f) =>
      match f
      case CtState => "--ctstate" case CtOrig => "--ctorigdstport" case CtDir => "--ctdir"
      case HlRate => "--hashlimit-above" case HlBurst => "--hashlimit-burst"
      case HlName => "--hashlimit-name" case HlMode => "--hashlimit-mode"
      case RateLimit => "--limit" case LogPrefix => "--log-prefix" case AddrKind => "--dst-type"
      case Comment => "--comment" case ToDest => "--to-destination" case ToSource => "--to-source"
  }

  function Opt(word: Word): Token {
    Token(Spelling(word))
  }

  const WORDS: seq<Word> :=
    [Bang, Module, In, InLong, Out, OutLong, Src, SrcLong, Dst, DstLong, Proto, ProtoLong, Jump, JumpLong,
     Goto, GotoLong, DPort, DPorts, SPort, SPorts, Named(CtState), Named(CtOrig), Named(CtDir), Named(HlRate),
     Named(HlBurst), Named(HlName), Named(HlMode), Named(RateLimit), Named(LogPrefix), Named(AddrKind),
     Named(Comment), Named(ToDest), Named(ToSource)]

  /** The first of these words that is spelled like the token. */
  function WordIn(words: seq<Word>, token: Token): Option<Word> {
    if words == [] then None
    else if Opt(words[0]) == token then Some(words[0])
    else WordIn(words[1..], token)
  }

  /** The word the parser takes a token for, if it gives it a meaning. */
  function WordOf(token: Token): Option<Word> {
    WordIn(WORDS, token)
  }

  lemma SpellingsDiffer(a: Word, b: Word)
    requires Spelling(a) == Spelling(b)
    ensures a == b
  {
  }

  lemma {:induction false} WordInFinds(words: seq<Word>, word: Word)
    requires word in words
    ensures WordIn(words, Opt(word)) == Some(word)
  {
    if words[0] != word {
      if Spelling(words[0]) == Spelling(word) { SpellingsDiffer(words[0], word); }
      WordInFinds(words[1..], word);
    }
  }

  lemma {:induction false} WordInSpells(words: seq<Word>, token: Token)
    ensures WordIn(words, token).Some? ==> token == Opt(WordIn(words, token).value)
  {
    if words != [] { WordInSpells(words[1..], token); }
  }

  lemma EveryWord(word: Word)
    ensures word in WORDS
  {
    if word.Named? { EveryField(word.field); }
  }

  lemma EveryField(field: Field)
    ensures Named(field) in WORDS
  {
    var k := match field
      case CtState => 20 case CtOrig => 21 case CtDir => 22 case HlRate => 23 case HlBurst => 24 case HlName => 25
      case HlMode => 26 case RateLimit => 27 case LogPrefix => 28 case AddrKind => 29 case Comment => 30
      case ToDest => 31 case ToSource => 32;
    assert WORDS[k] == Named(field);
  }

  lemma WordInIff(words: seq<Word>, token: Token, word: Word)
    requires word in words
    ensures WordIn(words, token) == Some(word) <==> token == Opt(word)
  {
    WordInFinds(words, word);
    WordInSpells(words, token);
  }

  /** A token is taken for a word exactly when it is the word's spelling. */
  lemma WordOfIff(token: Token, word: Word)
    ensures WordOf(token) == Some(word) <==> token == Opt(word)
  {
    EveryWord(word);
    WordInIff(WORDS, token, word);
  }

  datatype Table = NoTable | Filter | NatTable | Raw | OtherTable(name: string)

  /** A chain's name, as far as the importer tells chains apart. */
  datatype Chain = Input | Forward | Prerouting | DockerUser | DockerOwned(name: string) | OtherChain(name: string)

  datatype Target = NoTarget | ToAccept | ToDrop | ToDocker(name: string) | OtherTarget(name: string)

  const DOCKER_CHAINS: seq<string> :=
    ["DOCKER", "DOCKER-USER", "DOCKER-BRIDGE", "DOCKER-CT", "DOCKER-FORWARD", "DOCKER-INTERNAL", "DOCKER-ISOLATION"]

  function ChainOf(name: string): Chain {
    if name == "INPUT" then Input
    else if name == "FORWARD" then Forward
    else if name == "PREROUTING" then Prerouting
    else if name == "DOCKER-USER" then DockerUser
    else if name in DOCKER_CHAINS then DockerOwned(name)
    else OtherChain(name)
  }

  function TargetOf(name: string): Target {
    if name == "" then NoTarget
    else if name == "ACCEPT" then ToAccept
    else if name == "DROP" then ToDrop
    else if name in DOCKER_CHAINS then ToDocker(name)
    else OtherTarget(name)
  }

  /** A line of the dump, trimmed: blank or comment, COMMIT, table start, chain declaration,
      rule, or something else. A rule line is `flush` when the untrimmed line starts with
      "-A "; the importer does not care, the parity gate does. */
  datatype Line =
    | Blank
    | Commit
    | TableStart(table: Table)
    | ChainDeclaration
    | Append(tokens: seq<Token>, text: string, flush: bool)
    | Unsupported

  datatype Error = BadInteger | UnknownToken | UnsupportedDirective | MissingToken | MissingOption

  datatype Rule = Rule(
    table: Table, chain: Chain, line: nat, text: string,
    target: Target, protocol: string, source: string, dest: string,
    inIface: string, inNeg: bool, outIface: string, outNeg: bool,
    dports: seq<int>, sports: seq<int>, opts: map<Field, string>)

  // ---- Parsing --------------------------------------------------------------

  function NewRule(table: Table, chain: Chain, line: nat, text: string): Rule {
    Rule(table, chain, line, text, NoTarget, "", "", "", "", false, "", false, [], [], map[])
  }

  /** What an option does to the rule, given its value token's text. */
  function SetOption(rule: Rule, word: Word, neg: bool, value: string): Result<Rule, Error> {
    var bang := if neg then "!" else "";
    match word
    case In => Ok(rule.(inIface := value, inNeg := neg))
    case InLong => Ok(rule.(inIface := value, inNeg := neg))
    case Out => Ok(rule.(outIface := value, outNeg := neg))
    case OutLong => Ok(rule.(outIface := value, outNeg := neg))
    case Src => Ok(rule.(source := bang + value))
    case SrcLong => Ok(rule.(source := bang + value))
    case Dst => Ok(rule.(dest := bang + value))
    case DstLong => Ok(rule.(dest := bang + value))
    case Proto => Ok(rule.(protocol := value))
    case ProtoLong => Ok(rule.(protocol := value))
    case Jump => Ok(rule.(target := TargetOf(value)))
    case JumpLong => Ok(rule.(target := TargetOf(value)))
    case Goto => Ok(rule.(target := TargetOf(value)))
    case GotoLong => Ok(rule.(target := TargetOf(value)))
    case DPort =>
      var n := ParseInt(value);
      if n.Some? then Ok(rule.(dports := rule.dports + [n.value])) else Err(BadInteger)
    case DPorts =>
      var ports := ImportedPorts(value);
      if ports.Some? then Ok(rule.(dports := rule.dports + ports.value)) else Err(BadInteger)
    case SPort =>
      var n := ParseInt(value);
      if n.Some? then Ok(rule.(sports := rule.sports + [n.value])) else Err(BadInteger)
    case SPorts =>
      var ports := ImportedPorts(value);
      if ports.Some? then Ok(rule.(sports := rule.sports + ports.value)) else Err(BadInteger)
    case Named(field) => Ok(rule.(opts := rule.opts[field := value]))
    case Bang => Ok(rule)
    case Module => Ok(rule)
  }

  /** Read the tokens from position `i` on, a pending '!' being `neg`. */
  function ParseOptions(rule: Rule, tokens: seq<Token>, i: nat, neg: bool): Result<Rule, Error>
    decreases |tokens| - i
  {
    if i >= |tokens| then Ok(rule)
    else if tokens[i] == Opt(Bang) then ParseOptions(rule, tokens, i + 1, true)
    else if tokens[i] == Opt(Module) then ParseOptions(rule, tokens, i + 2, neg)
    else if WordOf(tokens[i]).None? then Err(UnknownToken)
    else if i + 1 >= |tokens| then Err(MissingToken)
    else
      var r := SetOption(rule, WordOf(tokens[i]).value, neg, tokens[i + 1].text);
      if r.Err? then r else ParseOptions(r.value, tokens, i + 2, false)
  }

  function ParseAppend(table: Table, tokens: seq<Token>, line: nat, text: string): Result<Rule, Error> {
    if |tokens| < 2 then Err(MissingToken)
    else ParseOptions(NewRule(table, ChainOf(tokens[1].text), line, text), tokens, 2, false)
  }

  method ReadAppend(table: Table, tokens: seq<Token>, line: nat, text: string) returns (result: Result<Rule, Error>)
    ensures result == ParseAppend(table, tokens, line, text)
  {
    if |tokens| < 2 { return Err(MissingToken); }
    var rule := NewRule(table, ChainOf(tokens[1].text), line, text);
    var i, neg := 2, false;
    while i < |tokens|
      invariant i >= 2
      invariant ParseAppend(table, tokens, line, text) == ParseOptions(rule, tokens, i, neg)
    {
      var token := tokens[i];
      if token == Opt(Bang) {
        neg, i := true, i + 1;
        continue;
      }
      if token == Opt(Module) {
        i := i + 2;
        continue;
      }
      var word := WordOf(token);
      if word.None? { return Err(UnknownToken); }
      if i + 1 >= |tokens| { return Err(MissingToken); }
      var r := SetOption(rule, word.value, neg, tokens[i + 1].text);
      if r.Err? { return r; }
      rule, neg, i := r.value, false, i + 2;
    }
    return Ok(rule);
  }

  datatype Parsed = Parsed(rules: seq<Rule>, table: Table)

  /** The rules of the first `n` lines and the table they leave open. */
  function ParseUpTo(lines: seq<Line>, n: nat): Result<Parsed, Error>
    requires n <= |lines|
  {
    if n == 0 then Ok(Parsed([], NoTable))
    else
      var before := ParseUpTo(lines, n - 1);
      if before.Err? then before
      else
        match lines[n - 1]
        case Blank => before
        case Commit => Ok(before.value.(table := NoTable))
        case TableStart(table) => Ok(before.value.(table := table))
        case ChainDeclaration => before
        case Unsupported => Err(UnsupportedDirective)
        case Append(tokens, text, _) =>
          var r := ParseAppend(before.value.table, tokens, n, text);
          if r.Err? then Err(r.error) else Ok(before.value.(rules := before.value.rules + [r.value]))
  }

  function ParseDump(lines: seq<Line>): Result<seq<Rule>, Error> {
    var parsed := ParseUpTo(lines, |lines|);
    if parsed.Err? then Err(parsed.error) else Ok(parsed.value.rules)
  }

  lemma {:induction false} ParseFails(lines: seq<Line>, n: nat, m: nat)
    requires n <= m <= |lines| && ParseUpTo(lines, n).Err?
    ensures ParseUpTo(lines, m) == ParseUpTo(lines, n)
  {
    if n < m { ParseFails(lines, n, m - 1); }
  }

  method ParseIptablesSave(lines: seq<Line>) returns (result: Result<seq<Rule>, Error>)
    ensures result == ParseDump(lines)
  {
    var rules, table := [], NoTable;
    for n := 0 to |lines|
      invariant ParseUpTo(lines, n) == Ok(Parsed(rules, table))
    {
      match lines[n]
      case Blank =>
      case Commit => table := NoTable;
      case TableStart(t) => table := t;
      case ChainDeclaration =>
      case Unsupported =>
        ParseFails(lines, n + 1, |lines|);
        return Err(UnsupportedDirective);
      case Append(tokens, text, _) =>
        var r := ReadAppend(table, tokens, n + 1, text);
        if r.Err? {
          ParseFails(lines, n + 1, |lines|);
          return Err(r.error);
        }
        rules := rules + [r.value];
    }
    return Ok(rules);
  }

  // ---- Classification -------------------------------------------------------

  datatype Category =
    | DockerNat | Conntrack | LoopbackAccept | DockerBridge | DropLog | ForwardPlumbing | DockerChain

  datatype RowKind = Meter | Accept | Drop | LoopbackGuard | AntiSpoof | InternalProtection

  datatype Verdict = Skip(cat: Category) | Row(kind: RowKind) | Aggregate(port: int) | Unmapped

  /** The option's value; absent and empty are the same here. */
  function Get(rule: Rule, field: Field): string {
    if field in rule.opts then rule.opts[field] else ""
  }

  predicate IsBridge(iface: string) {
    iface == "docker0" || StartsWith(iface, "br-")
  }

  /** INPUT lines the renderer hardcodes, whatever else they say. */
  function HardcodedInput(rule: Rule): Option<Category> {
    if Contains(Get(rule, CtState), "RELATED") || Contains(Get(rule, CtState), "ESTABLISHED") then Some(Conntrack)
    else if rule.inIface == "lo" && !rule.inNeg then Some(LoopbackAccept)
    else if !rule.inNeg && IsBridge(rule.inIface) then Some(DockerBridge)
    else if Get(rule, LogPrefix) != "" then Some(DropLog)
    else None
  }

  function ClassifyInput(rule: Rule): Verdict {
    var hardcoded := HardcodedInput(rule);
    if hardcoded.Some? then Skip(hardcoded.value)
    else if Get(rule, HlName) != "" then Row(Meter)
    else if rule.dports != [] && rule.target.ToAccept? then Row(Accept)
    else if rule.dports != [] && rule.target.ToDrop? then Row(Drop)
    else Unmapped
  }

  function ClassifyRaw(rule: Rule): Verdict {
    if rule.dest == "127.0.0.1/32" && rule.inNeg && rule.inIface == "lo" && rule.protocol == "tcp"
       && rule.dports != [] && rule.target.ToDrop? then Row(LoopbackGuard)
    else if rule.inNeg && rule.inIface != "" && rule.dest != "" && rule.target.ToDrop?
            && rule.protocol == "" && rule.dports == [] then Row(AntiSpoof)
    else Unmapped
  }

  function ClassifyForward(rule: Rule): Verdict {
    if rule.target.ToDocker? || IsBridge(rule.inIface) || IsBridge(rule.outIface)
       || Contains(Get(rule, CtState), "RELATED") then Skip(ForwardPlumbing)
    else Unmapped
  }

  function ClassifyDockerUser(rule: Rule): Result<Verdict, Error> {
    if Get(rule, CtOrig) == "" then Ok(Unmapped)
    else
      var n := ParseInt(Get(rule, CtOrig));
      if n.Some? then Ok(Aggregate(n.value)) else Err(BadInteger)
  }

  function Classify(rule: Rule): Result<Verdict, Error> {
    match rule.table
    case NatTable => Ok(Skip(DockerNat))
    case Raw => Ok(if rule.chain.Prerouting? then ClassifyRaw(rule) else Unmapped)
    case NoTable => Ok(Unmapped)
    case OtherTable(_) => Ok(Unmapped)
    case Filter =>
      match rule.chain
      case Input => Ok(ClassifyInput(rule))
      case Forward => Ok(ClassifyForward(rule))
      case DockerUser => ClassifyDockerUser(rule)
      case DockerOwned(_) => Ok(Skip(DockerChain))
      case Prerouting => Ok(Unmapped)
      case OtherChain(_) => Ok(Unmapped)
  }

  // ---- Rows -----------------------------------------------------------------

  datatype Family = V4 | V6

  datatype AddressType = AnyAddress | HostAddress | NetworkAddress | RangeAddress | OtherAddress(text: string)

  datatype ActionWord = AcceptWord | DropWord | RejectWord | LogWord | QueueWord | OtherWord(text: string)

  /** A console row as posted to the gateway and handed to the agent. */
  datatype ConsoleRow = ConsoleRow(
    name: string, sourceType: AddressType, sourceValue: Option<string>,
    destType: AddressType, destValue: Option<string>,
    protocol: string, ports: Option<string>, action: ActionWord, limit: Option<string>)

  datatype PlannedRow = PlannedRow(kind: RowKind, row: ConsoleRow)

  function BaseRow(name: string, protocol: string, ports: Option<string>, action: ActionWord): ConsoleRow {
    ConsoleRow(name, AnyAddress, None, AnyAddress, None, protocol, ports, action, None)
  }

  function Suffix(family: Family): string {
    if family.V6? then " (ipv6)" else ""
  }

  function ProtocolOf(rule: Rule): string {
    if rule.protocol == "" then "any" else rule.protocol
  }

  function VerbFor(kind: RowKind): string {
    if kind.Accept? then "allow" else "drop"
  }

  function PortName(verb: string, rule: Rule, port: int, family: Family): string {
    verb + " " + ProtocolOf(rule) + "/" + (PrintInt(port) + Suffix(family))
  }

  function AntiSpoofName(rule: Rule): string {
    "anti-spoof" + (" " + Partition(rule.dest, '/').0 + " via " + rule.inIface)
  }

  /** The row of one accept or drop port. */
  function PortRow(kind: RowKind, rule: Rule, port: int, family: Family): PlannedRow
    requires kind.Accept? || kind.Drop?
  {
    PlannedRow(kind, BaseRow(PortName(VerbFor(kind), rule, port, family), ProtocolOf(rule), Some(PrintInt(port)),
                             if kind.Accept? then AcceptWord else DropWord))
  }

  function PortRowOf(kind: RowKind, rule: Rule, family: Family): int -> seq<PlannedRow>
    requires kind.Accept? || kind.Drop?
  {
    port => [PortRow(kind, rule, port, family)]
  }

  /** One row per destination port. */
  function PortRows(kind: RowKind, rule: Rule, ports: seq<int>, family: Family): seq<PlannedRow>
    requires kind.Accept? || kind.Drop?
  {
    Flat(PortRowOf(kind, rule, family), ports)
  }

  function MeterLimit(rule: Rule): string
    requires HlRate in rule.opts
  {
    ReplaceAll(rule.opts[HlRate], "/min", "/minute") + " burst "
    + (if HlBurst in rule.opts then rule.opts[HlBurst] else "5") + " packets"
  }

  function BuildRows(rule: Rule, kind: RowKind, family: Family): Result<seq<PlannedRow>, Error>
    requires !kind.InternalProtection?
    requires kind.LoopbackGuard? ==> rule.dports != []
  {
    match kind
    case Meter =>
      if HlRate !in rule.opts then Err(MissingOption)
      else Ok([PlannedRow(Meter, BaseRow(Get(rule, HlName), ProtocolOf(rule), Some(PortText(rule.dports)), DropWord)
                                 .(limit := Some(MeterLimit(rule))))])
    case LoopbackGuard =>
      var port := PrintInt(rule.dports[0]);
      Ok([PlannedRow(LoopbackGuard, BaseRow("loopback-guard tcp/" + port, "tcp", Some(port), DropWord)
                                    .(destType := HostAddress, destValue := Some("127.0.0.1")))])
    case AntiSpoof =>
      Ok([PlannedRow(AntiSpoof,
                     BaseRow(AntiSpoofName(rule), "any", None, DropWord)
                     .(destType := NetworkAddress, destValue := Some(rule.dest)))])
    case Accept => Ok(PortRows(Accept, rule, rule.dports, family))
    case Drop => Ok(PortRows(Drop, rule, rule.dports, family))
  }

  const INTERNAL_NAME := "docker-" + "internal-port" + "-protection"

  ghost function Pick<T(!new)>(s: set<T>): (x: T)
    requires |s| > 0
    ensures x in s
  {
    var x :| x in s;
    x
  }

  ghost function Least(ports: set<int>): (m: int)
    requires |ports| > 0
    ensures m in ports && forall p :: p in ports ==> m <= p
  {
    var x := Pick(ports);
    var others := ports - {x};
    assert ports == others + {x};
    if |others| == 0 then x
    else
      var m := Least(others);
      if m <= x then m else x
  }

  predicate IsLeast(ports: set<int>, m: int) {
    m in ports && forall p :: p in ports ==> m <= p
  }

  lemma LeastExists(ports: set<int>)
    requires |ports| > 0
    ensures exists m :: IsLeast(ports, m)
  {
    assert IsLeast(ports, Least(ports));
  }

  /** The set's elements in increasing order. */
  function SortedPorts(ports: set<int>): (sorted: seq<int>)
    ensures forall p :: p in sorted <==> p in ports
    ensures forall i, j :: 0 <= i < j < |sorted| ==> sorted[i] < sorted[j]
  {
    if |ports| == 0 then []
    else
      LeastExists(ports);
      var m :| m in ports && IsLeast(ports, m);
      [m] + SortedPorts(ports - {m})
  }

  // ---- The plan -------------------------------------------------------------

  datatype Origin = FromFamily(family: Family) | FromAggregate

  datatype SkipNote = SkipNote(family: Family, line: nat, text: string)

  /** The contents of a plan, as a value. */
  datatype PlanState = PlanState(
    rowMeta: seq<PlannedRow>, rowKinds: map<(Origin, RowKind), nat>,
    skips: map<Category, seq<SkipNote>>, unmapped: seq<SkipNote>,
    internalPorts: set<int>, internalLines: nat, natLines: nat, masquerade: map<string, nat>)

  const EMPTY_PLAN := PlanState([], map[], map[], [], {}, 0, 0, map[])

  function Bump<K>(counts: map<K, nat>, key: K): map<K, nat> {
    counts[key := (if key in counts then counts[key] else 0) + 1]
  }

  function AddSkip(st: PlanState, rule: Rule, family: Family, cat: Category): PlanState {
    var notes := if cat in st.skips then st.skips[cat] else [];
    st.(skips := st.skips[cat := notes + [SkipNote(family, rule.line, rule.text)]],
        natLines := if cat.DockerNat? then st.natLines + 1 else st.natLines,
        masquerade := if cat.DockerNat? && Contains(rule.text, "MASQUERADE") then Bump(st.masquerade, rule.text)
                      else st.masquerade)
  }

  function AddRow(st: PlanState, row: PlannedRow, origin: Origin): PlanState {
    st.(rowMeta := st.rowMeta + [row], rowKinds := Bump(st.rowKinds, (origin, row.kind)))
  }

  function BumpKinds(counts: map<(Origin, RowKind), nat>, rows: seq<PlannedRow>, origin: Origin)
    : map<(Origin, RowKind), nat>
  {
    if rows == [] then counts
    else Bump(BumpKinds(counts, rows[..|rows| - 1], origin), (origin, rows[|rows| - 1].kind))
  }

  function AddRows(st: PlanState, rows: seq<PlannedRow>, origin: Origin): PlanState {
    st.(rowMeta := st.rowMeta + rows, rowKinds := BumpKinds(st.rowKinds, rows, origin))
  }

  /** Classification names only the five line kinds, and port kinds only with a port. */
  lemma ClassifiedKinds(rule: Rule)
    ensures Classify(rule).Ok? ==> LineVerdict(rule, Classify(rule).value)
  {
  }

  predicate LineVerdict(rule: Rule, verdict: Verdict) {
    verdict.Row? ==>
      && !verdict.kind.InternalProtection?
      && (verdict.kind.LoopbackGuard? || verdict.kind.Accept? || verdict.kind.Drop? ==> rule.dports != [])
  }

  /** One classified rule's contribution to the plan. */
  function ExtendBy(st: PlanState, rule: Rule, family: Family, verdict: Verdict): Result<PlanState, Error>
    requires LineVerdict(rule, verdict)
  {
    match verdict
    case Unmapped => Ok(st.(unmapped := st.unmapped + [SkipNote(family, rule.line, rule.text)]))
    case Skip(cat) => Ok(AddSkip(st, rule, family, cat))
    case Aggregate(port) =>
      Ok(st.(internalPorts := st.internalPorts + {port}, internalLines := st.internalLines + 1))
    case Row(kind) =>
      var rows := BuildRows(rule, kind, family);
      if rows.Err? then Err(rows.error) else Ok(AddRows(st, rows.value, FromFamily(family)))
  }

  function Extend(st: PlanState, rule: Rule, family: Family): Result<PlanState, Error> {
    ClassifiedKinds(rule);
    var verdict := Classify(rule);
    if verdict.Err? then Err(verdict.error) else ExtendBy(st, rule, family, verdict.value)
  }

  function ExtendAll(st: PlanState, rules: seq<Rule>, family: Family): Result<PlanState, Error> {
    if rules == [] then Ok(st)
    else
      var before := ExtendAll(st, rules[..|rules| - 1], family);
      if before.Err? then before else Extend(before.value, rules[|rules| - 1], family)
  }

  function InternalRow(ports: set<int>): PlannedRow {
    PlannedRow(InternalProtection,
               BaseRow(INTERNAL_NAME, "tcp", Some(PortText(SortedPorts(ports))), DropWord))
  }

  function Finish(st: PlanState): PlanState {
    if st.internalPorts == {} then st else AddRow(st, InternalRow(st.internalPorts), FromAggregate)
  }

  /** The plan for two captures. */
  function PlanOf(v4: seq<Line>, v6: seq<Line>): Result<PlanState, Error> {
    var rules4 := ParseDump(v4);
    if rules4.Err? then Err(rules4.error)
    else
      var st4 := ExtendAll(EMPTY_PLAN, rules4.value, V4);
      if st4.Err? then st4
      else
        var rules6 := ParseDump(v6);
        if rules6.Err? then Err(rules6.error)
        else
          var st6 := ExtendAll(st4.value, rules6.value, V6);
          if st6.Err? then st6 else Ok(Finish(st6.value))
  }

  class Plan {
    var rowMeta: seq<PlannedRow>
    var rowKinds: map<(Origin, RowKind), nat>
    var skips: map<Category, seq<SkipNote>>
    var unmapped: seq<SkipNote>
    var internalPorts: set<int>
    var internalLines: nat
    var natLines: nat
    var masquerade: map<string, nat>

    function State(): PlanState
      reads this
    {
      PlanState(rowMeta, rowKinds, skips, unmapped, internalPorts, internalLines, natLines, masquerade)
    }

    constructor ()
      ensures State() == EMPTY_PLAN
    {
      rowMeta, rowKinds, skips, unmapped := [], map[], map[], [];
      internalPorts, internalLines, natLines, masquerade := {}, 0, 0, map[];
    }

    method ClassifyInto(rule: Rule, family: Family) returns (error: Option<Error>)
      modifies this
      ensures error.None? ==> Extend(old(State()), rule, family) == Ok(State())
      ensures error.Some? ==> Extend(old(State()), rule, family) == Err(error.value) && State() == old(State())
    {
      var verdict := Classify(rule);
      if verdict.Err? { return Some(verdict.error); }
      match verdict.value
      case Unmapped =>
        unmapped := unmapped + [SkipNote(family, rule.line, rule.text)];
        return None;
      case Skip(cat) =>
        if cat.DockerNat? {
          natLines := natLines + 1;
          if Contains(rule.text, "MASQUERADE") { masquerade := Bump(masquerade, rule.text); }
        }
        skips := skips[cat := (if cat in skips then skips[cat] else []) + [SkipNote(family, rule.line, rule.text)]];
        return None;
      case Aggregate(port) =>
        internalPorts := internalPorts + {port};
        internalLines := internalLines + 1;
        return None;
      case Row(kind) =>
        ClassifiedKinds(rule);
        var rows := BuildRows(rule, kind, family);
        if rows.Err? { return Some(rows.error); }
        AddPlannedRows(rows.value, FromFamily(family));
        return None;
    }

    method AddPlannedRows(rows: seq<PlannedRow>, origin: Origin)
      modifies this`rowMeta, this`rowKinds
      ensures State() == AddRows(old(State()), rows, origin)
    {
      for i := 0 to |rows|
        invariant rowMeta == old(rowMeta) + rows[..i]
        invariant rowKinds == BumpKinds(old(rowKinds), rows[..i], origin)
      {
        assert rows[..i + 1][..i] == rows[..i];
        AddPlannedRow(rows[i], origin);
      }
      assert rows[..|rows|] == rows;
    }

    method AddPlannedRow(row: PlannedRow, origin: Origin)
      modifies this`rowMeta, this`rowKinds
      ensures State() == AddRow(old(State()), row, origin)
    {
      rowMeta := rowMeta + [row];
      rowKinds := Bump(rowKinds, (origin, row.kind));
    }

    method ClassifyAll(rules: seq<Rule>, family: Family) returns (error: Option<Error>)
      modifies this
      ensures error.None? ==> ExtendAll(old(State()), rules, family) == Ok(State())
      ensures error.Some? ==> ExtendAll(old(State()), rules, family) == Err(error.value)
    {
      for i := 0 to |rules|
        invariant ExtendAll(old(State()), rules[..i], family) == Ok(State())
      {
        assert rules[..i + 1][..i] == rules[..i];
        error := ClassifyInto(rules[i], family);
        if error.Some? {
          ExtendFails(old(State()), rules, i + 1, family);
          return;
        }
      }
      assert rules[..|rules|] == rules;
      return None;
    }
  }

  lemma {:induction false} ExtendFails(st: PlanState, rules: seq<Rule>, n: nat, family: Family)
    requires n <= |rules| && ExtendAll(st, rules[..n], family).Err?
    ensures ExtendAll(st, rules, family) == ExtendAll(st, rules[..n], family)
    decreases |rules|
  {
    if n < |rules| {
      assert rules[..|rules| - 1][..n] == rules[..n];
      ExtendFails(st, rules[..|rules| - 1], n, family);
    } else {
      assert rules[..n] == rules;
    }
  }

  method BuildPlan(v4: seq<Line>, v6: seq<Line>) returns (plan: Plan, error: Option<Error>)
    ensures fresh(plan)
    ensures error.None? ==> PlanOf(v4, v6) == Ok(plan.State())
    ensures error.Some? ==> PlanOf(v4, v6) == Err(error.value)
  {
    plan := new Plan();
    var rules4 := ParseIptablesSave(v4);
    if rules4.Err? { return plan, Some(rules4.error); }
    error := plan.ClassifyAll(rules4.value, V4);
    if error.Some? { return; }
    var rules6 := ParseIptablesSave(v6);
    if rules6.Err? { return plan, Some(rules6.error); }
    error := plan.ClassifyAll(rules6.value, V6);
    if error.Some? { return; }
    if plan.internalPorts != {} {
      plan.AddPlannedRow(InternalRow(plan.internalPorts), FromAggregate);
    }
  }
}
