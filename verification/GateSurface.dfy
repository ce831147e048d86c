/** The rest of what the gate reads off a dump, its meters, guards, protected ports and
    anti-spoof lines, against what the importer makes of the same lines. */
module GateSurface {
  import opened Wrappers
  import opened Text
  import opened LegacyImport
  import opened ParityGate
  import opened ImportedRules

  /** No value reads like the option. */
  predicate Clear(pairs: seq<OptionPair>, word: Word) {
    forall i :: 0 <= i < |pairs| ==> pairs[i].value != Spelling(word)
  }

  lemma FoundClear(chain: string, pairs: seq<OptionPair>, word: Word)
    requires !word.Bang? && IsName(chain) && Clear(pairs, word)
    ensures Find(LineTokens(chain, pairs), word) == ParityGate.Lookup(pairs, word)
  {
    FindInLine(chain, pairs, word);
    SeenIsLookup(pairs, word);
  }

  predicate ShortOnly(pairs: seq<OptionPair>) {
    forall i :: 0 <= i < |pairs| ==> IsShort(pairs[i].word)
  }

  lemma LineFolds(table: Table, chain: string, pairs: seq<OptionPair>, line: nat, text: string)
    requires ShortOnly(pairs)
    ensures ParseAppend(table, LineTokens(chain, pairs), line, text)
            == FoldPairs(NewRule(table, ChainOf(chain), line, text), pairs, false)
  {
    var tokens := LineTokens(chain, pairs);
    assert tokens[2..] == Tokens(pairs) && tokens[1].text == chain;
    ParseIsFold(NewRule(table, ChainOf(chain), line, text), tokens, 2, pairs, false);
  }

  /** The destination the importer keeps: the option's value, with a '!' if it is negated. */
  lemma {:induction false} FoldDest(rule: Rule, pairs: seq<OptionPair>, neg: bool)
    requires FoldPairs(rule, pairs, neg).Ok? && Once(pairs, Dst) && ShortOnly(pairs)
    ensures var dest, given := FoldPairs(rule, pairs, neg).value.dest, ParityGate.Lookup(pairs, Dst);
            if given.None? then dest == rule.dest else dest == given.value || dest == "!" + given.value
    decreases |pairs|
  {
    if pairs != [] {
      var p := pairs[0];
      FoldStep(rule, pairs, neg);
      if p.word.Module? {
        FoldDest(rule, pairs[1..], neg || p.neg);
      } else {
        SetDest(rule, p.word, neg || p.neg, p.value);
        FoldDest(SetOption(rule, p.word, neg || p.neg, p.value).value, pairs[1..], false);
      }
    }
  }

  lemma SetDest(rule: Rule, word: Word, neg: bool, value: string)
    requires SetOption(rule, word, neg, value).Ok? && !word.DstLong?
    ensures SetOption(rule, word, neg, value).value.dest
            == if word.Dst? then (if neg then "!" + value else value) else rule.dest
  {
    assert [] + value == value;
  }

  // ---- What the importer reads off a line -------------------------------------------

  /** The first pair with this word. */
  function PairFor(pairs: seq<OptionPair>, word: Word): Option<OptionPair> {
    if pairs == [] then None
    else if pairs[0].word == word then Some(pairs[0])
    else PairFor(pairs[1..], word)
  }

  /** Each option at most once, in its short form, and no module negated. */
  predicate Orderly(pairs: seq<OptionPair>) {
    && ShortOnly(pairs)
    && (forall word :: word in [In, Out, Src, Dst, Proto, Jump] ==> Once(pairs, word))
    && forall i :: 0 <= i < |pairs| && pairs[i].word.Module? ==> !pairs[i].neg
  }

  function Negated(p: OptionPair): string {
    if p.neg then "!" + p.value else p.value
  }

  /** The rule carries what the pair says, or what another rule did when there is no pair. */
  predicate TextBy(p: Option<OptionPair>, text: string, otherwise: string) {
    if p.Some? then text == Negated(p.value) else text == otherwise
  }

  predicate InterfaceBy(p: Option<OptionPair>, iface: string, neg: bool, iface0: string, neg0: bool) {
    if p.Some? then iface == p.value.value && neg == p.value.neg else iface == iface0 && neg == neg0
  }

  predicate FieldsBy(rule: Rule, pairs: seq<OptionPair>, start: Rule) {
    && InterfaceBy(PairFor(pairs, In), rule.inIface, rule.inNeg, start.inIface, start.inNeg)
    && InterfaceBy(PairFor(pairs, Out), rule.outIface, rule.outNeg, start.outIface, start.outNeg)
    && TextBy(PairFor(pairs, Src), rule.source, start.source) && TextBy(PairFor(pairs, Dst), rule.dest, start.dest)
    && (if PairFor(pairs, Proto).Some? then rule.protocol == PairFor(pairs, Proto).value.value
        else rule.protocol == start.protocol)
    && (if PairFor(pairs, Jump).Some? then rule.target == TargetOf(PairFor(pairs, Jump).value.value)
        else rule.target == start.target)
  }

  lemma SetFields(rule: Rule, p: OptionPair)
    requires IsShort(p.word) && !p.word.Module? && SetOption(rule, p.word, p.neg, p.value).Ok?
    ensures FieldsBy(SetOption(rule, p.word, p.neg, p.value).value, [p], rule)
  {
    OnePair(p, In);
    OnePair(p, Out);
    OnePair(p, Src);
    OnePair(p, Dst);
    OnePair(p, Proto);
    OnePair(p, Jump);
    if p.word.Src? || p.word.Dst? {
      assert [] + p.value == p.value;
    } else {
      SetOthers(rule, p);
    }
  }

  lemma OnePair(p: OptionPair, word: Word)
    ensures PairFor([p], word) == if p.word == word then Some(p) else None
  {
    assert [p][1..] == [];
  }

  /** An option that is no end point leaves the end points alone. */
  lemma SetOthers(rule: Rule, p: OptionPair)
    requires IsShort(p.word) && !p.word.Src? && !p.word.Dst? && SetOption(rule, p.word, p.neg, p.value).Ok?
    ensures var r := SetOption(rule, p.word, p.neg, p.value).value;
            && r.source == rule.source && r.dest == rule.dest
            && (if p.word.In? then r.inIface == p.value && r.inNeg == p.neg else r.inIface == rule.inIface && r.inNeg == rule.inNeg)
            && (if p.word.Out? then r.outIface == p.value && r.outNeg == p.neg
                else r.outIface == rule.outIface && r.outNeg == rule.outNeg)
            && (if p.word.Proto? then r.protocol == p.value else r.protocol == rule.protocol)
            && (if p.word.Jump? then r.target == TargetOf(p.value) else r.target == rule.target)
  {
  }

  lemma {:induction false} OnceNone(pairs: seq<OptionPair>, word: Word)
    ensures PairFor(pairs, word).None? <==> ParityGate.Lookup(pairs, word).None?
    ensures PairFor(pairs, word).Some? ==> ParityGate.Lookup(pairs, word) == Some(PairFor(pairs, word).value.value)
  {
    if pairs != [] { OnceNone(pairs[1..], word); }
  }

  lemma OrderlyRest(pairs: seq<OptionPair>)
    requires Orderly(pairs) && pairs != []
    ensures Orderly(pairs[1..])
    ensures pairs[0].word in [In, Out, Src, Dst, Proto, Jump] ==> PairFor(pairs[1..], pairs[0].word).None?
  {
    forall word | word in [In, Out, Src, Dst, Proto, Jump] ensures Once(pairs[1..], word) { assert Once(pairs, word); }
    OnceNone(pairs[1..], pairs[0].word);
    if pairs[0].word in [In, Out, Src, Dst, Proto, Jump] { assert Once(pairs, pairs[0].word); }
  }

  lemma FieldsMore(rule: Rule, next: Rule, last: Rule, pairs: seq<OptionPair>)
    requires pairs != [] && FieldsBy(next, [pairs[0]], rule) && FieldsBy(last, pairs[1..], next)
    requires pairs[0].word in [In, Out, Src, Dst, Proto, Jump] ==> PairFor(pairs[1..], pairs[0].word).None?
    ensures FieldsBy(last, pairs, rule)
  {
    assert [pairs[0]][1..] == [];
    assert PairFor([], In).None? && PairFor([], Out).None? && PairFor([], Src).None? && PairFor([], Dst).None?;
    assert PairFor([], Proto).None? && PairFor([], Jump).None?;
  }

  lemma {:induction false} FoldFields(rule: Rule, pairs: seq<OptionPair>)
    requires Orderly(pairs) && FoldPairs(rule, pairs, false).Ok?
    ensures FieldsBy(FoldPairs(rule, pairs, false).value, pairs, rule)
    decreases |pairs|
  {
    if pairs != [] {
      var p := pairs[0];
      OrderlyRest(pairs);
      FoldStep(rule, pairs, false);
      if p.word.Module? {
        FoldFields(rule, pairs[1..]);
      } else {
        var next := SetOption(rule, p.word, p.neg, p.value).value;
        SetFields(rule, p);
        FoldFields(next, pairs[1..]);
        FieldsMore(rule, next, FoldPairs(next, pairs[1..], false).value, pairs);
      }
    }
  }

  /** The rule of every orderly line, in every table and chain: interfaces with their negation,
      end points with a '!' where they are negated, protocol and target as the options say, and
      nothing where there is no option. */
  lemma ParsedFields(table: Table, chain: string, pairs: seq<OptionPair>, line: nat, text: string, rule: Rule)
    requires Orderly(pairs) && ParseAppend(table, LineTokens(chain, pairs), line, text) == Ok(rule)
    ensures rule.table == table && rule.chain == ChainOf(chain)
    ensures FieldsBy(rule, pairs, Rule(table, ChainOf(chain), line, text, NoTarget, "", "", "", "", false, "", false, [], [], map[]))
  {
    LineFolds(table, chain, pairs, line, text);
    FoldFields(NewRule(table, ChainOf(chain), line, text), pairs);
    FoldPlace(NewRule(table, ChainOf(chain), line, text), pairs, false);
  }

  // ---- Which lines become rules, and in which table -----------------------------------

  /** No table is opened or closed by these lines. */
  predicate Quiet(lines: seq<Line>, from: nat, to: nat)
    requires to <= |lines|
  {
    forall k :: from <= k < to ==> !lines[k].Commit? && !lines[k].TableStart?
  }

  /** The table open at line `n`: the last one that was opened, and none before the first
      one or after a COMMIT. */
  ghost predicate OpenAt(lines: seq<Line>, n: nat, table: Table)
    requires n <= |lines|
  {
    || (Quiet(lines, 0, n) && table == NoTable)
    || exists j :: OpenSince(lines, j, n, table)
  }

  predicate OpenSince(lines: seq<Line>, j: nat, n: nat, table: Table)
    requires n <= |lines|
  {
    j < n && Quiet(lines, j + 1, n) && ((lines[j].Commit? && table == NoTable) || lines[j] == TableStart(table))
  }

  /** A rule is its line's: number, text, chain, and the table open there. */
  ghost predicate OfLine(rule: Rule, lines: seq<Line>) {
    && 1 <= rule.line <= |lines|
    && var line := lines[rule.line - 1];
       line.Append? && |line.tokens| >= 2 && rule.text == line.text && rule.chain == ChainOf(line.tokens[1].text)
       && OpenAt(lines, rule.line - 1, rule.table)
  }

  predicate Rising(rules: seq<Rule>, n: nat) {
    && (forall i :: 0 <= i < |rules| ==> rules[i].line <= n)
    && forall i, j :: 0 <= i < j < |rules| ==> rules[i].line < rules[j].line
  }

  predicate HasRule(rules: seq<Rule>, number: nat) {
    exists i :: 0 <= i < |rules| && rules[i].line == number
  }

  predicate NoneMissing(rules: seq<Rule>, lines: seq<Line>, n: nat)
    requires n <= |lines|
  {
    forall k :: 0 <= k < n && lines[k].Append? ==> HasRule(rules, k + 1)
  }

  /** One rule per rule line, in order. */
  ghost predicate RulesOf(rules: seq<Rule>, lines: seq<Line>, n: nat)
    requires n <= |lines|
  {
    && (forall i :: 0 <= i < |rules| ==> OfLine(rules[i], lines))
    && Rising(rules, n) && NoneMissing(rules, lines, n)
  }

  lemma OpenMore(lines: seq<Line>, n: nat, table: Table)
    requires n < |lines| && OpenAt(lines, n, table)
    ensures !lines[n].Commit? && !lines[n].TableStart? ==> OpenAt(lines, n + 1, table)
    ensures lines[n].Commit? ==> OpenAt(lines, n + 1, NoTable)
    ensures lines[n].TableStart? ==> OpenAt(lines, n + 1, lines[n].table)
  {
    if lines[n].Commit? {
      assert OpenSince(lines, n, n + 1, NoTable);
    } else if lines[n].TableStart? {
      assert OpenSince(lines, n, n + 1, lines[n].table);
    } else if !Quiet(lines, 0, n) || table != NoTable {
      var j :| OpenSince(lines, j, n, table);
      assert OpenSince(lines, j, n + 1, table);
    }
  }

  lemma StillHas(rules: seq<Rule>, rule: Rule, number: nat)
    ensures HasRule(rules + [rule], number) <==> HasRule(rules, number) || rule.line == number
  {
    var all := rules + [rule];
    if HasRule(rules, number) {
      var i :| 0 <= i < |rules| && rules[i].line == number;
      assert all[i].line == number;
    }
    if rule.line == number { assert all[|rules|].line == number; }
  }

  lemma OneMoreRule(rules: seq<Rule>, rule: Rule, lines: seq<Line>, n: nat)
    requires n < |lines| && lines[n].Append? && RulesOf(rules, lines, n)
    requires rule.line == n + 1 && OfLine(rule, lines)
    ensures RulesOf(rules + [rule], lines, n + 1)
  {
    forall k | 0 <= k < n + 1 && lines[k].Append? ensures HasRule(rules + [rule], k + 1) {
      StillHas(rules, rule, k + 1);
    }
  }

  lemma ParsedOfLine(lines: seq<Line>, n: nat, table: Table, rule: Rule)
    requires n < |lines| && lines[n].Append? && OpenAt(lines, n, table)
    requires ParseAppend(table, lines[n].tokens, n + 1, lines[n].text) == Ok(rule)
    ensures rule.line == n + 1 && OfLine(rule, lines)
  {
    var tokens, text := lines[n].tokens, lines[n].text;
    OptionsKeepPlace(NewRule(table, ChainOf(tokens[1].text), n + 1, text), tokens, 2, false);
  }

  lemma {:induction false} RulesUpTo(lines: seq<Line>, n: nat)
    requires n <= |lines| && ParseUpTo(lines, n).Ok?
    ensures RulesOf(ParseUpTo(lines, n).value.rules, lines, n) && OpenAt(lines, n, ParseUpTo(lines, n).value.table)
  {
    if n > 0 {
      RulesUpTo(lines, n - 1);
      var before, line := ParseUpTo(lines, n - 1).value, lines[n - 1];
      OpenMore(lines, n - 1, before.table);
      if line.Append? {
        var rule := ParseAppend(before.table, line.tokens, n, line.text).value;
        ParsedOfLine(lines, n - 1, before.table, rule);
        OneMoreRule(before.rules, rule, lines, n - 1);
      }
    }
  }

  /** A capture that parses becomes one rule per rule line, in order and none left out, each
      in the table open at its line: one outside every table block never inherits one. */
  lemma RulesOfCapture(lines: seq<Line>)
    requires ParseDump(lines).Ok?
    ensures RulesOf(ParseDump(lines).value, lines, |lines|)
  {
    RulesUpTo(lines, |lines|);
  }

  // ---- PREROUTING lines -------------------------------------------------------------

  /** What the importer's rule holds of such a line. */
  predicate RawHolds(rule: Rule, pairs: seq<OptionPair>) {
    && (rule.target == ToDrop <==> ParityGate.Lookup(pairs, Jump) == Some("DROP"))
    && PortsNamed(pairs) == Some(rule.dports)
    && var given := ParityGate.Lookup(pairs, Dst);
       if given.None? then rule.dest == "" else rule.dest == given.value || rule.dest == "!" + given.value
  }

  lemma RawFolds(pairs: seq<OptionPair>, line: nat, text: string, rule: Rule)
    requires ShortOnly(pairs) && Once(pairs, Jump) && Once(pairs, Dst) && OnePortOption(pairs)
    requires ParseAppend(Raw, LineTokens("PREROUTING", pairs), line, text) == Ok(rule)
    ensures RawHolds(rule, pairs)
  {
    LineFolds(Raw, "PREROUTING", pairs, line, text);
    FreshRaw(NewRule(Raw, ChainOf("PREROUTING"), line, text), pairs, rule);
  }

  lemma FreshRaw(start: Rule, pairs: seq<OptionPair>, rule: Rule)
    requires ShortOnly(pairs) && Once(pairs, Jump) && Once(pairs, Dst) && OnePortOption(pairs)
    requires start.dest == "" && start.target.NoTarget? && start.dports == [] && FoldPairs(start, pairs, false) == Ok(rule)
    ensures RawHolds(rule, pairs)
  {
    FoldDest(start, pairs, false);
    FoldTarget(start, pairs, false);
    FoldPorts(start, pairs, false);
    TargetSays(ParityGate.Lookup(pairs, Jump), rule.target);
    assert rule.dports == PortsNamed(pairs).value;
  }

  lemma PreroutingLine(st: Surface, pairs: seq<OptionPair>, text: string, family: Family)
    ensures AddLine(st, Append(LineTokens("PREROUTING", pairs), text, true), family)
            == AddPrerouting(st, LineTokens("PREROUTING", pairs))
  {
  }

  /** The gate collects the port of a guard line the importer knows, when it stands in
      `--dport`; in `--dports` it does not look for it. Other anti-spoof lines it counts, but
      for those whose destination is the loopback address. */
  lemma PreroutingRead(st: Surface, pairs: seq<OptionPair>, line: nat, text: string, rule: Rule, family: Family)
    requires ShortOnly(pairs) && Once(pairs, Jump) && Once(pairs, Dst) && OnePortOption(pairs)
    requires Clear(pairs, Jump) && Clear(pairs, Dst) && Clear(pairs, DPort)
    requires ParseAppend(Raw, LineTokens("PREROUTING", pairs), line, text) == Ok(rule)
    ensures IsA(rule, RowKind.LoopbackGuard) ==>
              AddLine(st, Append(LineTokens("PREROUTING", pairs), text, true), family)
              == Ok(if ParityGate.Lookup(pairs, DPort).Some? then st.(guards := st.guards + {rule.dports[0]}) else st)
    ensures IsA(rule, RowKind.AntiSpoof) && ParityGate.Lookup(pairs, Dst) != Some("") ==>
              AddLine(st, Append(LineTokens("PREROUTING", pairs), text, true), family)
              == Ok(if ParityGate.Lookup(pairs, Dst) == Some("127.0.0.1/32") then st
                    else st.(antiSpoof := st.antiSpoof + 1))
  {
    var tokens := LineTokens("PREROUTING", pairs);
    PreroutingLine(st, pairs, text, family);
    RawFolds(pairs, line, text, rule);
    FoundClear("PREROUTING", pairs, Jump);
    FoundClear("PREROUTING", pairs, Dst);
    FoundClear("PREROUTING", pairs, DPort);
    if IsA(rule, RowKind.LoopbackGuard) { GuardRead(st, tokens, pairs, rule); }
    if IsA(rule, RowKind.AntiSpoof) { SpoofRead(st, tokens, pairs, rule); }
  }

  predicate FindsRaw(tokens: seq<Token>, pairs: seq<OptionPair>) {
    && Find(tokens, Jump) == ParityGate.Lookup(pairs, Jump) && Find(tokens, Dst) == ParityGate.Lookup(pairs, Dst)
    && Find(tokens, DPort) == ParityGate.Lookup(pairs, DPort)
  }

  lemma GuardRead(st: Surface, tokens: seq<Token>, pairs: seq<OptionPair>, rule: Rule)
    requires RawHolds(rule, pairs) && FindsRaw(tokens, pairs) && IsA(rule, RowKind.LoopbackGuard)
    ensures AddPrerouting(st, tokens)
            == Ok(if ParityGate.Lookup(pairs, DPort).Some? then st.(guards := st.guards + {rule.dports[0]}) else st)
  {
    LoopbackGiven(rule, pairs);
    assert ParseInt("").None?;
  }

  lemma LoopbackGiven(rule: Rule, pairs: seq<OptionPair>)
    requires RawHolds(rule, pairs) && rule.dest == "127.0.0.1/32"
    ensures ParityGate.Lookup(pairs, Dst) == Some("127.0.0.1/32")
  {
    assert rule.dest[0] == '1';
    assert rule.dest != "!" + OrEmpty(ParityGate.Lookup(pairs, Dst));
  }

  lemma SpoofRead(st: Surface, tokens: seq<Token>, pairs: seq<OptionPair>, rule: Rule)
    requires RawHolds(rule, pairs) && FindsRaw(tokens, pairs) && IsA(rule, RowKind.AntiSpoof)
    ensures ParityGate.Lookup(pairs, Dst) != Some("") ==>
              AddPrerouting(st, tokens)
              == Ok(if ParityGate.Lookup(pairs, Dst) == Some("127.0.0.1/32") then st
                    else st.(antiSpoof := st.antiSpoof + 1))
  {
    assert ParityGate.Lookup(pairs, DPort).None?;
    assert ParityGate.Lookup(pairs, Dst).Some?;
  }

  // ---- DOCKER-USER lines ----------------------------------------------------------------

  lemma DockerUserLine(st: Surface, pairs: seq<OptionPair>, text: string, family: Family)
    ensures AddLine(st, Append(LineTokens("DOCKER-USER", pairs), text, true), family)
            == AddDockerUser(st, LineTokens("DOCKER-USER", pairs))
  {
    NamesAre("DOCKER-USER");
  }

  /** Of the ports the importer protects the gate demands those whose line drops. */
  lemma ProtectionRead(st: Surface, pairs: seq<OptionPair>, line: nat, text: string, rule: Rule, port: int, family: Family)
    requires ShortOnly(pairs) && Once(pairs, Jump) && Once(pairs, Named(CtOrig))
    requires Clear(pairs, Jump) && Clear(pairs, Named(CtOrig))
    requires ParseAppend(Filter, LineTokens("DOCKER-USER", pairs), line, text) == Ok(rule)
    requires Classify(rule) == Ok(Aggregate(port))
    ensures PortProtected(rule) == {port}
    ensures AddLine(st, Append(LineTokens("DOCKER-USER", pairs), text, true), family)
            == Ok(if rule.target == ToDrop then st.(internal := st.internal + {port}) else st)
  {
    var start := NewRule(Filter, ChainOf("DOCKER-USER"), line, text);
    LineFolds(Filter, "DOCKER-USER", pairs, line, text);
    FoldNamed(start, pairs, false, CtOrig);
    FoldTarget(start, pairs, false);
    TargetSays(ParityGate.Lookup(pairs, Jump), rule.target);
    FoundClear("DOCKER-USER", pairs, Jump);
    FoundClear("DOCKER-USER", pairs, Named(CtOrig));
    ClassifiedAs(rule, RowKind.Accept, DockerNat, port);
    DockerUserLine(st, pairs, text, family);
  }

  // ---- Meters -----------------------------------------------------------------------------

  /** The gate reads a meter's own name and rate. */
  lemma MeterRead(st: Surface, pairs: seq<OptionPair>, line: nat, text: string, rule: Rule, family: Family)
    requires ShortOnly(pairs) && Once(pairs, Named(HlName)) && Once(pairs, Named(HlRate))
    requires Clear(pairs, Named(HlName)) && Clear(pairs, Named(HlRate))
    requires ParseAppend(Filter, LineTokens("INPUT", pairs), line, text) == Ok(rule) && IsA(rule, RowKind.Meter)
    ensures AddLine(st, Append(LineTokens("INPUT", pairs), text, true), family)
            == Ok(if Gives(rule, HlRate) then st.(meters := st.meters[rule.opts[HlName] := NormRate(rule.opts[HlRate])])
                  else st)
  {
    var start := NewRule(Filter, ChainOf("INPUT"), line, text);
    LineFolds(Filter, "INPUT", pairs, line, text);
    FoldNamed(start, pairs, false, HlName);
    FoldNamed(start, pairs, false, HlRate);
    FoundClear("INPUT", pairs, Named(HlName));
    FoundClear("INPUT", pairs, Named(HlRate));
  }

  // ---- All other lines ----------------------------------------------------------------------

  /** A line of any other chain leaves what the gate expects alone, and so does one that is
      no rule or is indented. */
  lemma OtherLinesIdle(st: Surface, line: Line, family: Family)
    requires line.Append? && line.flush ==>
               |line.tokens| >= 2
               && var name := line.tokens[1].text; name != "INPUT" && name != "PREROUTING" && name != "DOCKER-USER"
    ensures AddLine(st, line, family) == Ok(st)
  {
    if line.Append? && line.flush { NamesAre(line.tokens[1].text); }
  }

  predicate AllDigits(s: string) {
    s != "" && forall i :: 0 <= i < |s| ==> IsDigit(s[i])
  }

  predicate AllWord(s: string) {
    s != "" && forall i :: 0 <= i < |s| ==> IsDigit(s[i]) || 'a' <= s[i] <= 'z' || 'A' <= s[i] <= 'Z' || s[i] == '_'
  }

  /** A number per unit. */
  predicate RateBy(text: string, amount: string, unit: string) {
    AllDigits(amount) && AllWord(unit) && text == amount + "/" + unit
  }

  /** The unit a text stands for, in whatever letters; any other text stands for itself. */
  function FullUnit(unit: string): string {
    var u := Lower(unit);
    if u == "s" || u == "sec" || u == "second" || u == "seconds" then "second"
    else if u == "m" || u == "min" || u == "minute" || u == "minutes" then "minute"
    else if u == "h" || u == "hour" || u == "hours" then "hour"
    else if u == "d" || u == "day" || u == "days" then "day"
    else unit
  }

  lemma UnitIsFull(unit: string)
    ensures UnitOf(unit) == FullUnit(unit)
  {
  }

  lemma RateText(text: string, amount: string, unit: string)
    requires RateBy(text, amount, unit)
    ensures Partition(text, '/') == (amount, unit) && IsRate(text)
  {
    assert text == amount + ['/'] + unit;
    assert '/' !in amount;
    PartitionAt(amount, unit, '/');
  }

  /** A number per unit is read with the unit written out. */
  lemma RateReads(rate: string, amount: string, unit: string)
    requires RateBy(Strip(rate), amount, unit)
    ensures NormRate(rate) == amount + "/" + FullUnit(unit)
  {
    RateText(Strip(rate), amount, unit);
    UnitIsFull(unit);
  }

  /** Any other text is only trimmed. */
  lemma OtherRatesTrimmed(rate: string)
    requires forall amount, unit :: !RateBy(Strip(rate), amount, unit)
    ensures NormRate(rate) == Strip(rate)
  {
    var (amount, unit) := Partition(Strip(rate), '/');
    assert !RateBy(Strip(rate), amount, unit);
  }

  lemma MinuteText(rate: string, amount: string)
    requires rate == amount + "/min" && AllDigits(amount)
    ensures Strip(rate) == rate && RateBy(rate, amount, "min")
  {
    assert "/" + "min" == "/min";
    assert rate == amount + "/" + "min";
    DigitIsNoSpace(rate[0]);
    StripIdle(rate);
  }

  /** So a rate per minute is the one the row is limited to. */
  lemma MinuteAgrees(rule: Rule, amount: string)
    requires HlRate in rule.opts && rule.opts[HlRate] == amount + "/min" && AllDigits(amount)
    ensures LimitText(rule)
            == NormRate(rule.opts[HlRate]) + " burst " + (if HlBurst in rule.opts then rule.opts[HlBurst] else "5")
               + " packets"
  {
    MinuteText(rule.opts[HlRate], amount);
    RateReads(rule.opts[HlRate], amount, "min");
    assert Lower("min") == "min";
    assert amount + "/" + "min" == amount + "/min" && amount + "/" + "minute" == amount + "/minute";
    assert "/min" + "" == "/min" && "/minute" + "" == "/minute";
    LimitPerMinute(rule, amount, "");
  }
}
