/** The parity gate's own reading of a legacy dump: it searches each line for the options
    it wants, where the importer reads every token from left to right. */
module ParityGate {
  import opened Wrappers
  import opened Text
  import opened PortLists
  import opened LegacyImport
  import opened Sequences
  import Meaning = ImportMeaning

  datatype GateError = NotANumber | NoChain

  // ---- Searching a line -----------------------------------------------------

  /** The token after the first one that reads like the option, be it an option or the
      value of another, if there is one. */
  function Find(tokens: seq<Token>, word: Word): Option<string> {
    if |tokens| < 2 then None
    else if tokens[0].text == Spelling(word) then Some(tokens[1].text)
    else Find(tokens[1..], word)
  }

  function OrEmpty(value: Option<string>): string {
    if value.Some? then value.value else ""
  }

  /** Ports named by `--dport`, else by `--dports`, else none. */
  function RulePorts(tokens: seq<Token>): Option<set<int>> {
    SeenPorts(Find(tokens, DPort), Find(tokens, DPorts))
  }

  function SeenPorts(single: Option<string>, multi: Option<string>): Option<set<int>> {
    if OrEmpty(single) != "" then
      var n := ParseInt(single.value);
      if n.Some? then Some({n.value}) else None
    else if OrEmpty(multi) != "" then ExpandedPorts(multi.value)
    else Some({})
  }

  predicate IsWordChar(c: char) {
    IsDigit(c) || 'a' <= c <= 'z' || 'A' <= c <= 'Z' || c == '_'
  }

  /** Digits, a slash, word characters. */
  predicate IsRate(text: string) {
    var (amount, unit) := Partition(text, '/');
    && amount != "" && unit != "" && text == amount + "/" + unit
    && (forall i :: 0 <= i < |amount| ==> IsDigit(amount[i]))
    && forall i :: 0 <= i < |unit| ==> IsWordChar(unit[i])
  }

  function UnitOf(unit: string): string {
    var u := Lower(unit);
    if u in ["s", "sec", "second", "seconds"] then "second"
    else if u in ["m", "min", "minute", "minutes"] then "minute"
    else if u in ["h", "hour", "hours"] then "hour"
    else if u in ["d", "day", "days"] then "day"
    else unit
  }

  /** A rate with its unit spelled out; any other text, trimmed. */
  function NormRate(rate: string): string {
    var text := Strip(rate);
    if IsRate(text) then Partition(text, '/').0 + "/" + UnitOf(Partition(text, '/').1) else text
  }

  datatype Surface = Surface(
    accepts: set<(Family, string, int)>, drops: set<(Family, string, int)>, meters: map<string, string>,
    guards: set<int>, internal: set<int>, antiSpoof: nat)

  function Triples(family: Family, protocol: string, ports: set<int>): (triples: set<(Family, string, int)>)
    ensures forall p :: p in ports ==> (family, protocol, p) in triples
    ensures forall t :: t in triples ==> t.0 == family && t.1 == protocol && t.2 in ports
  {
    set p | p in ports :: (family, protocol, p)
  }

  function AddInput(st: Surface, tokens: seq<Token>, family: Family): Result<Surface, GateError> {
    var protocol, name := OrEmpty(Find(tokens, Proto)), OrEmpty(Find(tokens, Named(HlName)));
    var rate := OrEmpty(Find(tokens, Named(HlRate)));
    if name != "" then Ok(if rate == "" then st else st.(meters := st.meters[name := NormRate(rate)]))
    else if protocol != "tcp" && protocol != "udp" then Ok(st)
    else
      var ports := RulePorts(tokens);
      if ports.None? then Err(NotANumber)
      else if Find(tokens, Jump) == Some("ACCEPT") then
        Ok(st.(accepts := st.accepts + Triples(family, protocol, ports.value)))
      else if Find(tokens, Jump) == Some("DROP") then
        Ok(st.(drops := st.drops + Triples(family, protocol, ports.value)))
      else Ok(st)
  }

  function AddPrerouting(st: Surface, tokens: seq<Token>): Result<Surface, GateError> {
    var dest, dport := OrEmpty(Find(tokens, Dst)), OrEmpty(Find(tokens, DPort));
    if Find(tokens, Jump) != Some("DROP") || dest == "" then Ok(st)
    else if dest != "127.0.0.1/32" then Ok(st.(antiSpoof := st.antiSpoof + 1))
    else if dport == "" then Ok(st)
    else
      var n := ParseInt(dport);
      if n.Some? then Ok(st.(guards := st.guards + {n.value})) else Err(NotANumber)
  }

  function AddDockerUser(st: Surface, tokens: seq<Token>): Result<Surface, GateError> {
    var port := OrEmpty(Find(tokens, Named(CtOrig)));
    if port == "" || Find(tokens, Jump) != Some("DROP") then Ok(st)
    else
      var n := ParseInt(port);
      if n.Some? then Ok(st.(internal := st.internal + {n.value})) else Err(NotANumber)
  }

  function AddLine(st: Surface, line: Line, family: Family): Result<Surface, GateError> {
    if !line.Append? || !line.flush then Ok(st)
    else if |line.tokens| < 2 then Err(NoChain)
    else
      match ChainOf(line.tokens[1].text)
      case Input => AddInput(st, line.tokens, family)
      case Prerouting => AddPrerouting(st, line.tokens)
      case DockerUser => AddDockerUser(st, line.tokens)
      case Forward => Ok(st)
      case DockerOwned(_) => Ok(st)
      case OtherChain(_) => Ok(st)
  }

  /** What the gate expects after the first `n` lines. */
  function SurfaceUpTo(st: Surface, lines: seq<Line>, n: nat, family: Family): Result<Surface, GateError>
    requires n <= |lines|
  {
    if n == 0 then Ok(st)
    else
      var before := SurfaceUpTo(st, lines, n - 1, family);
      if before.Err? then before else AddLine(before.value, lines[n - 1], family)
  }

  lemma {:induction false} SurfaceFails(st: Surface, lines: seq<Line>, n: nat, m: nat, family: Family)
    requires n <= m <= |lines| && SurfaceUpTo(st, lines, n, family).Err?
    ensures SurfaceUpTo(st, lines, m, family) == SurfaceUpTo(st, lines, n, family)
  {
    if n < m {
      SurfaceFails(st, lines, n, m - 1, family);
      assert SurfaceUpTo(st, lines, m - 1, family).Err?;
    }
  }

  const NOTHING := Surface({}, {}, map[], {}, {}, 0)

  method SomeMember<T>(s: set<T>) returns (x: T)
    requires s != {}
    ensures x in s
  {
    x :| x in s;
  }

  lemma TriplesGrow(family: Family, protocol: string, ports: set<int>, port: int)
    ensures Triples(family, protocol, ports + {port}) == Triples(family, protocol, ports) + {(family, protocol, port)}
  {
  }

  /** The triples of a line's ports, one port at a time. */
  method CollectTriples(family: Family, protocol: string, ports: set<int>) returns (triples: set<(Family, string, int)>)
    ensures triples == Triples(family, protocol, ports)
  {
    triples := {};
    var left, seen := ports, {};
    while left != {}
      invariant triples == Triples(family, protocol, seen) && seen + left == ports
      decreases |left|
    {
      var port := SomeMember(left);
      TriplesGrow(family, protocol, seen, port);
      triples := triples + {(family, protocol, port)};
      left, seen := left - {port}, seen + {port};
    }
    assert seen == ports;
  }

  class Expected {
    var accepts: set<(Family, string, int)>
    var drops: set<(Family, string, int)>
    var meters: map<string, string>
    var guards: set<int>
    var internal: set<int>
    var antiSpoof: nat

    function State(): Surface
      reads this
    {
      Surface(accepts, drops, meters, guards, internal, antiSpoof)
    }

    constructor ()
      ensures State() == NOTHING
    {
      accepts, drops, meters, guards, internal, antiSpoof := {}, {}, map[], {}, {}, 0;
    }

    /** One INPUT line: a meter, or a pair per port of an accept or a drop. */
    method AddInputLine(tokens: seq<Token>, family: Family) returns (error: Option<GateError>)
      modifies this`accepts, this`drops, this`meters
      ensures error.None? ==> AddInput(old(State()), tokens, family) == Ok(State())
      ensures error.Some? ==> AddInput(old(State()), tokens, family) == Err(error.value) && State() == old(State())
    {
      var name := OrEmpty(Find(tokens, Named(HlName)));
      if name != "" {
        var rate := OrEmpty(Find(tokens, Named(HlRate)));
        if rate != "" { meters := meters[name := NormRate(rate)]; }
        return None;
      }
      var protocol := OrEmpty(Find(tokens, Proto));
      if protocol != "tcp" && protocol != "udp" { return None; }
      var ports := RulePorts(tokens);
      if ports.None? { return Some(NotANumber); }
      var triples := CollectTriples(family, protocol, ports.value);
      if Find(tokens, Jump) == Some("ACCEPT") {
        accepts := accepts + triples;
      } else if Find(tokens, Jump) == Some("DROP") {
        drops := drops + triples;
      }
      error := None;
    }

    /** One PREROUTING line: a loopback guard, an anti-spoof drop, or neither. */
    method AddPreroutingLine(tokens: seq<Token>) returns (error: Option<GateError>)
      modifies this`guards, this`antiSpoof
      ensures error.None? ==> AddPrerouting(old(State()), tokens) == Ok(State())
      ensures error.Some? ==> AddPrerouting(old(State()), tokens) == Err(error.value) && State() == old(State())
    {
      var dest, dport := OrEmpty(Find(tokens, Dst)), OrEmpty(Find(tokens, DPort));
      var drop := Find(tokens, Jump) == Some("DROP");
      if drop && dest == "127.0.0.1/32" && dport != "" {
        var n := ParseInt(dport);
        if n.None? { return Some(NotANumber); }
        guards := guards + {n.value};
      } else if drop && dest != "" && dest != "127.0.0.1/32" {
        antiSpoof := antiSpoof + 1;
      }
      error := None;
    }

    /** One DOCKER-USER line: a protected port, or nothing. */
    method AddDockerUserLine(tokens: seq<Token>) returns (error: Option<GateError>)
      modifies this`internal
      ensures error.None? ==> AddDockerUser(old(State()), tokens) == Ok(State())
      ensures error.Some? ==> AddDockerUser(old(State()), tokens) == Err(error.value) && State() == old(State())
    {
      var port := OrEmpty(Find(tokens, Named(CtOrig)));
      if port != "" && Find(tokens, Jump) == Some("DROP") {
        var n := ParseInt(port);
        if n.None? { return Some(NotANumber); }
        internal := internal + {n.value};
      }
      error := None;
    }

    method AddOne(line: Line, family: Family) returns (error: Option<GateError>)
      modifies this
      ensures error.None? ==> AddLine(old(State()), line, family) == Ok(State())
      ensures error.Some? ==> AddLine(old(State()), line, family) == Err(error.value) && State() == old(State())
    {
      if !line.Append? || !line.flush { return None; }
      if |line.tokens| < 2 { return Some(NoChain); }
      match ChainOf(line.tokens[1].text)
      case Input => error := AddInputLine(line.tokens, family);
      case Prerouting => error := AddPreroutingLine(line.tokens);
      case DockerUser => error := AddDockerUserLine(line.tokens);
      case Forward => error := None;
      case DockerOwned(_) => error := None;
      case OtherChain(_) => error := None;
    }

    method AddIptables(lines: seq<Line>, family: Family) returns (error: Option<GateError>)
      modifies this
      ensures error.None? ==> SurfaceUpTo(old(State()), lines, |lines|, family) == Ok(State())
      ensures error.Some? ==> SurfaceUpTo(old(State()), lines, |lines|, family) == Err(error.value)
    {
      for n := 0 to |lines|
        invariant SurfaceUpTo(old(State()), lines, n, family) == Ok(State())
      {
        error := AddOne(lines[n], family);
        if error.Some? {
          SurfaceFails(old(State()), lines, n + 1, |lines|, family);
          return;
        }
      }
      return None;
    }
  }

  // ---- Canonical lines ------------------------------------------------------

  /** An option with its value, perhaps negated. */
  datatype OptionPair = OptionPair(neg: bool, word: Word, value: string)

  function PairTokens(p: OptionPair): seq<Token> {
    (if p.neg then [Opt(Bang)] else []) + [Opt(p.word), Token(p.value)]
  }

  function Tokens(pairs: seq<OptionPair>): seq<Token> {
    if pairs == [] then [] else PairTokens(pairs[0]) + Tokens(pairs[1..])
  }

  /** The value of the first pair with this word. */
  function Lookup(pairs: seq<OptionPair>, word: Word): Option<string> {
    if pairs == [] then None
    else if pairs[0].word == word then Some(pairs[0].value)
    else Lookup(pairs[1..], word)
  }

  predicate IsShort(word: Word) {
    !(word.Bang? || word.InLong? || word.OutLong? || word.SrcLong? || word.DstLong? || word.ProtoLong?
      || word.JumpLong? || word.Goto? || word.GotoLong?)
  }

  predicate Once(pairs: seq<OptionPair>, word: Word) {
    pairs == [] || (Once(pairs[1..], word) && (pairs[0].word == word ==> Lookup(pairs[1..], word).None?))
  }

  predicate OnePortOption(pairs: seq<OptionPair>) {
    && Once(pairs, DPort) && Once(pairs, DPorts)
    && (Lookup(pairs, DPort).None? || Lookup(pairs, DPorts).None?)
  }

  /** The way iptables-save writes a rule: short spellings, and at most one protocol,
      target, meter name and port option. */
  predicate Canonical(pairs: seq<OptionPair>) {
    && (forall i :: 0 <= i < |pairs| ==> IsShort(pairs[i].word))
    && Once(pairs, Proto) && Once(pairs, Jump) && Once(pairs, Named(HlName)) && OnePortOption(pairs)
  }

  /** The importer's left-to-right reading, pair by pair. */
  function FoldPairs(rule: Rule, pairs: seq<OptionPair>, neg: bool): Result<Rule, Error>
    decreases |pairs|
  {
    if pairs == [] then Ok(rule)
    else if pairs[0].word.Module? then FoldPairs(rule, pairs[1..], neg || pairs[0].neg)
    else
      var r := SetOption(rule, pairs[0].word, neg || pairs[0].neg, pairs[0].value);
      if r.Err? then r else FoldPairs(r.value, pairs[1..], false)
  }

  /** Past a pair's '!', if it has one, its option and value are the next two tokens. */
  lemma PairRead(rule: Rule, tokens: seq<Token>, i: nat, pairs: seq<OptionPair>, neg: bool) returns (j: nat)
    requires pairs != [] && !pairs[0].word.Bang? && i <= |tokens| && tokens[i..] == Tokens(pairs)
    ensures j + 2 <= |tokens| && tokens[j + 2..] == Tokens(pairs[1..])
    ensures tokens[j] == Opt(pairs[0].word) && tokens[j + 1] == Token(pairs[0].value)
    ensures ParseOptions(rule, tokens, i, neg) == ParseOptions(rule, tokens, j, neg || pairs[0].neg)
  {
    var p := pairs[0];
    j := if p.neg then i + 1 else i;
    assert tokens[i..] == PairTokens(p) + Tokens(pairs[1..]);
    assert p.neg ==> tokens[i] == tokens[i..][0] == Opt(Bang);
    assert tokens[j] == tokens[i..][j - i] == Opt(p.word);
    assert tokens[j + 1] == tokens[i..][j - i + 1] == Token(p.value);
    assert tokens[j + 2..] == tokens[i..][j - i + 2..] == Tokens(pairs[1..]);
  }

  /** One option read, wherever it stands. */
  lemma OptionRead(rule: Rule, tokens: seq<Token>, j: nat, word: Word, value: string, neg: bool)
    requires j + 2 <= |tokens| && tokens[j] == Opt(word) && tokens[j + 1] == Token(value) && !word.Bang?
    ensures word.Module? ==> ParseOptions(rule, tokens, j, neg) == ParseOptions(rule, tokens, j + 2, neg)
    ensures !word.Module? ==>
              ParseOptions(rule, tokens, j, neg)
              == var r := SetOption(rule, word, neg, value);
                 if r.Err? then r else ParseOptions(r.value, tokens, j + 2, false)
  {
    WordOfIff(tokens[j], word);
    WordOfIff(tokens[j], Bang);
    WordOfIff(tokens[j], Module);
  }

  lemma FoldStep(rule: Rule, pairs: seq<OptionPair>, neg: bool)
    requires pairs != []
    ensures var p := pairs[0];
            FoldPairs(rule, pairs, neg)
            == if p.word.Module? then FoldPairs(rule, pairs[1..], neg || p.neg)
               else
                 var r := SetOption(rule, p.word, neg || p.neg, p.value);
                 if r.Err? then r else FoldPairs(r.value, pairs[1..], false)
  {
  }

  lemma {:induction false} ParseIsFold(rule: Rule, tokens: seq<Token>, i: nat, pairs: seq<OptionPair>, neg: bool)
    requires i <= |tokens| && tokens[i..] == Tokens(pairs)
    requires forall k :: 0 <= k < |pairs| ==> !pairs[k].word.Bang?
    ensures ParseOptions(rule, tokens, i, neg) == FoldPairs(rule, pairs, neg)
    decreases |pairs|
  {
    if pairs != [] {
      ParseFoldsPair(rule, tokens, i, pairs, neg);
    }
  }

  lemma {:induction false} ParseFoldsPair(rule: Rule, tokens: seq<Token>, i: nat, pairs: seq<OptionPair>, neg: bool)
    requires i <= |tokens| && tokens[i..] == Tokens(pairs) && pairs != []
    requires forall k :: 0 <= k < |pairs| ==> !pairs[k].word.Bang?
    ensures ParseOptions(rule, tokens, i, neg) == FoldPairs(rule, pairs, neg)
    decreases |pairs|, 0
  {
    var p := pairs[0];
    var next := SetOption(rule, p.word, neg || p.neg, p.value);
    var j := PairStep(rule, tokens, i, pairs, neg);
    FoldStep(rule, pairs, neg);
    if p.word.Module? {
      ParseIsFold(rule, tokens, j, pairs[1..], neg || p.neg);
    } else if next.Ok? {
      ParseIsFold(next.value, tokens, j, pairs[1..], false);
    }
  }

  /** The parser past one pair. */
  lemma PairStep(rule: Rule, tokens: seq<Token>, i: nat, pairs: seq<OptionPair>, neg: bool) returns (j: nat)
    requires pairs != [] && !pairs[0].word.Bang? && i <= |tokens| && tokens[i..] == Tokens(pairs)
    ensures j <= |tokens| && tokens[j..] == Tokens(pairs[1..])
    ensures ParseOptions(rule, tokens, i, neg)
            == var p := pairs[0];
               if p.word.Module? then ParseOptions(rule, tokens, j, neg || p.neg)
               else
                 var r := SetOption(rule, p.word, neg || p.neg, p.value);
                 if r.Err? then r else ParseOptions(r.value, tokens, j, false)
  {
    var p := pairs[0];
    var k := PairRead(rule, tokens, i, pairs, neg);
    OptionRead(rule, tokens, k, p.word, p.value, neg || p.neg);
    j := k + 2;
  }

  /** The options the gate searches INPUT lines for. */
  const SEARCHED: seq<Word> := [Proto, Jump, DPort, DPorts, Named(HlName)]

  predicate IsSearched(word: Word) {
    word in SEARCHED
  }

  /** An option is spelled like no other word. */
  lemma SpelledOnce(w: Word, word: Word)
    ensures Spelling(w) == Spelling(word) <==> w == word
  {
    if Spelling(w) == Spelling(word) { SpellingsDiffer(w, word); }
  }

  lemma FindSkips(t: Token, rest: seq<Token>, word: Word)
    requires t.text != Spelling(word)
    ensures Find([t] + rest, word) == Find(rest, word)
  {
    assert ([t] + rest)[1..] == rest;
  }

  lemma FindHere(word: Word, value: string, rest: seq<Token>)
    ensures Find([Opt(word), Token(value)] + rest, word) == Some(value)
  {
  }

  /** The first token's text, if there is one. */
  function FirstText(tokens: seq<Token>): Option<string> {
    if tokens == [] then None else Some(tokens[0].text)
  }

  lemma FindAtValue(word: Word, rest: seq<Token>)
    ensures Find([Opt(word)] + rest, word) == FirstText(rest)
  {
    assert ([Opt(word)] + rest)[1..] == rest;
  }

  /** Past another option, the search stops at a value that reads like the one it wants. */
  lemma FindPastOption(w: Word, value: string, rest: seq<Token>, word: Word)
    requires Spelling(w) != Spelling(word)
    ensures Find([Opt(w), Token(value)] + rest, word)
            == if value == Spelling(word) then FirstText(rest) else Find(rest, word)
  {
    FindSkips(Opt(w), [Token(value)] + rest, word);
    assert [Opt(w), Token(value)] + rest == [Opt(w)] + ([Token(value)] + rest);
    if value == Spelling(word) { FindAtValue(word, rest); } else { FindSkips(Token(value), rest, word); }
  }

  lemma FindPositive(w: Word, value: string, rest: seq<Token>, word: Word)
    requires !word.Bang?
    ensures Find([Opt(w), Token(value)] + rest, word)
            == if w == word then Some(value) else if value == Spelling(word) then FirstText(rest) else Find(rest, word)
  {
    if w == word {
      FindHere(word, value, rest);
    } else {
      SpelledOnce(w, word);
      FindPastOption(w, value, rest, word);
    }
  }

  lemma FindPair(p: OptionPair, rest: seq<Token>, word: Word)
    requires !word.Bang?
    ensures Find(PairTokens(p) + rest, word)
            == if p.word == word then Some(p.value)
               else if p.value == Spelling(word) then FirstText(rest) else Find(rest, word)
  {
    var two := [Opt(p.word), Token(p.value)] + rest;
    FindPositive(p.word, p.value, rest, word);
    if p.neg {
      BangIsNoOption(word);
      FindSkips(Opt(Bang), two, word);
      assert PairTokens(p) + rest == [Opt(Bang)] + two;
    } else {
      assert PairTokens(p) + rest == two;
    }
  }

  lemma BangIsNoOption(word: Word)
    requires !word.Bang?
    ensures Opt(Bang).text != Spelling(word)
  {
    SpelledOnce(Bang, word);
  }

  /** No value reads like a searched option. */
  predicate Unmistakable(pairs: seq<OptionPair>) {
    forall i, k :: 0 <= i < |pairs| && 0 <= k < |SEARCHED| ==> pairs[i].value != Spelling(SEARCHED[k])
  }

  /** The text right behind a value: the next pair's '!' or option. */
  function Behind(pairs: seq<OptionPair>): Option<string> {
    if pairs == [] then None else Some(Spelling(if pairs[0].neg then Bang else pairs[0].word))
  }

  /** What the search finds: the value of the first pair with this word, unless a value that
      reads like the option comes first. */
  function Seen(pairs: seq<OptionPair>, word: Word): Option<string> {
    if pairs == [] then None
    else if pairs[0].word == word then Some(pairs[0].value)
    else if pairs[0].value == Spelling(word) then Behind(pairs[1..])
    else Seen(pairs[1..], word)
  }

  lemma {:induction false} FindIsSeen(pairs: seq<OptionPair>, word: Word)
    requires !word.Bang?
    ensures Find(Tokens(pairs), word) == Seen(pairs, word)
  {
    if pairs != [] {
      FindPair(pairs[0], Tokens(pairs[1..]), word);
      if pairs[0].word != word {
        if pairs[0].value == Spelling(word) { BehindIsFirst(pairs[1..]); } else { FindIsSeen(pairs[1..], word); }
      }
    }
  }

  lemma BehindIsFirst(pairs: seq<OptionPair>)
    ensures FirstText(Tokens(pairs)) == Behind(pairs)
  {
    if pairs != [] {
      var p := pairs[0];
      assert PairTokens(p) != [] && PairTokens(p)[0] == Opt(if p.neg then Bang else p.word);
      assert Tokens(pairs) == PairTokens(p) + Tokens(pairs[1..]);
      assert Tokens(pairs)[0] == PairTokens(p)[0];
      assert Behind(pairs) == Some(Spelling(if p.neg then Bang else p.word));
    }
  }

  lemma {:induction false} SeenIsLookup(pairs: seq<OptionPair>, word: Word)
    requires forall i :: 0 <= i < |pairs| ==> pairs[i].value != Spelling(word)
    ensures Seen(pairs, word) == Lookup(pairs, word)
  {
    if pairs != [] { SeenIsLookup(pairs[1..], word); }
  }

  lemma FindIsLookup(pairs: seq<OptionPair>, word: Word)
    requires !word.Bang? && forall i :: 0 <= i < |pairs| ==> pairs[i].value != Spelling(word)
    ensures Find(Tokens(pairs), word) == Lookup(pairs, word)
  {
    FindIsSeen(pairs, word);
    SeenIsLookup(pairs, word);
  }

  /** What the search finds and the option's own value does not say is an option's text. */
  lemma {:induction false} SeenOrSpelled(pairs: seq<OptionPair>, word: Word) returns (w: Word)
    ensures Seen(pairs, word) != Lookup(pairs, word) ==> Seen(pairs, word) == Some(Spelling(w))
  {
    w := Bang;
    if pairs != [] && pairs[0].word != word {
      var rest := pairs[1..];
      if pairs[0].value != Spelling(word) {
        w := SeenOrSpelled(rest, word);
      } else if rest == [] {
        assert Lookup(rest, word) == None;
      } else {
        w := if rest[0].neg then Bang else rest[0].word;
        assert Behind(rest) == Some(Spelling(w));
      }
    }
  }

  lemma SpelledDash(word: Word)
    ensures Spelling(word) != "" && (Spelling(word)[0] == '-' || Spelling(word)[0] == '!')
  {
  }

  lemma SpelledLetter(word: Word) returns (c: char)
    ensures c in Spelling(word) && (c == '!' || 'a' <= c <= 'z')
  {
    if word.Named? {
      LongLetter(word.field);
      c := Spelling(word)[2];
    } else {
      var i := ShortLetter(word);
      c := Spelling(word)[i];
    }
  }

  lemma LongLetter(field: Field)
    ensures |Spelling(Named(field))| > 2 && 'a' <= Spelling(Named(field))[2] <= 'z'
  {
  }

  lemma ShortLetter(word: Word) returns (i: nat)
    requires !word.Named?
    ensures i < |Spelling(word)| && (Spelling(word)[i] == '!' || 'a' <= Spelling(word)[i] <= 'z')
  {
    var t := Spelling(word);
    i := if word.Bang? then 0 else if |t| == 2 then 1 else 2;
  }

  lemma LetterIsNoNumber(text: string, c: char)
    requires c in text && (c == '!' || 'a' <= c <= 'z')
    ensures ParseInt(text).None? && ExpandedPorts(text).None?
  {
    ParseIntRejects(text, c);
    CharacterDefeatsGate(text, c);
  }

  lemma DashIsNoName(text: string)
    requires text != "" && (text[0] == '-' || text[0] == '!')
    ensures !IsTcpUdp(text) && text != "ACCEPT" && text != "DROP"
  {
  }

  /** Such a text is no name of a protocol or a verdict the gate looks for, and no number. */
  lemma SpelledIsNoValue(word: Word)
    ensures var t := Spelling(word);
            t != "" && !IsTcpUdp(t) && t != "ACCEPT" && t != "DROP" && ParseInt(t).None? && ExpandedPorts(t).None?
  {
    var c := SpelledLetter(word);
    LetterIsNoNumber(Spelling(word), c);
    SpelledDash(word);
    DashIsNoName(Spelling(word));
  }

  /** A canonical rule line. */
  function LineTokens(chain: string, pairs: seq<OptionPair>): seq<Token> {
    [Token("-A"), Token(chain)] + Tokens(pairs)
  }

  lemma FindInLine(chain: string, pairs: seq<OptionPair>, word: Word)
    requires !word.Bang? && IsName(chain)
    ensures Find(LineTokens(chain, pairs), word) == Seen(pairs, word)
  {
    FindIsSeen(pairs, word);
    FindPastHead(chain, Tokens(pairs), word);
  }

  /** A chain's name starts like no option. */
  predicate IsName(chain: string) {
    chain == "" || (chain[0] != '-' && chain[0] != '!')
  }

  lemma FindPastHead(chain: string, rest: seq<Token>, word: Word)
    requires !word.Bang? && IsName(chain)
    ensures Find([Token("-A"), Token(chain)] + rest, word) == Find(rest, word)
  {
    HeadIsNoOption(chain, word);
    FindSkips(Token(chain), rest, word);
    FindSkips(Token("-A"), [Token(chain)] + rest, word);
    assert [Token("-A"), Token(chain)] + rest == [Token("-A")] + ([Token(chain)] + rest);
  }

  lemma UnmistakableFor(pairs: seq<OptionPair>, word: Word)
    requires Unmistakable(pairs) && IsSearched(word)
    ensures forall i :: 0 <= i < |pairs| ==> pairs[i].value != Spelling(word)
  {
    var k :| 0 <= k < |SEARCHED| && SEARCHED[k] == word;
    forall i | 0 <= i < |pairs| ensures pairs[i].value != Spelling(word) {
      assert pairs[i].value != Spelling(SEARCHED[k]);
    }
  }

  lemma HeadIsNoOption(chain: string, word: Word)
    requires !word.Bang? && IsName(chain)
    ensures Spelling(word) != "-A" && Spelling(word) != chain
  {
    assert Spelling(word)[0] == '-' && |Spelling(word)| >= 2 && Spelling(word)[1] != 'A';
  }

  // ---- What the importer's fold leaves in the fields the gate looks at -------

  lemma {:induction false} FoldProtocol(rule: Rule, pairs: seq<OptionPair>, neg: bool)
    requires FoldPairs(rule, pairs, neg).Ok?
    requires Once(pairs, Proto) && forall i :: 0 <= i < |pairs| ==> IsShort(pairs[i].word)
    ensures FoldPairs(rule, pairs, neg).value.protocol
            == if Lookup(pairs, Proto).Some? then Lookup(pairs, Proto).value else rule.protocol
    decreases |pairs|
  {
    if pairs != [] {
      var p := pairs[0];
      var rule' := if p.word.Module? then rule else SetOption(rule, p.word, neg || p.neg, p.value).value;
      FoldProtocol(rule', pairs[1..], p.word.Module? && (neg || p.neg));
    }
  }

  lemma {:induction false} FoldTarget(rule: Rule, pairs: seq<OptionPair>, neg: bool)
    requires FoldPairs(rule, pairs, neg).Ok?
    requires Once(pairs, Jump) && forall i :: 0 <= i < |pairs| ==> IsShort(pairs[i].word)
    ensures FoldPairs(rule, pairs, neg).value.target
            == if Lookup(pairs, Jump).Some? then TargetOf(Lookup(pairs, Jump).value) else rule.target
    decreases |pairs|
  {
    if pairs != [] {
      var p := pairs[0];
      var rule' := if p.word.Module? then rule else SetOption(rule, p.word, neg || p.neg, p.value).value;
      FoldTarget(rule', pairs[1..], p.word.Module? && (neg || p.neg));
    }
  }

  lemma SetOptionNamed(rule: Rule, word: Word, neg: bool, value: string, field: Field)
    requires SetOption(rule, word, neg, value).Ok?
    ensures Get(SetOption(rule, word, neg, value).value, field)
            == if word == Named(field) then value else Get(rule, field)
  {
  }

  lemma {:induction false} FoldNamed(rule: Rule, pairs: seq<OptionPair>, neg: bool, field: Field)
    requires FoldPairs(rule, pairs, neg).Ok? && Once(pairs, Named(field))
    ensures Get(FoldPairs(rule, pairs, neg).value, field)
            == if Lookup(pairs, Named(field)).Some? then Lookup(pairs, Named(field)).value else Get(rule, field)
    decreases |pairs|
  {
    if pairs != [] {
      var p := pairs[0];
      FoldStep(rule, pairs, neg);
      if p.word.Module? {
        FoldNamed(rule, pairs[1..], neg || p.neg, field);
      } else {
        SetOptionNamed(rule, p.word, neg || p.neg, p.value, field);
        FoldNamed(SetOption(rule, p.word, neg || p.neg, p.value).value, pairs[1..], false, field);
      }
    }
  }

  lemma FoldMeterName(rule: Rule, pairs: seq<OptionPair>, neg: bool)
    requires FoldPairs(rule, pairs, neg).Ok? && Once(pairs, Named(HlName))
    ensures Get(FoldPairs(rule, pairs, neg).value, HlName)
            == if Lookup(pairs, Named(HlName)).Some? then Lookup(pairs, Named(HlName)).value else Get(rule, HlName)
  {
    FoldNamed(rule, pairs, neg, HlName);
  }

  lemma {:induction false} FoldPlace(rule: Rule, pairs: seq<OptionPair>, neg: bool)
    requires FoldPairs(rule, pairs, neg).Ok?
    ensures var r := FoldPairs(rule, pairs, neg).value; r.table == rule.table && r.chain == rule.chain
    decreases |pairs|
  {
    if pairs != [] {
      var p := pairs[0];
      var rule' := if p.word.Module? then rule else SetOption(rule, p.word, neg || p.neg, p.value).value;
      FoldPlace(rule', pairs[1..], p.word.Module? && (neg || p.neg));
    }
  }

  /** The ports an option names, as the importer reads it; None when it does not parse. */
  function WordPorts(word: Word, value: string): Option<seq<int>> {
    match word
    case DPort =>
      var n := ParseInt(value);
      if n.Some? then Some([n.value]) else None
    case DPorts => ImportedPorts(value)
    case _ => Some([])
  }

  function PortsNamed(pairs: seq<OptionPair>): Option<seq<int>> {
    var single, multi := Lookup(pairs, DPort), Lookup(pairs, DPorts);
    if single.Some? then WordPorts(DPort, single.value)
    else if multi.Some? then WordPorts(DPorts, multi.value)
    else Some([])
  }

  lemma SetOptionPorts(rule: Rule, word: Word, neg: bool, value: string)
    requires SetOption(rule, word, neg, value).Ok?
    ensures WordPorts(word, value).Some?
    ensures SetOption(rule, word, neg, value).value.dports == rule.dports + WordPorts(word, value).value
  {
    assert rule.dports + [] == rule.dports;
  }

  lemma {:induction false} FoldPorts(rule: Rule, pairs: seq<OptionPair>, neg: bool)
    requires FoldPairs(rule, pairs, neg).Ok? && OnePortOption(pairs)
    ensures PortsNamed(pairs).Some?
    ensures FoldPairs(rule, pairs, neg).value.dports == rule.dports + PortsNamed(pairs).value
    decreases |pairs|
  {
    if pairs != [] {
      var p := pairs[0];
      if p.word.Module? {
        FoldPorts(rule, pairs[1..], neg || p.neg);
      } else {
        SetOptionPorts(rule, p.word, neg || p.neg, p.value);
        FoldPorts(SetOption(rule, p.word, neg || p.neg, p.value).value, pairs[1..], false);
        var here := WordPorts(p.word, p.value).value;
        assert here == [] || PortsNamed(pairs[1..]) == Some([]);
        assert (rule.dports + here) + [] == rule.dports + here;
        assert rule.dports + [] == rule.dports;
      }
    }
  }

  // ---- The two readers ------------------------------------------------------

  predicate IsTcpUdp(protocol: string) {
    protocol == "tcp" || protocol == "udp"
  }

  /** What the importer reads off a line, in the gate's terms. */
  function Imported(rule: Rule, kind: RowKind, family: Family): set<(Family, string, int)> {
    if Classify(rule) == Ok(Row(kind)) then Triples(family, ProtocolOf(rule), AsSet(rule.dports)) else {}
  }

  /** A line with ports and a verdict on which they part: the renderer's hardcoded lines,
      which the gate collects when they are tcp or udp, and the other protocols' lines,
      which only the importer collects. */
  predicate Parts(rule: Rule) {
    && Get(rule, HlName) == "" && rule.dports != [] && (rule.target.ToAccept? || rule.target.ToDrop?)
    && (HardcodedInput(rule).Some? <==> IsTcpUdp(rule.protocol))
  }

  predicate ColonFree(pairs: seq<OptionPair>) {
    Lookup(pairs, DPorts).Some? ==> ':' !in Lookup(pairs, DPorts).value
  }

  /** A canonical INPUT line of the filter table, without ':' in its port list and without
      a value that reads like an option the gate searches for. */
  predicate PlainInput(pairs: seq<OptionPair>) {
    Canonical(pairs) && ColonFree(pairs) && Unmistakable(pairs)
  }

  lemma TargetWords(name: string)
    ensures TargetOf(name).ToAccept? <==> name == "ACCEPT"
    ensures TargetOf(name).ToDrop? <==> name == "DROP"
  {
  }

  lemma FoldedLine(pairs: seq<OptionPair>, line: nat, text: string)
    requires Canonical(pairs)
    ensures ChainOf("INPUT") == Input
    ensures ParseAppend(Filter, LineTokens("INPUT", pairs), line, text)
            == FoldPairs(NewRule(Filter, Input, line, text), pairs, false)
  {
    var tokens := LineTokens("INPUT", pairs);
    assert tokens[2..] == Tokens(pairs);
    ParseIsFold(NewRule(Filter, Input, line, text), tokens, 2, pairs, false);
  }

  /** The search for the ports stops at a value that reads like the option. */
  predicate PortsMisread(pairs: seq<OptionPair>) {
    || Seen(pairs, DPort) != Lookup(pairs, DPort)
    || (OrEmpty(Seen(pairs, DPort)) == "" && Seen(pairs, DPorts) != Lookup(pairs, DPorts))
  }

  /** Some search stops at such a value. */
  predicate Misread(pairs: seq<OptionPair>) {
    || Seen(pairs, Proto) != Lookup(pairs, Proto)
    || Seen(pairs, Named(HlName)) != Lookup(pairs, Named(HlName))
    || Seen(pairs, Jump) != Lookup(pairs, Jump)
    || PortsMisread(pairs)
  }

  /** The gate comes to read the ports, and what it takes for them is no list of numbers. */
  predicate SearchFails(pairs: seq<OptionPair>) {
    && OrEmpty(Seen(pairs, Named(HlName))) == "" && IsTcpUdp(OrEmpty(Seen(pairs, Proto)))
    && (PortsMisread(pairs) || !ColonFree(pairs))
  }

  lemma PlainIsRead(pairs: seq<OptionPair>)
    requires PlainInput(pairs)
    ensures !Misread(pairs) && !SearchFails(pairs)
  {
    forall word | IsSearched(word) ensures Seen(pairs, word) == Lookup(pairs, word) {
      UnmistakableFor(pairs, word);
      SeenIsLookup(pairs, word);
    }
  }

  lemma PortsSeen(pairs: seq<OptionPair>, dports: seq<int>)
    requires Canonical(pairs) && PortsNamed(pairs) == Some(dports)
    ensures RulePorts(LineTokens("INPUT", pairs))
            == if PortsMisread(pairs) || !ColonFree(pairs) then None else Some(AsSet(dports))
  {
    FindInLine("INPUT", pairs, DPort);
    FindInLine("INPUT", pairs, DPorts);
    if PortsMisread(pairs) {
      var word := if Seen(pairs, DPort) != Lookup(pairs, DPort) then DPort else DPorts;
      var w := SeenOrSpelled(pairs, word);
      SpelledIsNoValue(w);
    } else {
      PortsLookedUp(pairs, dports);
    }
  }

  lemma PortsLookedUp(pairs: seq<OptionPair>, dports: seq<int>)
    requires OnePortOption(pairs) && PortsNamed(pairs) == Some(dports)
    requires !PortsMisread(pairs)
    ensures SeenPorts(Seen(pairs, DPort), Seen(pairs, DPorts)) == if ColonFree(pairs) then Some(AsSet(dports)) else None
  {
    if Lookup(pairs, DPort).Some? {
      assert ParseInt("").None?;
      assert AsSet(dports) == {dports[0]};
    } else if Lookup(pairs, DPorts).Some? {
      var multi := Lookup(pairs, DPorts).value;
      StrictReadersAgree(multi);
      if multi == "" {
        EmptyListIsNoPorts();
        assert AsSet(dports) == {};
      }
      if !ColonFree(pairs) { ColonDefeatsGate(multi); }
    } else {
      assert AsSet(dports) == {};
    }
  }

  lemma EmptyListIsNoPorts()
    ensures ImportedPorts("") == Some([])
  {
    var parts := [""];
    assert ReplaceChar("", ':', '-') == "";
    assert Split("", ',') == parts && parts[..|parts| - 1] == [] && Strip(parts[0]) == "";
    var none: seq<int> := [];
    assert none + none == none;
    assert TupleOfParts(parts) == Some(none + none);
  }

  lemma TriplesEmpty(family: Family, protocol: string, ports: seq<int>)
    ensures Triples(family, protocol, AsSet(ports)) == {} <==> ports == []
  {
    if ports != [] {
      assert ports[0] in AsSet(ports);
      assert (family, protocol, ports[0]) in Triples(family, protocol, AsSet(ports));
    }
  }

  /** What the gate's search makes of a line, in terms of the importer's rule. */
  function GateReads(rule: Rule, kind: RowKind, family: Family): set<(Family, string, int)> {
    if Get(rule, HlName) != "" || !IsTcpUdp(rule.protocol) then {}
    else if (kind.Accept? && rule.target.ToAccept?) || (kind.Drop? && rule.target.ToDrop?) then
      Triples(family, rule.protocol, AsSet(rule.dports))
    else {}
  }

  /** What the importer's fold left in the rule, option by option. */
  predicate Holds(rule: Rule, pairs: seq<OptionPair>) {
    && rule.table.Filter? && rule.chain.Input?
    && rule.protocol == OrEmpty(Lookup(pairs, Proto))
    && Get(rule, HlName) == OrEmpty(Lookup(pairs, Named(HlName)))
    && (rule.target.ToAccept? <==> Lookup(pairs, Jump) == Some("ACCEPT"))
    && (rule.target.ToDrop? <==> Lookup(pairs, Jump) == Some("DROP"))
    && PortsNamed(pairs) == Some(rule.dports)
  }

  lemma FoldHolds(pairs: seq<OptionPair>, line: nat, text: string, rule: Rule)
    requires Canonical(pairs)
    requires ParseAppend(Filter, LineTokens("INPUT", pairs), line, text) == Ok(rule)
    ensures Holds(rule, pairs)
  {
    FoldedLine(pairs, line, text);
    FreshFolds(NewRule(Filter, Input, line, text), pairs, rule);
  }

  lemma FreshFolds(start: Rule, pairs: seq<OptionPair>, rule: Rule)
    requires start.table.Filter? && start.chain.Input? && start.protocol == "" && start.target.NoTarget?
    requires start.dports == [] && start.opts == map[]
    requires Canonical(pairs) && FoldPairs(start, pairs, false) == Ok(rule)
    ensures Holds(rule, pairs)
  {
    FoldPlace(start, pairs, false);
    FoldProtocol(start, pairs, false);
    FoldMeterName(start, pairs, false);
    FoldTarget(start, pairs, false);
    FoldPorts(start, pairs, false);
    TargetSays(Lookup(pairs, Jump), rule.target);
    assert rule.dports == PortsNamed(pairs).value;
  }

  lemma TargetSays(jump: Option<string>, target: Target)
    requires target == if jump.Some? then TargetOf(jump.value) else NoTarget
    ensures target.ToAccept? <==> jump == Some("ACCEPT")
    ensures target.ToDrop? <==> jump == Some("DROP")
  {
    if jump.Some? { TargetWords(jump.value); }
  }

  /** What the gate takes from a canonical line: it stops with an error, a misread option
      makes it collect nothing, or it reads the importer's rule. */
  lemma SearchReads(pairs: seq<OptionPair>, rule: Rule, family: Family)
    requires Canonical(pairs) && Holds(rule, pairs)
    ensures AddInput(NOTHING, LineTokens("INPUT", pairs), family).Err? <==> SearchFails(pairs)
    ensures !SearchFails(pairs) ==>
              var gate := AddInput(NOTHING, LineTokens("INPUT", pairs), family).value;
              && gate.accepts == (if Misread(pairs) then {} else GateReads(rule, LegacyImport.Accept, family))
              && gate.drops == (if Misread(pairs) then {} else GateReads(rule, LegacyImport.Drop, family))
  {
    var tokens := LineTokens("INPUT", pairs);
    FindInLine("INPUT", pairs, Proto);
    FindInLine("INPUT", pairs, Named(HlName));
    FindInLine("INPUT", pairs, Jump);
    PortsSeen(pairs, rule.dports);
    FoundSays(tokens, family);
    if Misread(pairs) {
      MisreadSaysNothing(pairs);
    } else {
      ReadSaysRule(pairs, rule, RulePorts(tokens), family);
    }
  }

  /** The gate counts the line's ports. */
  predicate Counts(name: Option<string>, protocol: Option<string>) {
    OrEmpty(name) == "" && IsTcpUdp(OrEmpty(protocol))
  }

  function FoundTriples(counts: bool, jumps: bool, protocol: string, ports: Option<set<int>>, family: Family)
    : set<(Family, string, int)>
  {
    if counts && jumps && ports.Some? then Triples(family, protocol, ports.value) else {}
  }

  lemma ReadSaysRule(pairs: seq<OptionPair>, rule: Rule, ports: Option<set<int>>, family: Family)
    requires Holds(rule, pairs) && !Misread(pairs)
    requires ports == if ColonFree(pairs) then Some(AsSet(rule.dports)) else None
    ensures var counts := Counts(Seen(pairs, Named(HlName)), Seen(pairs, Proto));
            (counts && ports.None? <==> SearchFails(pairs))
            && (!(counts && ports.None?) ==>
                  var jump, protocol := Seen(pairs, Jump), OrEmpty(Seen(pairs, Proto));
                  && FoundTriples(counts, jump == Some("ACCEPT"), protocol, ports, family)
                     == GateReads(rule, LegacyImport.Accept, family)
                  && FoundTriples(counts, jump == Some("DROP"), protocol, ports, family)
                     == GateReads(rule, LegacyImport.Drop, family))
  {
  }

  /** What the four searches say to the gate. */
  lemma FoundSays(tokens: seq<Token>, family: Family)
    ensures var ports, gate := RulePorts(tokens), AddInput(NOTHING, tokens, family);
            var jump, protocol := Find(tokens, Jump), OrEmpty(Find(tokens, Proto));
            var counts := Counts(Find(tokens, Named(HlName)), Find(tokens, Proto));
            && (gate.Err? <==> counts && ports.None?)
            && (gate.Ok? ==>
                  && gate.value.accepts == FoundTriples(counts, jump == Some("ACCEPT"), protocol, ports, family)
                  && gate.value.drops == FoundTriples(counts, jump == Some("DROP"), protocol, ports, family))
  {
    var ports := RulePorts(tokens);
    if ports.Some? {
      var triples := Triples(family, OrEmpty(Find(tokens, Proto)), ports.value);
      assert {} + triples == triples;
    }
  }

  lemma MisreadSaysNothing(pairs: seq<OptionPair>)
    ensures Seen(pairs, Proto) != Lookup(pairs, Proto) ==> !IsTcpUdp(OrEmpty(Seen(pairs, Proto)))
    ensures Seen(pairs, Named(HlName)) != Lookup(pairs, Named(HlName)) ==> OrEmpty(Seen(pairs, Named(HlName))) != ""
    ensures Seen(pairs, Jump) != Lookup(pairs, Jump)
            ==> Seen(pairs, Jump) != Some("ACCEPT") && Seen(pairs, Jump) != Some("DROP")
  {
    var p := SeenOrSpelled(pairs, Proto);
    var n := SeenOrSpelled(pairs, Named(HlName));
    var j := SeenOrSpelled(pairs, Jump);
    SpelledIsNoValue(p);
    SpelledIsNoValue(n);
    SpelledIsNoValue(j);
  }

  /** What the importer makes of it. */
  lemma ImporterReadsRule(rule: Rule, kind: RowKind, family: Family)
    requires rule.table.Filter? && rule.chain.Input? && (kind.Accept? || kind.Drop?)
    ensures Imported(rule, kind, family)
            == if HardcodedInput(rule).None? && Get(rule, HlName) == ""
                  && ((kind.Accept? && rule.target.ToAccept?) || (kind.Drop? && rule.target.ToDrop?))
               then Triples(family, ProtocolOf(rule), AsSet(rule.dports)) else {}
  {
    TriplesEmpty(family, ProtocolOf(rule), rule.dports);
  }

  /** The importer turns the line into rows of its verdict. */
  predicate Carries(rule: Rule) {
    && HardcodedInput(rule).None? && Get(rule, HlName) == "" && rule.dports != []
    && (rule.target.ToAccept? || rule.target.ToDrop?)
  }

  /** The gate does not stop at the line, the importer takes nothing from it if an option is
      misread, and otherwise it is none on which the readers part. */
  predicate AgreesOn(pairs: seq<OptionPair>, rule: Rule) {
    !SearchFails(pairs) && if Misread(pairs) then !Carries(rule) else !Parts(rule)
  }

  /** On every canonical INPUT line of the filter table that the importer parses, the gate
      reads the same accepts and drops exactly under this condition. */
  lemma LineReadersAgreeIff(pairs: seq<OptionPair>, line: nat, text: string, rule: Rule, family: Family)
    requires Canonical(pairs)
    requires ParseAppend(Filter, LineTokens("INPUT", pairs), line, text) == Ok(rule)
    ensures (var gate := AddInput(NOTHING, LineTokens("INPUT", pairs), family);
             && gate.Ok? && gate.value.accepts == Imported(rule, LegacyImport.Accept, family)
             && gate.value.drops == Imported(rule, LegacyImport.Drop, family))
            <==> AgreesOn(pairs, rule)
  {
    FoldHolds(pairs, line, text, rule);
    SearchReads(pairs, rule, family);
    ReadingsAgreeIff(rule, family);
    CarriesIff(rule, family);
  }

  lemma CarriesIff(rule: Rule, family: Family)
    requires rule.table.Filter? && rule.chain.Input?
    ensures Imported(rule, LegacyImport.Accept, family) == {} && Imported(rule, LegacyImport.Drop, family) == {}
            <==> !Carries(rule)
  {
    ImporterReadsRule(rule, LegacyImport.Accept, family);
    ImporterReadsRule(rule, LegacyImport.Drop, family);
    TriplesEmpty(family, ProtocolOf(rule), rule.dports);
  }

  /** On one without ':' in its port list and without a value that reads like a searched
      option, they agree unless they part on the rule. */
  lemma PlainLineAgreesIff(pairs: seq<OptionPair>, rule: Rule)
    requires PlainInput(pairs)
    ensures AgreesOn(pairs, rule) <==> !Parts(rule)
  {
    PlainIsRead(pairs);
  }

  lemma ReadingsAgreeIff(rule: Rule, family: Family)
    requires rule.table.Filter? && rule.chain.Input?
    ensures (&& GateReads(rule, LegacyImport.Accept, family) == Imported(rule, LegacyImport.Accept, family)
             && GateReads(rule, LegacyImport.Drop, family) == Imported(rule, LegacyImport.Drop, family))
            <==> !Parts(rule)
  {
    ImporterReadsRule(rule, LegacyImport.Accept, family);
    ImporterReadsRule(rule, LegacyImport.Drop, family);
    TriplesEmpty(family, ProtocolOf(rule), rule.dports);
  }

  // ---- Two lines on which they part -------------------------------------------

  const JUMP_ACCEPT := [OptionPair(false, Jump, "ACCEPT")]
  const PORT_ACCEPT := [OptionPair(false, DPort, "22")] + JUMP_ACCEPT
  const TCP_ACCEPT := [OptionPair(false, Proto, "tcp")] + PORT_ACCEPT

  /** `-p tcp --dport 22 -j ACCEPT`, with one option in front. */
  function Accept22(first: OptionPair): seq<OptionPair> {
    [first] + TCP_ACCEPT
  }

  lemma LookupCons(p: OptionPair, rest: seq<OptionPair>, word: Word)
    ensures Lookup([p] + rest, word) == if p.word == word then Some(p.value) else Lookup(rest, word)
    ensures Once([p] + rest, word) <==> Once(rest, word) && (p.word == word ==> Lookup(rest, word).None?)
  {
    assert ([p] + rest)[1..] == rest;
  }

  lemma FoldCons(rule: Rule, p: OptionPair, rest: seq<OptionPair>)
    requires !p.neg && !p.word.Module?
    ensures FoldPairs(rule, [p] + rest, false)
            == var r := SetOption(rule, p.word, false, p.value); if r.Err? then r else FoldPairs(r.value, rest, false)
  {
    assert ([p] + rest)[1..] == rest;
  }

  lemma TcpAcceptLookups(word: Word)
    ensures Once(TCP_ACCEPT, word)
    ensures word == DPort ==> Lookup(TCP_ACCEPT, word) == Some("22")
    ensures word !in [Proto, DPort, Jump] ==> Lookup(TCP_ACCEPT, word) == None
  {
    LookupCons(OptionPair(false, Proto, "tcp"), PORT_ACCEPT, word);
    LookupCons(OptionPair(false, DPort, "22"), JUMP_ACCEPT, word);
    LookupCons(OptionPair(false, Jump, "ACCEPT"), [], word);
    assert JUMP_ACCEPT == [OptionPair(false, Jump, "ACCEPT")] + [];
  }

  lemma TwentyTwo()
    ensures ParseInt("22") == Some(22)
  {
    ParsePrintedInt(22);
    assert PrintInt(22) == "22";
  }

  lemma PortAcceptFolds(rule: Rule)
    requires rule.dports == []
    ensures FoldPairs(rule, PORT_ACCEPT, false) == Ok(rule.(dports := [22], target := ToAccept))
  {
    TwentyTwo();
    TargetWords("ACCEPT");
    FoldCons(rule, OptionPair(false, DPort, "22"), JUMP_ACCEPT);
    FoldCons(rule.(dports := [22]), OptionPair(false, Jump, "ACCEPT"), []);
    assert JUMP_ACCEPT == [OptionPair(false, Jump, "ACCEPT")] + [];
    assert rule.dports + [22] == [22];
  }

  lemma TcpAcceptFolds(rule: Rule)
    requires rule.dports == []
    ensures FoldPairs(rule, TCP_ACCEPT, false) == Ok(rule.(protocol := "tcp", dports := [22], target := ToAccept))
  {
    FoldCons(rule, OptionPair(false, Proto, "tcp"), PORT_ACCEPT);
    PortAcceptFolds(rule.(protocol := "tcp"));
  }

  lemma Accept22Searched(first: OptionPair, word: Word)
    requires first.word != word
    ensures Once(Accept22(first), word)
    ensures Lookup(Accept22(first), word) == Lookup(TCP_ACCEPT, word)
  {
    TcpAcceptLookups(word);
    LookupCons(first, TCP_ACCEPT, word);
  }

  lemma Accept22Words(first: OptionPair, i: nat)
    requires i < |Accept22(first)|
    ensures Accept22(first)[i].word in [first.word, Proto, DPort, Jump]
    ensures Accept22(first)[i].value in [first.value, "tcp", "22", "ACCEPT"]
  {
  }

  lemma Accept22Canonical(first: OptionPair)
    requires IsShort(first.word) && first.word !in [Proto, Jump, DPort, DPorts, Named(HlName)]
    ensures Canonical(Accept22(first)) && ColonFree(Accept22(first))
  {
    var pairs := Accept22(first);
    Accept22Searched(first, Proto);
    Accept22Searched(first, Jump);
    Accept22Searched(first, DPort);
    Accept22Searched(first, DPorts);
    Accept22Searched(first, Named(HlName));
    TcpAcceptLookups(DPorts);
    forall i | 0 <= i < |pairs| ensures IsShort(pairs[i].word) { Accept22Words(first, i); }
    CanonicalFrom(pairs);
  }

  lemma CanonicalFrom(pairs: seq<OptionPair>)
    requires forall i :: 0 <= i < |pairs| ==> IsShort(pairs[i].word)
    requires Once(pairs, Proto) && Once(pairs, Jump) && Once(pairs, DPort) && Once(pairs, DPorts)
             && Once(pairs, Named(HlName))
    requires Lookup(pairs, DPorts) == None
    ensures Canonical(pairs) && ColonFree(pairs)
  {
  }

  lemma Accept22Parses(first: OptionPair, line: nat, text: string, start: Rule)
    requires !first.neg && IsShort(first.word) && !first.word.Module?
    requires first.word !in [Proto, Jump, DPort, DPorts, Named(HlName)]
    requires SetOption(NewRule(Filter, Input, line, text), first.word, false, first.value) == Ok(start) && start.dports == []
    ensures ParseAppend(Filter, LineTokens("INPUT", Accept22(first)), line, text)
            == Ok(start.(protocol := "tcp", dports := [22], target := ToAccept))
  {
    Accept22Canonical(first);
    FoldedLine(Accept22(first), line, text);
    FoldCons(NewRule(Filter, Input, line, text), first, TCP_ACCEPT);
    TcpAcceptFolds(start);
  }

  lemma Accept22Unmistakable(first: OptionPair)
    requires first.value == [] || first.value[0] != '-'
    ensures Unmistakable(Accept22(first))
  {
    forall i, k | 0 <= i < |Accept22(first)| && 0 <= k < |SEARCHED|
      ensures Accept22(first)[i].value != Spelling(SEARCHED[k])
    {
      Accept22Words(first, i);
      assert IsSearched(SEARCHED[k]);
      OptionsStartWithDash(SEARCHED[k]);
    }
  }

  lemma OptionsStartWithDash(word: Word)
    requires IsSearched(word)
    ensures Spelling(word) != "" && Spelling(word)[0] == '-'
  {
  }

  /** A tcp accept of port 22, by protocol, ports, target and meter name. */
  predicate IsAccept22(rule: Rule) {
    rule.table.Filter? && rule.chain.Input? && rule.protocol == "tcp" && rule.dports == [22] && rule.target.ToAccept?
    && Get(rule, HlName) == ""
  }

  lemma Accept22Imported(rule: Rule, family: Family)
    requires IsAccept22(rule)
    ensures (family, "tcp", 22) in GateReads(rule, LegacyImport.Accept, family)
    ensures Parts(rule) <==> HardcodedInput(rule).Some?
    ensures HardcodedInput(rule).Some? ==> Imported(rule, LegacyImport.Accept, family) == {}
    ensures HardcodedInput(rule).None? ==> (family, "tcp", 22) in Imported(rule, LegacyImport.Accept, family)
  {
    ImporterReadsRule(rule, LegacyImport.Accept, family);
    assert 22 in AsSet(rule.dports);
  }

  /** `-i docker0 -p tcp --dport 22 -j ACCEPT`: the renderer hardcodes what such a line
      says, so the importer skips it; the gate demands it of the rendered table. */
  lemma HardcodedLineParts(line: nat, text: string, family: Family) returns (pairs: seq<OptionPair>, rule: Rule)
    ensures pairs == Accept22(OptionPair(false, In, "docker0")) && PlainInput(pairs)
    ensures ParseAppend(Filter, LineTokens("INPUT", pairs), line, text) == Ok(rule)
    ensures AddInput(NOTHING, LineTokens("INPUT", pairs), family).Ok?
    ensures (family, "tcp", 22) in AddInput(NOTHING, LineTokens("INPUT", pairs), family).value.accepts
    ensures Parts(rule) && Imported(rule, LegacyImport.Accept, family) == {}
  {
    var first := OptionPair(false, In, "docker0");
    var start := NewRule(Filter, Input, line, text).(inIface := "docker0", inNeg := false);
    pairs, rule := Accept22(first), start.(protocol := "tcp", dports := [22], target := ToAccept);
    Accept22Canonical(first);
    Accept22Unmistakable(first);
    Accept22Parses(first, line, text, start);
    GateDemands22(pairs, line, text, rule, family);
  }

  lemma GateDemands22(pairs: seq<OptionPair>, line: nat, text: string, rule: Rule, family: Family)
    requires PlainInput(pairs) && ParseAppend(Filter, LineTokens("INPUT", pairs), line, text) == Ok(rule)
    requires IsAccept22(rule) && IsBridge(rule.inIface) && !rule.inNeg
    ensures AddInput(NOTHING, LineTokens("INPUT", pairs), family).Ok?
    ensures (family, "tcp", 22) in AddInput(NOTHING, LineTokens("INPUT", pairs), family).value.accepts
    ensures Parts(rule) && Imported(rule, LegacyImport.Accept, family) == {}
  {
    PlainReads(pairs, line, text, rule, family);
    BridgeIsHardcoded(rule);
    Accept22Imported(rule, family);
  }

  lemma PlainReads(pairs: seq<OptionPair>, line: nat, text: string, rule: Rule, family: Family)
    requires PlainInput(pairs) && ParseAppend(Filter, LineTokens("INPUT", pairs), line, text) == Ok(rule)
    ensures AddInput(NOTHING, LineTokens("INPUT", pairs), family).Ok?
    ensures AddInput(NOTHING, LineTokens("INPUT", pairs), family).value.accepts
            == GateReads(rule, LegacyImport.Accept, family)
  {
    PlainIsRead(pairs);
    FoldHolds(pairs, line, text, rule);
    SearchReads(pairs, rule, family);
  }

  lemma BridgeIsHardcoded(rule: Rule)
    requires IsBridge(rule.inIface) && !rule.inNeg
    ensures HardcodedInput(rule).Some?
  {
  }

  /** The search for the protocol stops at a comment that reads "-p". */
  lemma CommentFound(rest: seq<Token>)
    ensures Find([Token("-A"), Token("INPUT")] + ([Opt(Named(Comment)), Token("-p"), Opt(Proto)] + rest), Proto)
            == Some("-p")
  {
    var after := [Token("-p"), Opt(Proto)] + rest;
    FindPastHead("INPUT", [Opt(Named(Comment))] + after, Proto);
    FindSkips(Opt(Named(Comment)), after, Proto);
    assert [Opt(Named(Comment)), Token("-p"), Opt(Proto)] + rest == [Opt(Named(Comment))] + after;
  }

  lemma CommentedTokens(first: OptionPair)
    requires !first.neg
    ensures Tokens(Accept22(first))
            == [Opt(first.word), Token(first.value), Opt(Proto)] + ([Token("tcp")] + Tokens(PORT_ACCEPT))
  {
    assert Accept22(first)[1..] == TCP_ACCEPT && TCP_ACCEPT[1..] == PORT_ACCEPT;
    assert Tokens(TCP_ACCEPT) == [Opt(Proto), Token("tcp")] + Tokens(PORT_ACCEPT);
  }

  lemma NoMeterName(first: OptionPair)
    requires first.word != Named(HlName) && |first.value| < 10
    ensures Find(LineTokens("INPUT", Accept22(first)), Named(HlName)) == None
  {
    assert |Spelling(Named(HlName))| == 16;
    forall i | 0 <= i < |Accept22(first)| ensures Accept22(first)[i].value != Spelling(Named(HlName)) {
      Accept22Words(first, i);
    }
    FindInLine("INPUT", Accept22(first), Named(HlName));
    SeenIsLookup(Accept22(first), Named(HlName));
    TcpAcceptLookups(Named(HlName));
    Accept22Searched(first, Named(HlName));
  }

  lemma NoNameNoProtocol(tokens: seq<Token>, family: Family)
    requires Find(tokens, Proto) == Some("-p") && Find(tokens, Named(HlName)) == None
    ensures AddInput(NOTHING, tokens, family) == Ok(NOTHING)
  {
  }

  lemma CommentMisleads(first: OptionPair, family: Family)
    requires first == OptionPair(false, Named(Comment), "-p")
    ensures AddInput(NOTHING, LineTokens("INPUT", Accept22(first)), family) == Ok(NOTHING)
  {
    CommentedTokens(first);
    CommentFound([Token("tcp")] + Tokens(PORT_ACCEPT));
    NoMeterName(first);
    NoNameNoProtocol(LineTokens("INPUT", Accept22(first)), family);
  }

  lemma Mistakable(pairs: seq<OptionPair>)
    requires pairs != [] && pairs[0].value == "-p"
    ensures !Unmistakable(pairs)
  {
    assert pairs[0].value == Spelling(SEARCHED[0]);
  }

  lemma CommentImported(rule: Rule, family: Family)
    requires IsAccept22(rule) && rule.inIface == "" && rule.opts == map[Comment := "-p"]
    ensures !Parts(rule) && (family, "tcp", 22) in Imported(rule, LegacyImport.Accept, family)
  {
    assert !Contains("", "RELATED") && !Contains("", "ESTABLISHED");
    Accept22Imported(rule, family);
  }

  lemma CommentLineParses(first: OptionPair, line: nat, text: string) returns (rule: Rule)
    requires first == OptionPair(false, Named(Comment), "-p")
    ensures ParseAppend(Filter, LineTokens("INPUT", Accept22(first)), line, text) == Ok(rule)
    ensures IsAccept22(rule) && rule.inIface == "" && rule.opts == map[Comment := "-p"]
  {
    var start := NewRule(Filter, Input, line, text).(opts := map[Comment := "-p"]);
    rule := start.(protocol := "tcp", dports := [22], target := ToAccept);
    Accept22Parses(first, line, text, start);
  }

  /** `--comment -p -p tcp --dport 22 -j ACCEPT`: the search takes the comment for the
      protocol option and reads the protocol "-p", so the gate misses an accept that the
      importer carries. The line is canonical but for that value. */
  lemma ValueMistakenForOption(line: nat, text: string, family: Family) returns (pairs: seq<OptionPair>, rule: Rule)
    ensures pairs == Accept22(OptionPair(false, Named(Comment), "-p"))
    ensures Canonical(pairs) && ColonFree(pairs) && !Unmistakable(pairs)
    ensures ParseAppend(Filter, LineTokens("INPUT", pairs), line, text) == Ok(rule)
    ensures AddInput(NOTHING, LineTokens("INPUT", pairs), family) == Ok(NOTHING)
    ensures !Parts(rule) && (family, "tcp", 22) in Imported(rule, LegacyImport.Accept, family)
  {
    var first := OptionPair(false, Named(Comment), "-p");
    pairs := Accept22(first);
    rule := CommentLineParses(first, line, text);
    Accept22Canonical(first);
    CommentMisleads(first, family);
    Mistakable(pairs);
    CommentImported(rule, family);
  }

  // ---- Whole dumps ----------------------------------------------------------

  /** A line on which both readers see the same accepts and drops: no rule line, a rule
      line of another chain, or a canonical INPUT line at the left margin on which they
      agree. */
  ghost predicate Agreeable(line: Line, table: Table, number: nat) {
    line.Append? && |line.tokens| >= 2 && ChainOf(line.tokens[1].text).Input? ==>
      line.flush && table.Filter? && exists pairs :: AgreesAs(pairs, line, number)
  }

  predicate AgreesAs(pairs: seq<OptionPair>, line: Line, number: nat)
    requires line.Append?
  {
    && Canonical(pairs) && line.tokens == LineTokens("INPUT", pairs)
    && var rule := ParseAppend(Filter, line.tokens, number, line.text);
       (rule.Ok? ==> AgreesOn(pairs, rule.value))
  }

  /** All importer triples of one kind from a sequence of rules. */
  function ImportedAll(rules: seq<Rule>, kind: RowKind, family: Family): set<(Family, string, int)> {
    if rules == [] then {}
    else ImportedAll(rules[..|rules| - 1], kind, family) + Imported(rules[|rules| - 1], kind, family)
  }

  lemma AddInputIsUnion(st: Surface, tokens: seq<Token>, family: Family)
    requires AddInput(NOTHING, tokens, family).Ok?
    ensures var gate := AddInput(NOTHING, tokens, family).value;
            AddInput(st, tokens, family) ==
            Ok(st.(accepts := st.accepts + gate.accepts, drops := st.drops + gate.drops,
                   meters := st.meters + gate.meters))
  {
    assert st.accepts + {} == st.accepts && st.drops + {} == st.drops && st.meters + map[] == st.meters;
    var name, ports := OrEmpty(Find(tokens, Named(HlName))), RulePorts(tokens);
    if name != "" {
      var rate := NormRate(OrEmpty(Find(tokens, Named(HlRate))));
      assert st.meters[name := rate] == st.meters + map[name := rate];
    } else if ports.Some? {
      var added := Triples(family, OrEmpty(Find(tokens, Proto)), ports.value);
      assert {} + added == added;
    }
  }

  lemma OtherChainsGiveNoPairs(rule: Rule, family: Family)
    requires !(rule.table.Filter? && rule.chain.Input?)
    ensures Imported(rule, LegacyImport.Accept, family) == {} && Imported(rule, LegacyImport.Drop, family) == {}
  {
  }

  predicate SamePlace(r: Rule, rule: Rule) {
    r.table == rule.table && r.chain == rule.chain && r.line == rule.line && r.text == rule.text
  }

  lemma SetKeepsPlace(rule: Rule, word: Word, neg: bool, value: string)
    requires SetOption(rule, word, neg, value).Ok?
    ensures SamePlace(SetOption(rule, word, neg, value).value, rule)
  {
    match word
    case DPort =>
    case DPorts =>
    case SPort =>
    case SPorts =>
    case _ =>
  }

  /** No option changes where a parsed line stands. */
  lemma {:induction false} OptionsKeepPlace(rule: Rule, tokens: seq<Token>, i: nat, neg: bool)
    requires ParseOptions(rule, tokens, i, neg).Ok?
    ensures SamePlace(ParseOptions(rule, tokens, i, neg).value, rule)
    decreases |tokens| - i
  {
    if i < |tokens| {
      if tokens[i] == Opt(Bang) {
        OptionsKeepPlace(rule, tokens, i + 1, true);
      } else if tokens[i] == Opt(Module) {
        OptionsKeepPlace(rule, tokens, i + 2, neg);
      } else {
        var word, value := WordOf(tokens[i]).value, tokens[i + 1].text;
        SetKeepsPlace(rule, word, neg, value);
        OptionsKeepPlace(SetOption(rule, word, neg, value).value, tokens, i + 2, false);
      }
    }
  }

  /** One agreeable line, read by both. */
  lemma LineAgrees(st: Surface, line: Line, table: Table, number: nat, family: Family)
    requires line.Append? && Agreeable(line, table, number)
    requires ParseAppend(table, line.tokens, number, line.text).Ok? && AddLine(st, line, family).Ok?
    ensures var rule := ParseAppend(table, line.tokens, number, line.text).value;
            var st' := AddLine(st, line, family).value;
            && st'.accepts == st.accepts + Imported(rule, LegacyImport.Accept, family)
            && st'.drops == st.drops + Imported(rule, LegacyImport.Drop, family)
  {
    var rule := ParseAppend(table, line.tokens, number, line.text).value;
    var chain := ChainOf(line.tokens[1].text);
    OptionsKeepPlace(NewRule(table, chain, number, line.text), line.tokens, 2, false);
    if chain.Input? {
      var pairs :| AgreesAs(pairs, line, number);
      LineReadersAgreeIff(pairs, number, line.text, rule, family);
      AddInputIsUnion(st, line.tokens, family);
    } else {
      OtherChainsGiveNoPairs(rule, family);
    }
  }

  /** Both readers get through the first `n` lines, the gate from `st` on. */
  predicate BothRead(st: Surface, lines: seq<Line>, n: nat, family: Family)
    requires n <= |lines|
  {
    ParseUpTo(lines, n).Ok? && SurfaceUpTo(st, lines, n, family).Ok?
  }

  ghost predicate AllAgreeable(lines: seq<Line>, n: nat)
    requires n <= |lines|
  {
    forall k :: 0 <= k < n && ParseUpTo(lines, k).Ok? ==> Agreeable(lines[k], ParseUpTo(lines, k).value.table, k + 1)
  }

  /** The gate's pairs of one verdict. */
  function Taken(st: Surface, kind: RowKind): set<(Family, string, int)> {
    if kind.Accept? then st.accepts else if kind.Drop? then st.drops else {}
  }

  /** After `n` lines the gate's pairs have grown by exactly the importer's. */
  predicate GrownAlike(st: Surface, lines: seq<Line>, n: nat, family: Family, kind: RowKind)
    requires n <= |lines| && BothRead(st, lines, n, family)
  {
    Taken(SurfaceUpTo(st, lines, n, family).value, kind)
    == Taken(st, kind) + ImportedAll(ParseUpTo(lines, n).value.rules, kind, family)
  }

  /** On a dump of agreeable lines that both read, the gate's accepts and drops grow by
      exactly the importer's. */
  lemma {:induction false} DumpReadersAgree(st: Surface, lines: seq<Line>, n: nat, family: Family, kind: RowKind)
    requires n <= |lines| && BothRead(st, lines, n, family) && AllAgreeable(lines, n)
    requires kind.Accept? || kind.Drop?
    ensures GrownAlike(st, lines, n, family, kind)
  {
    if n > 0 {
      DumpReadersAgree(st, lines, n - 1, family, kind);
      GrowsAlike(st, lines, n, family, kind);
    }
  }

  lemma GrowsAlike(st: Surface, lines: seq<Line>, n: nat, family: Family, kind: RowKind)
    requires 0 < n <= |lines| && (kind.Accept? || kind.Drop?)
    requires BothRead(st, lines, n - 1, family) && GrownAlike(st, lines, n - 1, family, kind)
    requires BothRead(st, lines, n, family)
    requires Agreeable(lines[n - 1], ParseUpTo(lines, n - 1).value.table, n)
    ensures GrownAlike(st, lines, n, family, kind)
  {
    if lines[n - 1].Append? {
      var more := AgreeableMore(st, lines, n, family, kind);
      UnionAssociates(Taken(st, kind), ImportedAll(ParseUpTo(lines, n - 1).value.rules, kind, family), more);
    } else {
      OtherLines(st, lines, n, family);
    }
  }

  /** One agreeable rule line more. */
  lemma AgreeableMore(st: Surface, lines: seq<Line>, n: nat, family: Family, kind: RowKind)
    returns (more: set<(Family, string, int)>)
    requires 0 < n <= |lines| && (kind.Accept? || kind.Drop?)
    requires BothRead(st, lines, n - 1, family) && BothRead(st, lines, n, family) && lines[n - 1].Append?
    requires Agreeable(lines[n - 1], ParseUpTo(lines, n - 1).value.table, n)
    ensures Taken(SurfaceUpTo(st, lines, n, family).value, kind)
            == Taken(SurfaceUpTo(st, lines, n - 1, family).value, kind) + more
    ensures ImportedAll(ParseUpTo(lines, n).value.rules, kind, family)
            == ImportedAll(ParseUpTo(lines, n - 1).value.rules, kind, family) + more
  {
    var before, st' := ParseUpTo(lines, n - 1).value, SurfaceUpTo(st, lines, n - 1, family).value;
    var line := lines[n - 1];
    var rule := ParseAppend(before.table, line.tokens, n, line.text).value;
    LineAgrees(st', line, before.table, n, family);
    ImportedMore(before.rules, rule, kind, family);
    more := Imported(rule, kind, family);
  }

  lemma UnionAssociates<T>(a: set<T>, b: set<T>, c: set<T>)
    ensures (a + b) + c == a + (b + c)
  {
  }

  lemma ImportedMore(rules: seq<Rule>, rule: Rule, kind: RowKind, family: Family)
    ensures ImportedAll(rules + [rule], kind, family) == ImportedAll(rules, kind, family) + Imported(rule, kind, family)
  {
    assert (rules + [rule])[..|rules|] == rules;
  }

  /** A line that is no rule leaves both readers' rules alone. */
  lemma OtherLines(st: Surface, lines: seq<Line>, n: nat, family: Family)
    requires 0 < n <= |lines| && BothRead(st, lines, n, family) && !lines[n - 1].Append?
    ensures BothRead(st, lines, n - 1, family)
    ensures ParseUpTo(lines, n).value.rules == ParseUpTo(lines, n - 1).value.rules
    ensures SurfaceUpTo(st, lines, n, family) == SurfaceUpTo(st, lines, n - 1, family)
  {
  }

  /** These are the pairs the import carries: the gate demands of the rendered table what
      the import puts there. */
  lemma {:induction false} ImportedAreNamed(rules: seq<Rule>, kind: RowKind, family: Family, t: (Family, string, int))
    ensures t in ImportedAll(rules, kind, family)
            <==> t.0 == family && (t.1, t.2) in Flat(Meaning.LinePairs(kind), rules)
  {
    if rules != [] {
      var init, last := rules[..|rules| - 1], rules[|rules| - 1];
      ImportedAreNamed(init, kind, family, t);
      FlatMembers(Meaning.WithProtocol(last), last.dports, (t.1, t.2));
      assert t == (t.0, t.1, t.2);
    }
  }

  // ---- The gate and the rendered table ----------------------------------------

  /** What the gate expects after both captures, the IPv4 one first. */
  function BothSurfaces(v4: seq<Line>, v6: seq<Line>): Result<Surface, GateError> {
    var first := SurfaceUpTo(NOTHING, v4, |v4|, V4);
    if first.Err? then first else SurfaceUpTo(first.value, v6, |v6|, V6)
  }

  /** The gate demands the pair, in either family. */
  predicate Demands(st: Surface, kind: RowKind, pair: Meaning.Pair) {
    pair.1.Some? && ((V4, pair.0, pair.1.value) in Taken(st, kind) || (V6, pair.0, pair.1.value) in Taken(st, kind))
  }

  /** The input chain built from these rows accepts (or drops) exactly what the gate demands. */
  ghost predicate Renders(rows: seq<PlannedRow>, st: Surface, kind: RowKind) {
    forall pair :: pair in Meaning.InputPairs(rows, kind) <==> Demands(st, kind, pair)
  }

  lemma DemandsNamed(v4: seq<Line>, v6: seq<Line>, kind: RowKind, pair: Meaning.Pair)
    requires kind.Accept? || kind.Drop?
    requires ParseDump(v4).Ok? && ParseDump(v6).Ok? && BothSurfaces(v4, v6).Ok?
    requires AllAgreeable(v4, |v4|) && AllAgreeable(v6, |v6|)
    ensures Demands(BothSurfaces(v4, v6).value, kind, pair)
            <==> pair.1.Some? && (pair.0, pair.1.value) in Meaning.Named(ParseDump(v4).value, ParseDump(v6).value, kind)
  {
    var r4, r6 := ParseDump(v4).value, ParseDump(v6).value;
    var first := SurfaceUpTo(NOTHING, v4, |v4|, V4).value;
    DumpReadersAgree(NOTHING, v4, |v4|, V4, kind);
    DumpReadersAgree(first, v6, |v6|, V6, kind);
    if pair.1.Some? {
      var t4, t6 := (V4, pair.0, pair.1.value), (V6, pair.0, pair.1.value);
      ImportedAreNamed(r4, kind, V4, t4);
      ImportedAreNamed(r6, kind, V6, t4);
      ImportedAreNamed(r4, kind, V4, t6);
      ImportedAreNamed(r6, kind, V6, t6);
    }
  }

  /** The agent's pairs are the named ones exactly when each of those can be carried. */
  lemma CarriedSetIff(named: seq<(string, int)>)
    ensures (forall pair: Meaning.Pair ::
               pair in Flat(Meaning.Carry, named) <==> pair.1.Some? && (pair.0, pair.1.value) in named)
            <==> forall i :: 0 <= i < |named| ==> Meaning.Carriable(named[i])
  {
    if forall i :: 0 <= i < |named| ==> Meaning.Carriable(named[i]) {
      forall pair: Meaning.Pair
        ensures pair in Flat(Meaning.Carry, named) <==> pair.1.Some? && (pair.0, pair.1.value) in named
      {
        CarriedWhole(named, pair);
      }
    } else {
      var i :| 0 <= i < |named| && !Meaning.Carriable(named[i]);
      var pair := LostPair(named, i);
    }
  }

  lemma CarriedWhole(named: seq<(string, int)>, pair: Meaning.Pair)
    requires forall i :: 0 <= i < |named| ==> Meaning.Carriable(named[i])
    ensures pair in Flat(Meaning.Carry, named) <==> pair.1.Some? && (pair.0, pair.1.value) in named
  {
    FlatMembers(Meaning.Carry, named, pair);
    forall x | x in named ensures Meaning.Carry(x) == [(x.0, Some(x.1))] {
      var i :| 0 <= i < |named| && named[i] == x;
    }
    if pair.1.Some? && (pair.0, pair.1.value) in named {
      assert pair in Meaning.Carry((pair.0, pair.1.value));
    }
  }

  /** A pair that tells the two apart. */
  lemma LostPair(named: seq<(string, int)>, i: nat) returns (pair: Meaning.Pair)
    requires i < |named| && !Meaning.Carriable(named[i])
    ensures !(pair in Flat(Meaning.Carry, named) <==> pair.1.Some? && (pair.0, pair.1.value) in named)
  {
    var x := named[i];
    pair := (x.0, if Meaning.Agent.Tagged(x.0) then Some(x.1) else None);
    FlatMembers(Meaning.Carry, named, pair);
    if !Meaning.Agent.Tagged(x.0) { assert pair in Meaning.Carry(x); }
  }

  /** Captures of agreeable lines, planned, imported and converted by the agent: the gate
      demands exactly what the input chain accepts (or drops) if and only if every named port
      is a port and no named protocol text holds a chain tag. */
  lemma GateMatchesImportIff(v4: seq<Line>, v6: seq<Line>, kind: RowKind)
    requires kind.Accept? || kind.Drop?
    requires PlanOf(v4, v6).Ok? && BothSurfaces(v4, v6).Ok?
    requires AllAgreeable(v4, |v4|) && AllAgreeable(v6, |v6|)
    ensures ParseDump(v4).Ok? && ParseDump(v6).Ok?
    ensures var named := Meaning.Named(ParseDump(v4).value, ParseDump(v6).value, kind);
            Renders(PlanOf(v4, v6).value.rowMeta, BothSurfaces(v4, v6).value, kind)
            <==> forall i :: 0 <= i < |named| ==> Meaning.Carriable(named[i])
  {
    Meaning.ImportMeaningCarried(v4, v6, kind);
    var named := Meaning.Named(ParseDump(v4).value, ParseDump(v6).value, kind);
    CarriedSetIff(named);
    forall pair: Meaning.Pair
      ensures Demands(BothSurfaces(v4, v6).value, kind, pair) <==> pair.1.Some? && (pair.0, pair.1.value) in named
    {
      DemandsNamed(v4, v6, kind, pair);
    }
  }
}
