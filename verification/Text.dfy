/** The string operations the scripts and agents lean on: decimal printing and the
    `int` parser, `strip`, `split`, `join`, `partition`, `lower` and substring search. */
module Text {
  import opened Wrappers

  // ---- Characters -----------------------------------------------------------

  predicate IsDigit(c: char) {
    '0' <= c <= '9'
  }

  /** White space, as `strip` and `int` see it. */
  predicate IsSpace(c: char) {
    c == ' ' || '\t' <= c <= '\r' || '\U{1C}' <= c <= '\U{1F}' || c == '\U{85}' || c == '\U{A0}' || c == '\U{1680}'
    || '\U{2000}' <= c <= '\U{200A}' || c in "\U{2028}\U{2029}\U{202F}\U{205F}\U{3000}"
  }

  predicate White(s: string) {
    forall i :: 0 <= i < |s| ==> IsSpace(s[i])
  }

  function DigitChar(d: nat): (c: char)
    requires d < 10
    ensures IsDigit(c) && DigitValue(c) == d
  {
    ('0' as int + d) as char
  }

  function DigitValue(c: char): (d: nat)
    requires IsDigit(c)
    ensures d < 10
  {
    c as int - '0' as int
  }

  // ---- Decimal numerals -----------------------------------------------------

  function Decimal(n: nat): (s: string)
    ensures s != [] && forall i :: 0 <= i < |s| ==> IsDigit(s[i])
  {
    if n < 10 then [DigitChar(n)] else Decimal(n / 10) + [DigitChar(n % 10)]
  }

  function PrintInt(n: int): string {
    if n < 0 then "-" + Decimal(-n) else Decimal(n)
  }

  predicate NumeralChars(s: string) {
    forall i :: 0 <= i < |s| ==> IsDigit(s[i]) || s[i] == '_'
  }

  /** Digits, with single underscores allowed between them. */
  predicate IsNumeral(s: string) {
    && NumeralChars(s) && s != [] && IsDigit(s[0]) && IsDigit(s[|s| - 1])
    && forall i :: 0 < i < |s| && s[i] == '_' ==> s[i - 1] != '_'
  }

  function NumeralValue(s: string): nat
    requires NumeralChars(s)
  {
    if s == [] then 0
    else if s[|s| - 1] == '_' then NumeralValue(s[..|s| - 1])
    else NumeralValue(s[..|s| - 1]) * 10 + DigitValue(s[|s| - 1])
  }

  function ParseNat(s: string): Option<nat> {
    if IsNumeral(s) then Some(NumeralValue(s)) else None
  }

  /** White space around it, an optional sign, a numeral. */
  function ParseInt(s: string): Option<int> {
    var t := Strip(s);
    if t != [] && (t[0] == '-' || t[0] == '+') then
      var n := ParseNat(t[1..]);
      if n.None? then None else
        var v: int := n.value;
        Some(if t[0] == '-' then -v else v)
    else
      var n := ParseNat(t);
      if n.None? then None else Some(n.value)
  }

  lemma {:induction false} DecimalValue(n: nat)
    ensures NumeralValue(Decimal(n)) == n && IsNumeral(Decimal(n))
  {
    if n >= 10 {
      DecimalValue(n / 10);
      assert Decimal(n)[..|Decimal(n)| - 1] == Decimal(n / 10);
    } else {
      assert Decimal(n)[..0] == [];
    }
  }

  lemma DecimalInjective(m: nat, n: nat)
    requires Decimal(m) == Decimal(n)
    ensures m == n
  {
    DecimalValue(m);
    DecimalValue(n);
  }

  lemma DigitIsNoSpace(c: char)
    requires IsDigit(c) || c == '-'
    ensures !IsSpace(c)
  {
  }

  lemma StripIdle(s: string)
    requires s != "" && !IsSpace(s[0]) && !IsSpace(s[|s| - 1])
    ensures Strip(s) == s
  {
  }

  lemma ParsePrintedInt(n: int)
    ensures ParseInt(PrintInt(n)) == Some(n)
    ensures Strip(PrintInt(n)) == PrintInt(n) && PrintInt(n) != []
  {
    var s, d := PrintInt(n), Decimal(if n < 0 then -n else n);
    DecimalValue(if n < 0 then -n else n);
    DigitIsNoSpace(s[0]);
    DigitIsNoSpace(s[|s| - 1]);
    StripIdle(s);
    if n < 0 { assert s[1..] == d; }
  }

  // ---- Trimming -------------------------------------------------------------

  function StripLeft(s: string): string {
    if s != [] && IsSpace(s[0]) then StripLeft(s[1..]) else s
  }

  function StripRight(s: string): string {
    if s != [] && IsSpace(s[|s| - 1]) then StripRight(s[..|s| - 1]) else s
  }

  function RStripDots(s: string): string {
    if s != [] && s[|s| - 1] == '.' then RStripDots(s[..|s| - 1]) else s
  }

  function Strip(s: string): string {
    StripRight(StripLeft(s))
  }

  lemma {:induction false} StripLeftBlank(s: string)
    ensures StripLeft(s) == "" <==> White(s)
  {
    if s != "" {
      StripLeftBlank(s[1..]);
      assert s == [s[0]] + s[1..];
    }
  }

  lemma {:induction false} StripRightBlank(s: string)
    ensures StripRight(s) == "" <==> White(s)
  {
    if s != "" {
      StripRightBlank(s[..|s| - 1]);
      assert s == s[..|s| - 1] + [s[|s| - 1]];
    }
  }

  lemma {:induction false} StripLeftPast(w: string, s: string)
    requires White(w)
    ensures StripLeft(w + s) == StripLeft(s)
  {
    if w == "" {
      assert w + s == s;
    } else {
      StripLeftPast(w[1..], s);
      assert (w + s)[1..] == w[1..] + s;
    }
  }

  lemma {:induction false} StripRightPast(s: string, w: string)
    requires White(w)
    ensures StripRight(s + w) == StripRight(s)
  {
    if w == "" {
      assert s + w == s;
    } else {
      StripRightPast(s, w[..|w| - 1]);
      assert (s + w)[..|s + w| - 1] == s + w[..|w| - 1];
    }
  }

  lemma {:induction false} StripLeftOf(s: string, t: string)
    requires !White(s)
    ensures StripLeft(s + t) == StripLeft(s) + t
  {
    if IsSpace(s[0]) {
      assert s == [s[0]] + s[1..];
      StripLeftOf(s[1..], t);
      assert (s + t)[1..] == s[1..] + t;
    }
  }

  lemma {:induction false} StripRightOf(t: string, s: string)
    requires !White(s)
    ensures StripRight(t + s) == t + StripRight(s)
  {
    if IsSpace(s[|s| - 1]) {
      assert s == s[..|s| - 1] + [s[|s| - 1]];
      StripRightOf(t, s[..|s| - 1]);
      assert (t + s)[..|t + s| - 1] == t + s[..|s| - 1];
    }
  }

  lemma {:induction false} StripLeftCuts(s: string) returns (w: string)
    ensures White(w) && s == w + StripLeft(s)
    ensures StripLeft(s) != "" ==> !IsSpace(StripLeft(s)[0])
  {
    w := "";
    if s != "" && IsSpace(s[0]) {
      var rest := StripLeftCuts(s[1..]);
      w := [s[0]] + rest;
      assert s == [s[0]] + s[1..];
    }
  }

  lemma {:induction false} StripRightCuts(s: string) returns (w: string)
    ensures White(w) && s == StripRight(s) + w
  {
    w := "";
    if s != "" && IsSpace(s[|s| - 1]) {
      var rest := StripRightCuts(s[..|s| - 1]);
      w := rest + [s[|s| - 1]];
      assert s == s[..|s| - 1] + [s[|s| - 1]];
    }
  }

  /** Either end may be trimmed first. */
  lemma StripsCommute(s: string)
    ensures StripLeft(StripRight(s)) == Strip(s)
  {
    var w := StripLeftCuts(s);
    var text := StripLeft(s);
    StripLeftBlank(s);
    StripRightBlank(s);
    if !White(s) {
      StripLeftBlank(text);
      StripRightBlank(text);
      StripRightOf(w, text);
      StripLeftPast(w, StripRight(text));
      var z := StripRightCuts(text);
      assert StripRight(text)[0] == text[0];
    }
  }

  /** Trimming a trimmed text again. */
  lemma StripAfterTrim(s: string)
    ensures Strip(StripLeft(s)) == Strip(s) && Strip(StripRight(s)) == Strip(s)
  {
    var w := StripLeftCuts(s);
    assert StripLeft(StripLeft(s)) == StripLeft(s);
    var z := StripRightCuts(s);
    StripsCommute(s);
    StripsCommute(StripRight(s));
    assert StripRight(StripRight(s)) == StripRight(s) by { StripRightTwice(s); }
  }

  lemma {:induction false} StripRightTwice(s: string)
    ensures StripRight(StripRight(s)) == StripRight(s)
  {
    if s != "" && IsSpace(s[|s| - 1]) { StripRightTwice(s[..|s| - 1]); }
  }

  // ---- Splitting and joining ------------------------------------------------

  function Split(s: string, sep: char): (parts: seq<string>)
    ensures parts != []
  {
    if s == [] then [""]
    else if s[0] == sep then [""] + Split(s[1..], sep)
    else
      var rest := Split(s[1..], sep);
      [[s[0]] + rest[0]] + rest[1..]
  }

  function Join(parts: seq<string>, sep: string): string {
    if parts == [] then ""
    else if |parts| == 1 then parts[0]
    else parts[0] + sep + Join(parts[1..], sep)
  }

  lemma {:induction false} SplitFirst(p: string, rest: string, sep: char)
    requires sep !in p
    ensures Split(p, sep) == [p]
    ensures Split(p + [sep] + rest, sep) == [p] + Split(rest, sep)
  {
    if p == [] {
      assert p + [sep] + rest == [sep] + rest;
      assert ([sep] + rest)[1..] == rest;
    } else {
      SplitFirst(p[1..], rest, sep);
      assert (p + [sep] + rest)[1..] == p[1..] + [sep] + rest;
      assert [p[0]] + p[1..] == p;
    }
  }

  lemma {:induction false} SplitJoin(parts: seq<string>, sep: char)
    requires parts != [] && forall p :: p in parts ==> sep !in p
    ensures Split(Join(parts, [sep]), sep) == parts
  {
    if |parts| == 1 {
      SplitFirst(parts[0], "", sep);
    } else {
      SplitJoin(parts[1..], sep);
      SplitFirst(parts[0], Join(parts[1..], [sep]), sep);
      assert parts == [parts[0]] + parts[1..];
    }
  }

  /** Two lists of pieces whose inner ends are one piece. */
  function Merge(p: seq<string>, q: seq<string>): seq<string>
    requires p != [] && q != []
  {
    p[..|p| - 1] + [p[|p| - 1] + q[0]] + q[1..]
  }

  lemma MergeAfter(first: seq<string>, p: seq<string>, q: seq<string>)
    requires p != [] && q != []
    ensures Merge(first + p, q) == first + Merge(p, q)
  {
    assert (first + p)[..|first + p| - 1] == first + p[..|p| - 1];
  }

  lemma MergeGrows(head: string, p: seq<string>, q: seq<string>)
    requires p != [] && q != []
    ensures Merge([head + p[0]] + p[1..], q) == [head + Merge(p, q)[0]] + Merge(p, q)[1..]
  {
    if |p| == 1 {
      assert (head + p[0]) + q[0] == head + (p[0] + q[0]);
    } else {
      assert p == [p[0]] + p[1..];
      MergeAfter([p[0]], p[1..], q);
      MergeAfter([head + p[0]], p[1..], q);
    }
  }

  /** Splitting a concatenation: the pieces on either side of the seam merge. */
  lemma {:induction false} SplitConcat(a: string, b: string, sep: char)
    ensures Split(a + b, sep) == Merge(Split(a, sep), Split(b, sep))
  {
    var q := Split(b, sep);
    if a == [] {
      assert a + b == b;
      assert [""][0] + q[0] == q[0];
      assert Merge([""], q) == q;
    } else {
      SplitConcat(a[1..], b, sep);
      assert (a + b)[1..] == a[1..] + b;
      if a[0] == sep {
        MergeAfter([""], Split(a[1..], sep), q);
      } else {
        MergeGrows([a[0]], Split(a[1..], sep), q);
      }
    }
  }

  lemma SplitAtSeparator(a: string, b: string, sep: char)
    ensures Split(a + [sep] + b, sep) == Split(a, sep) + Split(b, sep)
  {
    var p, q := Split(a, sep), Split(b, sep);
    SplitConcat(a, [sep] + b, sep);
    assert a + [sep] + b == a + ([sep] + b);
    assert ([sep] + b)[1..] == b;
    assert p[|p| - 1] + "" == p[|p| - 1];
    assert Merge(p, [""] + q) == p + q;
  }

  /** Trimming the front of a text trims the front of its first piece. */
  lemma {:induction false} SplitStripLeft(s: string, sep: char)
    requires !IsSpace(sep)
    ensures Split(StripLeft(s), sep) == [StripLeft(Split(s, sep)[0])] + Split(s, sep)[1..]
  {
    if s != "" && IsSpace(s[0]) {
      SplitStripLeft(s[1..], sep);
      var rest := Split(s[1..], sep);
      assert ([s[0]] + rest[0])[1..] == rest[0];
    }
  }

  /** Trimming the back of a text trims the back of its last piece. */
  lemma {:induction false} SplitStripRight(s: string, sep: char)
    requires !IsSpace(sep)
    ensures var p := Split(s, sep);
            Split(StripRight(s), sep) == p[..|p| - 1] + [StripRight(p[|p| - 1])]
  {
    if s != "" {
      var front, c := s[..|s| - 1], s[|s| - 1];
      assert s == front + [c];
      SplitOneMore(front, c, sep);
      if IsSpace(c) {
        SplitStripRight(front, sep);
        var last := Split(front, sep)[|Split(front, sep)| - 1];
        assert (last + [c])[..|last|] == last;
      }
    }
  }

  lemma SplitChar(c: char, sep: char)
    ensures Split([c], sep) == if c == sep then ["", ""] else [[c]]
  {
    assert [c][1..] == "" && [c] + "" == [c];
  }

  lemma SplitOneMore(s: string, c: char, sep: char)
    ensures var p := Split(s, sep);
            Split(s + [c], sep) == if c == sep then p + [""] else p[..|p| - 1] + [p[|p| - 1] + [c]]
  {
    var p := Split(s, sep);
    SplitConcat(s, [c], sep);
    SplitChar(c, sep);
    assert p[|p| - 1] + "" == p[|p| - 1];
  }

  lemma {:induction false} JoinAppend(a: seq<string>, b: seq<string>, sep: string)
    requires a != [] && b != []
    ensures Join(a + b, sep) == Join(a, sep) + sep + Join(b, sep)
  {
    assert (a + b)[1..] == a[1..] + b;
    if |a| > 1 {
      JoinAppend(a[1..], b, sep);
      JoinHead(a[0], Join(a[1..], sep), Join(b, sep), sep);
    }
  }

  lemma JoinHead(x: string, y: string, z: string, sep: string)
    ensures x + sep + (y + sep + z) == (x + sep + y) + sep + z
  {
  }

  predicate EndsWith(s: string, suffix: string) {
    |suffix| <= |s| && s[|s| - |suffix|..] == suffix
  }

  predicate Plain(parts: seq<string>, sep: char) {
    parts != [] && forall i :: 0 <= i < |parts| ==> sep !in parts[i]
  }

  lemma SplitPlain(parts: seq<string>, sep: char)
    requires Plain(parts, sep)
    ensures Split(Join(parts, [sep]), sep) == parts
  {
    SplitJoin(parts, sep);
  }

  lemma JoinInjective(a: seq<string>, b: seq<string>, sep: char)
    requires Plain(a, sep) && Plain(b, sep)
    ensures Join(a, [sep]) == Join(b, [sep]) <==> a == b
  {
    SplitPlain(a, sep);
    SplitPlain(b, sep);
  }

  /** The later parts agree; the first of the shorter list is a text suffix of its match. */
  predicate SuffixOfParts(whole: seq<string>, end: seq<string>)
    requires end != []
  {
    && |end| <= |whole|
    && whole[|whole| - |end| + 1..] == end[1..]
    && EndsWith(whole[|whole| - |end|], end[0])
  }

  /** When one joined text ends with another, their parts line up except at the front
      of the shorter one, where text is all that is compared. */
  lemma SuffixOfJoin(whole: seq<string>, end: seq<string>, sep: char)
    requires Plain(whole, sep) && Plain(end, sep)
    ensures EndsWith(Join(whole, [sep]), Join(end, [sep])) <==> SuffixOfParts(whole, end)
  {
    var s, z := Join(whole, [sep]), Join(end, [sep]);
    if EndsWith(s, z) { SuffixByParts(whole, end, sep); }
    if SuffixOfParts(whole, end) { SuffixByText(whole, end, sep); }
  }

  lemma SuffixByParts(whole: seq<string>, end: seq<string>, sep: char)
    requires Plain(whole, sep) && Plain(end, sep) && EndsWith(Join(whole, [sep]), Join(end, [sep]))
    ensures SuffixOfParts(whole, end)
  {
    var s, z := Join(whole, [sep]), Join(end, [sep]);
    var x := s[..|s| - |z|];
    assert s == x + z;
    SplitPlain(whole, sep);
    SplitPlain(end, sep);
    SplitConcat(x, z, sep);
    var p := Split(x, sep);
    var seam := p[|p| - 1] + end[0];
    assert whole == p[..|p| - 1] + [seam] + end[1..];
    assert seam[|seam| - |end[0]|..] == end[0];
  }

  lemma SuffixByText(whole: seq<string>, end: seq<string>, sep: char)
    requires end != [] && SuffixOfParts(whole, end)
    ensures EndsWith(Join(whole, [sep]), Join(end, [sep]))
  {
    var i := |whole| - |end|;
    var y := whole[i][..|whole[i]| - |end[0]|];
    assert whole[i] == y + end[0];
    var tail := whole[i..];
    assert tail[1..] == end[1..];
    assert Join(tail, [sep]) == y + Join(end, [sep]);
    if i > 0 {
      JoinAppend(whole[..i], tail, [sep]);
      assert whole[..i] + tail == whole;
    } else {
      assert tail == whole;
    }
  }

  /** Everything before and after the first `sep`; the whole and "" when there is none. */
  function Partition(s: string, sep: char): (cut: (string, string)) {
    if s == [] then ("", "")
    else if s[0] == sep then ("", s[1..])
    else
      var rest := Partition(s[1..], sep);
      ([s[0]] + rest.0, rest.1)
  }

  lemma {:induction false} PartitionAt(a: string, b: string, sep: char)
    requires sep !in a
    ensures Partition(a + [sep] + b, sep) == (a, b)
  {
    var s := a + [sep] + b;
    if a == "" {
      assert s[1..] == b;
    } else {
      PartitionAt(a[1..], b, sep);
      assert s[1..] == a[1..] + [sep] + b;
      assert a == [a[0]] + a[1..];
    }
  }

  function ReplaceChar(s: string, a: char, b: char): string {
    if s == [] then "" else [if s[0] == a then b else s[0]] + ReplaceChar(s[1..], a, b)
  }

  lemma {:induction false} ReplaceCharIdle(s: string, a: char, b: char)
    requires a !in s
    ensures ReplaceChar(s, a, b) == s
  {
    if s != [] {
      ReplaceCharIdle(s[1..], a, b);
      assert s == [s[0]] + s[1..];
    }
  }

  lemma {:induction false} ReplaceCharAt(s: string, t: string, a: char, b: char)
    requires a !in s && a !in t
    ensures ReplaceChar(s + [a] + t, a, b) == s + [b] + t
  {
    var all := s + [a] + t;
    if s == "" {
      assert all[1..] == t;
      ReplaceCharIdle(t, a, b);
    } else {
      ReplaceCharAt(s[1..], t, a, b);
      assert all[1..] == s[1..] + [a] + t;
      assert s == [s[0]] + s[1..];
    }
  }

  /** Every non-overlapping occurrence of `a`, from the left. */
  function ReplaceAll(s: string, a: string, b: string): string
    requires a != []
    decreases |s|
  {
    if |s| < |a| then s
    else if s[..|a|] == a then b + ReplaceAll(s[|a|..], a, b)
    else [s[0]] + ReplaceAll(s[1..], a, b)
  }

  // ---- What trimming and splitting keep --------------------------------------

  lemma {:induction false} StripKeeps(s: string, c: char)
    requires c in s && !IsSpace(c)
    ensures c in Strip(s)
  {
    StripLeftKeeps(s, c);
    StripRightKeeps(StripLeft(s), c);
  }

  lemma {:induction false} StripLeftKeeps(s: string, c: char)
    requires c in s && !IsSpace(c)
    ensures c in StripLeft(s)
  {
    if IsSpace(s[0]) { StripLeftKeeps(s[1..], c); }
  }

  lemma {:induction false} StripRightKeeps(s: string, c: char)
    requires c in s && !IsSpace(c)
    ensures c in StripRight(s)
  {
    if IsSpace(s[|s| - 1]) { StripRightKeeps(s[..|s| - 1], c); }
  }

  lemma {:induction false} PartitionKeeps(s: string, sep: char, c: char)
    requires c in s && c != sep
    ensures c in Partition(s, sep).0 || c in Partition(s, sep).1
  {
    if s[0] != sep && s[0] != c { PartitionKeeps(s[1..], sep, c); }
  }

  lemma {:induction false} SplitKeeps(s: string, sep: char, c: char) returns (i: nat)
    requires c in s && c != sep
    ensures i < |Split(s, sep)| && c in Split(s, sep)[i]
  {
    i := 0;
    if s[0] != c {
      var k := SplitKeeps(s[1..], sep, c);
      i := if s[0] == sep then k + 1 else k;
    }
  }

  /** A character no integer literal holds. */
  lemma ParseIntRejects(s: string, c: char)
    requires c in s && !IsSpace(c) && !IsDigit(c) && c !in "_+-"
    ensures ParseInt(s).None?
  {
    StripKeeps(s, c);
    var t := Strip(s);
    var k :| 0 <= k < |t| && t[k] == c;
    if t[0] == '-' || t[0] == '+' { assert t[1..][k - 1] == c; }
  }

  // ---- Searching ------------------------------------------------------------

  predicate StartsWith(s: string, prefix: string) {
    prefix <= s
  }

  predicate OccursAt(s: string, sub: string, i: nat) {
    i + |sub| <= |s| && s[i..i + |sub|] == sub
  }

  predicate Contains(s: string, sub: string) {
    exists i: nat :: i <= |s| && OccursAt(s, sub, i)
  }

  function LowerChar(c: char): char {
    if 'A' <= c <= 'Z' then (c as int + 32) as char else c
  }

  function Lower(s: string): (t: string)
    ensures |t| == |s| && forall i :: 0 <= i < |s| ==> t[i] == LowerChar(s[i])
  {
    seq(|s|, i requires 0 <= i < |s| => LowerChar(s[i]))
  }

  lemma LowerAppend(a: string, b: string)
    ensures Lower(a + b) == Lower(a) + Lower(b)
  {
  }

  lemma ContainsInLarger(a: string, b: string, c: string, sub: string)
    requires Contains(b, sub)
    ensures Contains(a + b + c, sub)
  {
    var i: nat :| i <= |b| && OccursAt(b, sub, i);
    assert (a + b + c)[|a| + i..|a| + i + |sub|] == b[i..i + |sub|];
    assert OccursAt(a + b + c, sub, |a| + i);
  }

  /** Text cannot occur across a character it does not hold. */
  lemma ContainsAcross(a: string, c: char, b: string, sub: string)
    requires c !in sub && Contains(a + [c] + b, sub)
    ensures Contains(a, sub) || Contains(b, sub)
  {
    var s := a + [c] + b;
    var i: nat :| i <= |s| && OccursAt(s, sub, i);
    forall k | i <= k < i + |sub| ensures s[k] in sub { assert s[k] == s[i..i + |sub|][k - i]; }
    assert s[|a|] == c;
    if i + |sub| <= |a| {
      assert a[i..i + |sub|] == s[i..i + |sub|];
      assert OccursAt(a, sub, i);
    } else if i > |a| {
      var j := i - |a| - 1;
      assert b[j..j + |sub|] == s[i..i + |sub|];
      assert OccursAt(b, sub, j);
    } else {
      assert false;
    }
  }
}
