/** Reverse DNS naming (section 3.5 of RFC 1035, section 2.5 of RFC 3596): the zone name of
    a network, the pointer name of an address, and the record name the console computes
    by cutting one off the other as text. */
module ReverseZones {
  import opened Wrappers
  import opened Text
  import opened Addresses

  // ---- Digits -----------------------------------------------------------------

  /** Bits per label: an octet for IPv4, a nibble for IPv6. */
  function LabelBits(width: nat): nat {
    if width == 32 then 8 else 4
  }

  function LabelCount(width: nat): nat {
    if width == 32 then 4 else 32
  }

  function LabelBase(width: nat): nat {
    if width == 32 then 256 else 16
  }

  function LastDigit(width: nat, v: nat): (d: nat)
    ensures d < LabelBase(width)
  {
    if width == 32 then v % 256 else v % 16
  }

  function DropDigit(width: nat, v: nat): nat {
    if width == 32 then v / 256 else v / 16
  }

  /** The `n` lowest digits of `v`, most significant first. */
  function Digits(width: nat, v: nat, n: nat): (ds: seq<nat>)
    ensures |ds| == n && forall i :: 0 <= i < n ==> ds[i] < LabelBase(width)
  {
    if n == 0 then [] else Digits(width, DropDigit(width, v), n - 1) + [LastDigit(width, v)]
  }

  function DropDigits(width: nat, v: nat, m: nat): nat {
    if m == 0 then v else DropDigits(width, DropDigit(width, v), m - 1)
  }

  lemma {:induction false} DigitsPrefix(width: nat, v: nat, n: nat, k: nat)
    requires k <= n
    ensures Digits(width, v, n)[..k] == Digits(width, DropDigits(width, v, n - k), k)
  {
    if k < n {
      DigitsPrefix(width, DropDigit(width, v), n - 1, k);
      assert Digits(width, v, n)[..k] == Digits(width, DropDigit(width, v), n - 1)[..k];
    }
  }

  /** `v` has at most `n` digits. */
  predicate Fits(width: nat, v: nat, n: nat) {
    if n == 0 then v == 0 else Fits(width, DropDigit(width, v), n - 1)
  }

  lemma {:induction false} DigitsInjective(width: nat, u: nat, v: nat, n: nat)
    requires Fits(width, u, n) && Fits(width, v, n)
    requires Digits(width, u, n) == Digits(width, v, n)
    ensures u == v
  {
    if n > 0 {
      var du, dv := Digits(width, u, n), Digits(width, v, n);
      assert du[n - 1] == LastDigit(width, u) && dv[n - 1] == LastDigit(width, v);
      assert du[..n - 1] == Digits(width, DropDigit(width, u), n - 1);
      assert dv[..n - 1] == Digits(width, DropDigit(width, v), n - 1);
      DigitsInjective(width, DropDigit(width, u), DropDigit(width, v), n - 1);
    }
  }

  lemma {:induction false} DropKeepsFit(width: nat, v: nat, n: nat, m: nat)
    requires Fits(width, v, n) && m <= n
    ensures Fits(width, DropDigits(width, v, m), n - m)
  {
    if m > 0 { DropKeepsFit(width, DropDigit(width, v), n - 1, m - 1); }
  }

  /** Two numbers share their first `k` digits exactly when they agree once the other
      digits are dropped. */
  lemma SharedPrefix(width: nat, u: nat, v: nat, n: nat, k: nat)
    requires k <= n && Fits(width, u, n) && Fits(width, v, n)
    ensures Digits(width, u, n)[..k] == Digits(width, v, n)[..k]
            <==> DropDigits(width, u, n - k) == DropDigits(width, v, n - k)
  {
    DigitsPrefix(width, u, n, k);
    DigitsPrefix(width, v, n, k);
    DropKeepsFit(width, u, n, n - k);
    DropKeepsFit(width, v, n, n - k);
    var a, b := DropDigits(width, u, n - k), DropDigits(width, v, n - k);
    if Digits(width, a, k) == Digits(width, b, k) { DigitsInjective(width, a, b, k); }
  }

  // Dropping digits is dividing by a power of two.

  lemma DivBounds(v: nat, c: nat)
    requires c > 0
    ensures c * (v / c) <= v < c * (v / c) + c
  {
  }

  lemma Times(a: nat, b: nat, c: nat)
    ensures (a * b) * c == a * (b * c)
  {
  }

  lemma DropThenDivide(width: nat, v: nat, c: nat)
    requires c > 0
    ensures LabelBase(width) * c > 0
    ensures DropDigit(width, v) / c == v / (LabelBase(width) * c)
  {
    var q := DropDigit(width, v);
    var q2 := q / c;
    DivBounds(q, c);
    var x := c * q2;
    if width == 32 {
      Times(256, c, q2);
      assert 256 * x <= v < 256 * x + 256 * c;
      QuotientCancels(256 * c, v, q2);
    } else {
      Times(16, c, q2);
      assert 16 * x <= v < 16 * x + 16 * c;
      QuotientCancels(16 * c, v, q2);
    }
  }

  lemma {:induction false} DropIsDivision(width: nat, v: nat, m: nat)
    ensures DropDigits(width, v, m) == v / Pow(LabelBase(width), m)
  {
    if m > 0 {
      DropIsDivision(width, DropDigit(width, v), m - 1);
      DropThenDivide(width, v, Pow(LabelBase(width), m - 1));
    }
  }

  lemma {:induction false} BitsOfDigits(width: nat, m: nat)
    ensures Pow(2, LabelBits(width) * m) == Pow(LabelBase(width), m)
  {
    if m > 0 {
      BitsOfDigits(width, m - 1);
      var bits := LabelBits(width);
      var e := bits * (m - 1);
      assert bits * m == e + bits;
      assert Pow(2, e + 4) == 16 * Pow(2, e) by {
        assert Pow(2, e + 2) == 4 * Pow(2, e) && Pow(2, e + 4) == 4 * Pow(2, e + 2);
      }
      if width == 32 {
        assert Pow(2, e + 8) == 16 * Pow(2, e + 4) by {
          assert Pow(2, e + 6) == 4 * Pow(2, e + 4) && Pow(2, e + 8) == 4 * Pow(2, e + 6);
        }
      }
    }
  }

  /** Numbers below one that fits, fit. */
  lemma {:induction false} FitsBelow(width: nat, u: nat, v: nat, n: nat)
    requires u <= v && Fits(width, v, n)
    ensures Fits(width, u, n)
  {
    if n > 0 {
      assert DropDigit(width, u) <= DropDigit(width, v);
      FitsBelow(width, DropDigit(width, u), DropDigit(width, v), n - 1);
    }
  }

  // ---- Labels -----------------------------------------------------------------

  datatype Failure = BadBoundary | OtherZone | NotReverse | OutsideNetwork

  predicate ValidIp(ip: Ip) {
    (ip.width == 32 || ip.width == 128) && Fits(ip.width, ip.value, LabelCount(ip.width))
  }

  predicate ValidNet(net: Net) {
    net.prefix <= net.width && ValidIp(Ip(net.width, net.base))
  }

  predicate IsHexDigit(c: char) {
    IsDigit(c) || 'a' <= c <= 'f'
  }

  function HexDigit(d: nat): (c: char)
    requires d < 16
    ensures IsHexDigit(c)
  {
    if d < 10 then DigitChar(d) else ('a' as int + (d - 10)) as char
  }

  function Label(width: nat, digit: nat): (s: string)
    requires digit < LabelBase(width)
    ensures s != "" && forall i :: 0 <= i < |s| ==> IsHexDigit(s[i])
  {
    if width == 32 then Decimal(digit) else [HexDigit(digit)]
  }

  lemma LabelInjective(width: nat, c: nat, d: nat)
    requires c < LabelBase(width) && d < LabelBase(width) && Label(width, c) == Label(width, d)
    ensures c == d
  {
    if width == 32 {
      DecimalInjective(c, d);
    } else {
      assert Label(width, c)[0] == HexDigit(c) && Label(width, d)[0] == HexDigit(d);
      if c < 10 && d < 10 { assert DigitValue(HexDigit(c)) == DigitValue(HexDigit(d)); }
    }
  }

  predicate HexLabel(s: string) {
    s != "" && forall i :: 0 <= i < |s| ==> IsHexDigit(s[i])
  }

  predicate HexLabels(labels: seq<string>) {
    forall i :: 0 <= i < |labels| ==> HexLabel(labels[i])
  }

  /** The address's labels, most significant first. */
  function Labels(ip: Ip): (labels: seq<string>)
    ensures |labels| == LabelCount(ip.width) && HexLabels(labels)
  {
    var ds := Digits(ip.width, ip.value, LabelCount(ip.width));
    seq(|ds|, i requires 0 <= i < |ds| => Label(ip.width, ds[i]))
  }

  function Reversed<T>(s: seq<T>): (r: seq<T>)
    ensures |r| == |s| && forall i :: 0 <= i < |s| ==> r[i] == s[|s| - 1 - i]
  {
    seq(|s|, i requires 0 <= i < |s| => s[|s| - 1 - i])
  }

  lemma ReversedInjective<T>(s: seq<T>, t: seq<T>)
    requires Reversed(s) == Reversed(t)
    ensures s == t
  {
    forall i | 0 <= i < |s| ensures |s| == |t| && s[i] == t[i] {
      assert s[i] == Reversed(s)[|s| - 1 - i];
      assert |Reversed(t)| == |t|;
      assert t[i] == Reversed(t)[|t| - 1 - i];
    }
    assert |Reversed(s)| == |s| && |Reversed(t)| == |t|;
  }

  lemma ReversedCut<T>(s: seq<T>, k: nat)
    requires k <= |s|
    ensures Reversed(s) == Reversed(s[k..]) + Reversed(s[..k])
  {
  }

  /** The two labels of in-addr.arpa or ip6.arpa. */
  function Root(width: nat): (labels: seq<string>)
    ensures |labels| == 2 && Plain(labels, '.')
  {
    if width == 32 then ["in-addr", "arpa"] else ["ip6", "arpa"]
  }

  // ---- Names ------------------------------------------------------------------

  function ReversePointer(ip: Ip): string {
    Join(Reversed(Labels(ip)), ".") + "." + Join(Root(ip.width), ".")
  }

  /** The network with its host bits cleared. */
  function Masked(net: Net): Net
    requires net.prefix <= net.width
  {
    net.(base := net.base - net.base % Size(net))
  }

  predicate OnBoundary(net: Net) {
    net.prefix % LabelBits(net.width) == 0
  }

  /** How many labels the prefix covers. */
  function Depth(net: Net): (k: nat)
    requires ValidNet(net)
    ensures k <= LabelCount(net.width) && (k == 0 <==> net.prefix < LabelBits(net.width))
  {
    if net.width == 32 then net.prefix / 8 else net.prefix / 4
  }

  function NetLabels(net: Net): (labels: seq<string>)
    requires ValidNet(net)
    ensures |labels| == Depth(net) && HexLabels(labels)
  {
    Labels(Ip(net.width, Masked(net).base))[..Depth(net)]
  }

  function ReverseZoneName(net: Net): Result<string, Failure>
    requires ValidNet(net)
  {
    if !OnBoundary(net) then Err(BadBoundary)
    else Ok(Join(Reversed(NetLabels(net)), ".") + "." + Join(Root(net.width), "."))
  }

  function PtrNameForZone(ip: Ip, zone: string): Result<string, Failure> {
    var pointer, suffix := ReversePointer(ip), RStripDots(zone);
    if !EndsWith(pointer, suffix) then Err(OtherZone)
    else
      var relative := RStripDots(if suffix == "" then "" else pointer[..|pointer| - |suffix|]);
      Ok(if relative == "" then "@" else relative)
  }

  /** The zone row as far as record creation looks at it. */
  datatype Zone = Zone(name: string, isReverse: bool, network: Option<Net>)

  predicate ValidZone(zone: Zone) {
    zone.network.Some? ==> ValidNet(zone.network.value)
  }

  /** The row that creating a reverse zone for `net` stores. */
  function CreateReverseZone(net: Net): Result<Zone, Failure>
    requires ValidNet(net)
  {
    var name := ReverseZoneName(net);
    if name.Err? then Err(name.error) else Ok(Zone(name.value, true, Some(net)))
  }

  function CreatePtrName(zone: Zone, ip: Ip): Result<string, Failure>
    requires ValidZone(zone)
  {
    if !zone.isReverse then Err(NotReverse)
    else if zone.network.Some? && !Holds(Masked(zone.network.value), ip) then Err(OutsideNetwork)
    else PtrNameForZone(ip, zone.name)
  }

  /** What a name server makes of the record: the zone itself for "@", else name.zone. */
  function FullName(name: string, zone: string): string {
    if name == "@" then zone else name + "." + zone
  }

  // ---- Names as lists of labels -------------------------------------------------

  function PointerParts(ip: Ip): (parts: seq<string>) {
    Reversed(Labels(ip)) + Root(ip.width)
  }

  /** An empty first label when the prefix covers no label at all. */
  function Front(labels: seq<string>): seq<string> {
    if |labels| == 0 then [""] else Reversed(labels)
  }

  function ZoneParts(net: Net): (parts: seq<string>)
    requires ValidNet(net)
  {
    Front(NetLabels(net)) + Root(net.width)
  }

  lemma HexPlain(s: string)
    requires HexLabel(s)
    ensures '.' !in s && s != "@"
  {
    assert IsHexDigit(s[0]) && !IsHexDigit("@"[0]);
  }

  lemma ReversedPlain(labels: seq<string>)
    requires HexLabels(labels) && labels != []
    ensures Plain(Reversed(labels), '.')
  {
    var r := Reversed(labels);
    forall i | 0 <= i < |r| ensures '.' !in r[i] { HexPlain(labels[|labels| - 1 - i]); }
  }

  lemma PlainAppend(a: seq<string>, b: seq<string>)
    requires Plain(a, '.') && Plain(b, '.')
    ensures Plain(a + b, '.')
  {
  }

  lemma PointerJoined(ip: Ip)
    ensures Plain(PointerParts(ip), '.') && ReversePointer(ip) == Join(PointerParts(ip), ".")
  {
    ReversedPlain(Labels(ip));
    PlainAppend(Reversed(Labels(ip)), Root(ip.width));
    JoinAppend(Reversed(Labels(ip)), Root(ip.width), ".");
  }

  /** The `i`-th digit from the right is a quotient and a remainder. */
  lemma {:induction false} DigitFromRight(width: nat, v: nat, n: nat, i: nat)
    requires i < n
    ensures Digits(width, v, n)[n - 1 - i] == v / Pow(LabelBase(width), i) % LabelBase(width)
  {
    DigitsPrefix(width, v, n, n - i);
    DropIsDivision(width, v, i);
    assert Digits(width, v, n)[..n - i][n - 1 - i] == Digits(width, v, n)[n - 1 - i];
  }

  lemma HexIs(d: nat)
    requires d < 16
    ensures Label(128, d) == ["0123456789abcdef"[d]]
  {
  }

  /** What the reverse pointer of an address reads as: its octets in decimal, or its nibbles
      in hexadecimal, the least significant one first, under the root of its family. */
  lemma PointerReads(ip: Ip)
    requires ValidIp(ip)
    ensures ReversePointer(ip) == Join(PointerParts(ip), ".")
    ensures ip.width == 32 ==>
              && |PointerParts(ip)| == 6 && PointerParts(ip)[4..] == ["in-addr", "arpa"]
              && forall i :: 0 <= i < 4 ==> PointerParts(ip)[i] == Decimal(ip.value / Pow(256, i) % 256)
    ensures ip.width == 128 ==>
              && |PointerParts(ip)| == 34 && PointerParts(ip)[32..] == ["ip6", "arpa"]
              && forall i :: 0 <= i < 32 ==> PointerParts(ip)[i] == ["0123456789abcdef"[ip.value / Pow(16, i) % 16]]
  {
    PointerJoined(ip);
    forall i | 0 <= i < LabelCount(ip.width)
      ensures PointerParts(ip)[i] == Label(ip.width, ip.value / Pow(LabelBase(ip.width), i) % LabelBase(ip.width))
    {
      DigitFromRight(ip.width, ip.value, LabelCount(ip.width), i);
    }
    if ip.width == 128 {
      forall i | 0 <= i < 32 ensures PointerParts(ip)[i] == ["0123456789abcdef"[ip.value / Pow(16, i) % 16]] {
        HexIs(ip.value / Pow(16, i) % 16);
      }
    }
  }

  /** A zone name of nothing but dots takes every address, at the zone itself. */
  lemma RootZoneNamesItself(ip: Ip, zone: string)
    requires RStripDots(zone) == ""
    ensures PtrNameForZone(ip, zone) == Ok("@")
  {
    assert EndsWith(ReversePointer(ip), "");
  }

  lemma ZoneJoined(net: Net)
    requires ValidNet(net) && OnBoundary(net)
    ensures Plain(ZoneParts(net), '.') && ReverseZoneName(net) == Ok(Join(ZoneParts(net), "."))
  {
    var front := Front(NetLabels(net));
    if Depth(net) > 0 {
      ReversedPlain(NetLabels(net));
    } else {
      assert Reversed(NetLabels(net)) == [];
      assert Join([""], ".") == "" && Join(Reversed(NetLabels(net)), ".") == "";
    }
    PlainAppend(front, Root(net.width));
    JoinAppend(front, Root(net.width), ".");
  }

  // ---- Sharing labels is belonging to the network ---------------------------------

  lemma MaskedAligned(net: Net)
    requires ValidNet(net)
    ensures Aligned(Masked(net)) && ValidNet(Masked(net)) && Masked(net).base <= net.base
  {
    var n, v := Size(net), net.base;
    MaskIsMultiple(v, n);
    FitsBelow(net.width, Masked(net).base, v, LabelCount(net.width));
  }

  lemma MaskIsMultiple(v: nat, n: nat)
    requires n > 0
    ensures 0 <= v - v % n <= v && (v - v % n) % n == 0
  {
    var q := v / n;
    QuotientCancels(n, v, q);
    QuotientCancels(n, n * q, q);
  }

  lemma SizeInDigits(net: Net)
    requires ValidNet(net) && OnBoundary(net)
    ensures Size(net) == Pow(LabelBase(net.width), LabelCount(net.width) - Depth(net))
  {
    var rest := LabelCount(net.width) - Depth(net);
    BitsOfDigits(net.width, rest);
    if net.width == 32 {
      assert net.prefix == 8 * Depth(net);
    } else {
      assert net.prefix == 4 * Depth(net);
    }
    assert LabelBits(net.width) * rest == net.width - net.prefix;
  }

  lemma LabelsShareDigits(u: Ip, v: Ip, k: nat)
    requires u.width == v.width && k <= LabelCount(u.width)
    ensures Labels(u)[..k] == Labels(v)[..k]
            <==> Digits(u.width, u.value, LabelCount(u.width))[..k] == Digits(v.width, v.value, LabelCount(v.width))[..k]
  {
    var n := LabelCount(u.width);
    var c, d := Digits(u.width, u.value, n), Digits(v.width, v.value, n);
    if Labels(u)[..k] == Labels(v)[..k] {
      forall i | 0 <= i < k ensures c[i] == d[i] {
        assert Labels(u)[..k][i] == Label(u.width, c[i]) && Labels(v)[..k][i] == Label(v.width, d[i]);
        LabelInjective(u.width, c[i], d[i]);
      }
    }
    if c[..k] == d[..k] {
      forall i | 0 <= i < k ensures Labels(u)[i] == Labels(v)[i] {
        assert c[..k][i] == d[..k][i];
      }
    }
  }

  /** An address is in the network exactly when it starts with the network's labels. */
  lemma SharedLabels(net: Net, ip: Ip)
    requires ValidNet(net) && ValidIp(ip) && OnBoundary(net) && ip.width == net.width
    ensures Labels(ip)[..Depth(net)] == NetLabels(net) <==> Holds(Masked(net), ip)
  {
    MaskedAligned(net);
    var n, k := LabelCount(net.width), Depth(net);
    var base := Masked(net).base;
    HoldsIsDroppedDigits(net, ip);
    SharedPrefix(net.width, ip.value, base, n, k);
    LabelsShareDigits(ip, Ip(net.width, base), k);
  }

  lemma HoldsIsDroppedDigits(net: Net, ip: Ip)
    requires ValidNet(net) && OnBoundary(net) && ip.width == net.width
    ensures var m := LabelCount(net.width) - Depth(net);
            Holds(Masked(net), ip) <==> DropDigits(net.width, ip.value, m) == DropDigits(net.width, Masked(net).base, m)
  {
    MaskedAligned(net);
    SizeInDigits(net);
    var m := LabelCount(net.width) - Depth(net);
    HoldsIsQuotient(Masked(net), ip);
    DropIsDivision(net.width, ip.value, m);
    DropIsDivision(net.width, Masked(net).base, m);
  }

  // ---- Cutting a zone off a pointer -----------------------------------------------

  lemma {:induction false} StripsNothing(s: string)
    requires s != "" && s[|s| - 1] != '.'
    ensures RStripDots(s) == s && RStripDots(s + ".") == s
  {
    assert (s + ".")[..|s + "."| - 1] == s;
  }

  lemma {:induction false} JoinEndsPlain(parts: seq<string>)
    requires Plain(parts, '.') && parts[|parts| - 1] != ""
    ensures var s := Join(parts, "."); s != "" && s[|s| - 1] != '.'
  {
    if |parts| > 1 {
      JoinEndsPlain(parts[1..]);
    } else {
      var s := parts[0];
      assert s[|s| - 1] in s;
    }
  }

  lemma RootEnds(width: nat)
    ensures Root(width)[1] == "arpa"
  {
  }

  /** The zone name carries no trailing dot, so it is its own suffix. */
  lemma ZoneIsSuffix(net: Net)
    requires ValidNet(net) && OnBoundary(net)
    ensures var z := ReverseZoneName(net).value; z != "" && RStripDots(z) == z
  {
    ZoneJoined(net);
    RootEnds(net.width);
    JoinEndsPlain(ZoneParts(net));
    StripsNothing(ReverseZoneName(net).value);
  }

  /** An address inside the network splits into its own labels and the zone's. */
  lemma PointerThroughZone(net: Net, ip: Ip)
    requires ValidNet(net) && ValidIp(ip) && OnBoundary(net) && net.prefix > 0 && Holds(Masked(net), ip)
    ensures var z, own := ReverseZoneName(net).value, Reversed(Labels(ip)[Depth(net)..]);
            ReversePointer(ip) == if own == [] then z else Join(own, ".") + "." + z
  {
    SharedLabels(net, ip);
    PointerCut(ip, Depth(net));
    PointerJoined(ip);
    ZoneJoined(net);
    var own := Reversed(Labels(ip)[Depth(net)..]);
    assert PointerParts(ip) == own + ZoneParts(net) by { PrefixCovers(net); }
    if own == [] {
      assert own + ZoneParts(net) == ZoneParts(net);
    } else {
      JoinAppend(own, ZoneParts(net), ".");
    }
  }

  lemma PrefixCovers(net: Net)
    requires ValidNet(net) && OnBoundary(net)
    ensures net.prefix > 0 <==> Depth(net) > 0
    ensures net.prefix == net.width <==> Depth(net) == LabelCount(net.width)
  {
  }

  /** The pointer's parts, cut where `k` labels are left. */
  lemma PointerCut(ip: Ip, k: nat)
    requires k <= LabelCount(ip.width)
    ensures var own, rest := Reversed(Labels(ip)[k..]), Reversed(Labels(ip)[..k]) + Root(ip.width);
            && PointerParts(ip) == own + rest
            && PointerParts(ip)[|PointerParts(ip)| - k - 2..] == rest
  {
    ReversedCut(Labels(ip), k);
    var own, rest := Reversed(Labels(ip)[k..]), Reversed(Labels(ip)[..k]) + Root(ip.width);
    assert (own + rest)[|own|..] == rest;
  }

  lemma SameParts(a: seq<string>, b: seq<string>, root: seq<string>)
    requires |a| == |b|
    ensures Reversed(a) + root == Reversed(b) + root <==> a == b
  {
    if Reversed(a) + root == Reversed(b) + root {
      assert (Reversed(a) + root)[..|a|] == Reversed(a) && (Reversed(b) + root)[..|b|] == Reversed(b);
      ReversedInjective(a, b);
    }
  }

  /** Inside the network, cutting the zone's name off the pointer leaves exactly the
      labels the zone does not cover, or "@" when it covers them all; putting the zone
      back gives the pointer. */
  lemma InsideRoundTrip(net: Net, ip: Ip)
    requires ValidNet(net) && ValidIp(ip) && OnBoundary(net) && net.prefix > 0 && Holds(Masked(net), ip)
    ensures var z, own := ReverseZoneName(net).value, Reversed(Labels(ip)[Depth(net)..]);
            && PtrNameForZone(ip, z) == Ok(if net.prefix == net.width then "@" else Join(own, "."))
            && FullName(PtrNameForZone(ip, z).value, z) == ReversePointer(ip)
  {
    var z, rest := ReverseZoneName(net).value, Labels(ip)[Depth(net)..];
    var own, pointer := Reversed(rest), ReversePointer(ip);
    PointerThroughZone(net, ip);
    ZoneIsSuffix(net);
    assert own == [] <==> net.prefix == net.width;
    if own == [] {
      assert pointer[..|pointer| - |z|] == "";
    } else {
      OwnPart(rest);
      assert pointer == (Join(own, ".") + ".") + z;
      assert pointer[..|pointer| - |z|] == Join(own, ".") + ".";
    }
  }

  lemma OwnPart(rest: seq<string>)
    requires HexLabels(rest) && rest != []
    ensures var text := Join(Reversed(rest), "."); RStripDots(text + ".") == text && text != "" && text != "@"
  {
    ReversedPlain(rest);
    JoinEndsPlain(Reversed(rest));
    StripsNothing(Join(Reversed(rest), "."));
    NotAt(Reversed(rest));
  }

  /** Joined hexadecimal labels never read "@". */
  lemma NotAt(labels: seq<string>)
    requires HexLabels(labels) && labels != []
    ensures Join(labels, ".") != "@"
  {
    assert Join(labels, ".")[0] == labels[0][0];
    assert IsHexDigit(labels[0][0]) && !IsHexDigit("@"[0]);
  }

  // ---- When the textual test is right -----------------------------------------------

  /** The pointer's labels end with all of the zone's. */
  predicate EndsWithZone(net: Net, ip: Ip)
    requires ValidNet(net)
  {
    var p, z := PointerParts(ip), ZoneParts(net);
    |z| <= |p| && p[|p| - |z|..] == z
  }

  lemma EndsWithZoneIff(net: Net, ip: Ip)
    requires ValidNet(net) && ValidIp(ip) && OnBoundary(net)
    ensures EndsWithZone(net, ip) <==> net.prefix > 0 && Holds(Masked(net), ip)
  {
    var p, z, k := PointerParts(ip), ZoneParts(net), Depth(net);
    PrefixCovers(net);
    if ip.width != net.width {
      RootsDiffer(net, ip);
    } else if k > 0 {
      SharedLabels(net, ip);
      PointerCut(ip, k);
      SameParts(Labels(ip)[..k], NetLabels(net), Root(ip.width));
    } else {
      PointerCut(ip, 1);
      assert Reversed(Labels(ip)[..1]) == [Labels(ip)[0]];
      assert p[|p| - 3..][0] == Labels(ip)[0] && z[0] == "";
    }
  }

  /** The last labels tell the families apart. */
  lemma RootsDiffer(net: Net, ip: Ip)
    requires ValidNet(net) && ValidIp(ip) && ip.width != net.width
    ensures !EndsWithZone(net, ip) && !SuffixOfParts(PointerParts(ip), ZoneParts(net))
  {
    var p, z := PointerParts(ip), ZoneParts(net);
    assert |z| >= 3;
    assert p[|p| - 2] == Root(ip.width)[0] && z[|z| - 2] == Root(net.width)[0];
    if |z| <= |p| {
      assert p[|p| - |z|..][|z| - 2] == p[|p| - 2];
      assert p[|p| - |z| + 1..][|z| - 3] == p[|p| - 2] && z[1..][|z| - 3] == z[|z| - 2];
    }
  }

  /** A record whose full name joins `whole` ends with the parts of its zone. */
  lemma FullNameEnds(name: string, zone: seq<string>, whole: seq<string>)
    requires Plain(zone, '.') && Plain(whole, '.')
    ensures FullName(name, Join(zone, ".")) == Join(whole, ".")
            ==> |zone| <= |whole| && whole[|whole| - |zone|..] == zone
  {
    JoinInjective(whole, zone, '.');
    SplitPlain(whole, '.');
    SplitPlain(zone, '.');
    SplitAtSeparator(name, Join(zone, "."), '.');
    if name != "@" { assert Split(FullName(name, Join(zone, ".")), '.') == Split(name, '.') + zone; }
  }

  /** The name computed for an address points back at it exactly when the address is in
      the network and the network has a prefix at all. */
  lemma NamesPointerIff(net: Net, ip: Ip)
    requires ValidNet(net) && ValidIp(ip) && OnBoundary(net)
    ensures var z := ReverseZoneName(net).value;
            var r := PtrNameForZone(ip, z);
            (r.Ok? && FullName(r.value, z) == ReversePointer(ip)) <==> net.prefix > 0 && Holds(Masked(net), ip)
  {
    var z := ReverseZoneName(net).value;
    var r := PtrNameForZone(ip, z);
    if r.Ok? && FullName(r.value, z) == ReversePointer(ip) {
      assert EndsWithZone(net, ip) by {
        PointerJoined(ip);
        ZoneJoined(net);
        FullNameEnds(r.value, ZoneParts(net), PointerParts(ip));
      }
      EndsWithZoneIff(net, ip);
    }
    if net.prefix > 0 && Holds(Masked(net), ip) { InsideRoundTrip(net, ip); }
  }

  /** A network of prefix 0 holds every address of its family, and its zone names none. */
  lemma WholeRangeNamesNone(net: Net, ip: Ip)
    requires ValidNet(net) && ValidIp(ip) && ip.width == net.width && net.prefix == 0
    ensures OnBoundary(net) && Holds(Masked(net), ip)
    ensures var z := ReverseZoneName(net).value;
            var r := PtrNameForZone(ip, z);
            !(r.Ok? && FullName(r.value, z) == ReversePointer(ip))
  {
    SharedLabels(net, ip);
    NamesPointerIff(net, ip);
  }

  /** 10.0.0.1 in 0.0.0.0/0, say. */
  lemma DefaultRouteExample()
    ensures var net, ip := Net(32, 0, 0), Ip(32, 167772161);
            && ValidNet(net) && ValidIp(ip) && OnBoundary(net) && Holds(Masked(net), ip)
            && var z := ReverseZoneName(net).value;
               var r := PtrNameForZone(ip, z);
               !(r.Ok? && FullName(r.value, z) == ReversePointer(ip))
  {
    var net, ip := Net(32, 0, 0), Ip(32, 167772161);
    FourDigits(net.base, 0, 0, 0, 0);
    FourDigits(ip.value, 10, 0, 0, 1);
    WholeRangeNamesNone(net, ip);
  }

  /** Records in a zone made for a network: refused outside it, and inside it the record's
      full name is the address's pointer. */
  lemma CreatedZoneNames(net: Net, ip: Ip)
    requires ValidNet(net) && ValidIp(ip) && OnBoundary(net) && net.prefix > 0
    ensures CreateReverseZone(net).Ok?
    ensures var zone := CreateReverseZone(net).value;
            var r := CreatePtrName(zone, ip);
            && (r.Ok? <==> Holds(Masked(net), ip))
            && (r.Ok? ==> FullName(r.value, zone.name) == ReversePointer(ip))
  {
    if Holds(Masked(net), ip) { InsideRoundTrip(net, ip); }
  }

  /** Without the network guard only text is compared: the name is accepted when the later
      labels agree and the zone's first label is a text suffix of the address's. */
  lemma TextualMatchIff(net: Net, ip: Ip)
    requires ValidNet(net) && ValidIp(ip) && OnBoundary(net) && net.prefix > 0
    ensures PtrNameForZone(ip, ReverseZoneName(net).value).Ok?
            <==> (&& ip.width == net.width
                  && var last := Depth(net) - 1;
                     && Labels(ip)[..last] == NetLabels(net)[..last]
                     && EndsWith(Labels(ip)[last], NetLabels(net)[last]))
  {
    ZoneIsSuffix(net);
    PointerJoined(ip);
    ZoneJoined(net);
    SuffixOfJoin(PointerParts(ip), ZoneParts(net), '.');
    PrefixCovers(net);
    if ip.width == net.width { TextualParts(net, ip); } else { RootsDiffer(net, ip); }
  }

  lemma TextualParts(net: Net, ip: Ip)
    requires ValidNet(net) && ValidIp(ip) && Depth(net) > 0 && ip.width == net.width
    ensures var last := Depth(net) - 1;
            SuffixOfParts(PointerParts(ip), ZoneParts(net))
            <==> (&& Labels(ip)[..last] == NetLabels(net)[..last]
                  && EndsWith(Labels(ip)[last], NetLabels(net)[last]))
  {
    var p, z, last := PointerParts(ip), ZoneParts(net), Depth(net) - 1;
    var own := NetLabels(net);
    LaterLabels(own, last);
    assert z[0] == own[last] && z[1..] == Reversed(own[..last]) + Root(net.width);
    PointerCut(ip, last);
    assert p[|p| - |z|] == Labels(ip)[last];
    SameParts(Labels(ip)[..last], own[..last], Root(ip.width));
  }

  lemma LaterLabels(labels: seq<string>, last: nat)
    requires |labels| == last + 1
    ensures Reversed(labels)[1..] == Reversed(labels[..last])
  {
  }

  /** The guard is what keeps records in place: in a hand-made reverse zone for
      192.168.1.0/24, which stores no network, 192.168.21.5 is accepted although the
      record then names some other address. */
  lemma LookAlikeAccepted()
    ensures var net, ip := Net(32, 3232235776, 24), Ip(32, 3232240901);
            && ValidNet(net) && ValidIp(ip) && OnBoundary(net)
            && var z := ReverseZoneName(net).value;
               var r := CreatePtrName(Zone(z, true, None), ip);
               r.Ok? && FullName(r.value, z) != ReversePointer(ip)
  {
    var net, ip := Net(32, 3232235776, 24), Ip(32, 3232240901);
    ExampleLabels(net, ip);
    TextualMatchIff(net, ip);
    NamesPointerIff(net, ip);
  }

  lemma ExampleLabels(net: Net, ip: Ip)
    requires net == Net(32, 3232235776, 24) && ip == Ip(32, 3232240901)
    ensures ValidNet(net) && ValidIp(ip) && OnBoundary(net) && Depth(net) == 3 && !Holds(Masked(net), ip)
    ensures Labels(ip)[..2] == NetLabels(net)[..2] && EndsWith(Labels(ip)[2], NetLabels(net)[2])
  {
    assert Pow(2, 8) == 256 by { assert Pow(2, 4) == 16; }
    FourDigits(net.base, 192, 168, 1, 0);
    FourDigits(ip.value, 192, 168, 21, 5);
    assert Masked(net) == net;
    assert Labels(ip)[2] == Decimal(21) && NetLabels(net)[2] == Decimal(1);
    assert Decimal(21) == Decimal(2) + Decimal(1);
    assert Labels(ip)[0] == NetLabels(net)[0] && Labels(ip)[1] == NetLabels(net)[1];
  }

  lemma FourDigits(v: nat, a: nat, b: nat, c: nat, d: nat)
    requires v == ((a * 256 + b) * 256 + c) * 256 + d && a < 256 && b < 256 && c < 256 && d < 256
    ensures Digits(32, v, 4) == [a, b, c, d] && Fits(32, v, 4)
  {
    var v1, v2, v3 := (a * 256 + b) * 256 + c, a * 256 + b, a;
    OneDigit(0, v3, 1, a);
    OneDigit(v3, v2, 2, b);
    OneDigit(v2, v1, 3, c);
    OneDigit(v1, v, 4, d);
    assert [] + [a] == [a] && [a] + [b] == [a, b] && [a, b] + [c] == [a, b, c];
  }

  lemma OneDigit(high: nat, v: nat, n: nat, d: nat)
    requires v == high * 256 + d && d < 256 && n > 0
    ensures Digits(32, v, n) == Digits(32, high, n - 1) + [d]
    ensures Fits(32, v, n) == Fits(32, high, n - 1)
  {
    assert DropDigit(32, v) == high && LastDigit(32, v) == d;
  }

  /** IPv6 labels are single characters, so the textual test is the network test. */
  lemma NibblesNeverLookAlike(net: Net, ip: Ip)
    requires ValidNet(net) && ValidIp(ip) && OnBoundary(net) && net.prefix > 0 && net.width == 128
    ensures PtrNameForZone(ip, ReverseZoneName(net).value).Ok? <==> Holds(Masked(net), ip)
  {
    TextualMatchIff(net, ip);
    if ip.width == 128 {
      SharedLabels(net, ip);
      NibbleLabels(ip);
      SameByLast(Labels(ip), NetLabels(net), Depth(net) - 1);
    }
  }

  lemma NibbleLabels(ip: Ip)
    requires ip.width == 128
    ensures forall i :: 0 <= i < |Labels(ip)| ==> |Labels(ip)[i]| == 1
  {
    // Each label is one hexadecimal digit.
    var ds := Digits(ip.width, ip.value, LabelCount(ip.width));
    assert forall i :: 0 <= i < |ds| ==> Labels(ip)[i] == [HexDigit(ds[i])];
  }

  /** With labels of one character, ending alike at the last label is being equal there. */
  lemma SameByLast(labels: seq<string>, own: seq<string>, last: nat)
    requires |own| == last + 1 <= |labels| && |labels[last]| == |own[last]| == 1
    ensures labels[..last + 1] == own <==> labels[..last] == own[..last] && EndsWith(labels[last], own[last])
  {
    var x, y := labels[last], own[last];
    assert EndsWith(x, y) <==> x == y;
    assert labels[..last + 1] == labels[..last] + [x] && own == own[..last] + [y];
    if labels[..last + 1] == own {
      assert labels[..last] == labels[..last + 1][..last] && labels[..last + 1][last] == x;
    }
  }

  // ---- Nothing is named twice --------------------------------------------------------

  lemma PointerInjective(u: Ip, v: Ip)
    requires ValidIp(u) && ValidIp(v)
    ensures ReversePointer(u) == ReversePointer(v) <==> u == v
  {
    PointerJoined(u);
    PointerJoined(v);
    JoinInjective(PointerParts(u), PointerParts(v), '.');
    if PointerParts(u) == PointerParts(v) { PartsGiveAddress(u, v); }
  }

  lemma PartsGiveAddress(u: Ip, v: Ip)
    requires ValidIp(u) && ValidIp(v) && PointerParts(u) == PointerParts(v)
    ensures u == v
  {
    var p, q := PointerParts(u), PointerParts(v);
    assert p[|p| - 2] == Root(u.width)[0] && q[|q| - 2] == Root(v.width)[0];
    assert u.width == v.width;
    var n := LabelCount(u.width);
    SameParts(Labels(u), Labels(v), Root(u.width));
    LabelsShareDigits(u, v, n);
    assert Labels(u)[..n] == Labels(u) && Labels(v)[..n] == Labels(v);
    var c, d := Digits(u.width, u.value, n), Digits(v.width, v.value, n);
    assert c[..n] == c && d[..n] == d;
    DigitsInjective(u.width, u.value, v.value, n);
  }

  /** Two addresses of one network never get the same record name. */
  lemma DistinctAddressesDistinctNames(net: Net, u: Ip, v: Ip)
    requires ValidNet(net) && OnBoundary(net) && net.prefix > 0 && ValidIp(u) && ValidIp(v)
    ensures var zone := CreateReverseZone(net).value;
            CreatePtrName(zone, u).Ok? && CreatePtrName(zone, u) == CreatePtrName(zone, v) ==> u == v
  {
    CreatedZoneNames(net, u);
    CreatedZoneNames(net, v);
    PointerInjective(u, v);
  }

  /** Two networks without host bits never share a zone name, across families too. */
  lemma DistinctNetworksDistinctZones(a: Net, b: Net)
    requires ValidNet(a) && ValidNet(b) && OnBoundary(a) && OnBoundary(b) && Aligned(a) && Aligned(b)
    ensures ReverseZoneName(a) == ReverseZoneName(b) <==> a == b
  {
    ZoneJoined(a);
    ZoneJoined(b);
    JoinInjective(ZoneParts(a), ZoneParts(b), '.');
    PartsGiveNetwork(a, b);
  }

  lemma PartsGiveNetwork(a: Net, b: Net)
    requires ValidNet(a) && ValidNet(b) && OnBoundary(a) && OnBoundary(b) && Aligned(a) && Aligned(b)
    ensures ZoneParts(a) == ZoneParts(b) ==> a == b
  {
    var p, q := ZoneParts(a), ZoneParts(b);
    if p == q {
      assert p[|p| - 2] == Root(a.width)[0] && q[|q| - 2] == Root(b.width)[0];
      assert a.width == b.width;
      SameFront(NetLabels(a), NetLabels(b), Root(a.width));
      assert NetLabels(a) == NetLabels(b) by {
        if Depth(a) > 0 { SameParts(NetLabels(a), NetLabels(b), Root(a.width)); }
      }
      BaseFromLabels(a, b);
    }
  }

  lemma BaseFromLabels(a: Net, b: Net)
    requires ValidNet(a) && ValidNet(b) && OnBoundary(b) && Aligned(a) && Aligned(b)
    requires a.width == b.width && a.prefix == b.prefix && NetLabels(a) == NetLabels(b)
    ensures a == b
  {
    assert Masked(a) == a && Masked(b) == b;
    SharedLabels(b, Ip(a.width, a.base));
    HoldsIsQuotient(b, Ip(a.width, a.base));
    assert a.base - a.base % Size(b) == a.base;
  }

  lemma SameFront(a: seq<string>, b: seq<string>, root: seq<string>)
    requires HexLabels(a) && HexLabels(b) && Front(a) + root == Front(b) + root
    ensures |a| == |b|
  {
    assert |Front(a) + root| == |Front(b) + root|;
    if a != [] { assert (Front(a) + root)[0] == a[|a| - 1] != ""; }
    if b != [] { assert (Front(b) + root)[0] == b[|b| - 1] != ""; }
  }
}
