/** IP addresses and networks as numbers of a given bit width (32 or 128). */
module Addresses {

  datatype Ip = Ip(width: nat, value: nat)

  datatype Net = Net(width: nat, base: nat, prefix: nat)

  function Pow(b: nat, e: nat): (p: nat)
    ensures b > 0 ==> p > 0
  {
    if e == 0 then 1 else b * Pow(b, e - 1)
  }

  /** The number of addresses in the network. */
  function Size(net: Net): (n: nat)
    requires net.prefix <= net.width
    ensures n > 0
  {
    Pow(2, net.width - net.prefix)
  }

  /** A network the strict parser accepts: no host bits set. */
  predicate Aligned(net: Net) {
    net.prefix <= net.width && net.base % Size(net) == 0
  }

  /** Masking the address down to the prefix gives the network address. */
  predicate Holds(net: Net, ip: Ip) {
    Aligned(net) && ip.width == net.width && ip.value - ip.value % Size(net) == net.base
  }

  lemma QuotientCancels(n: nat, v: nat, q: nat)
    requires n > 0
    ensures v - v % n == n * q <==> v / n == q
    ensures n * q <= v < n * q + n <==> v / n == q
  {
    assert v == n * (v / n) + v % n;
    var d := v / n - q;
    assert n * (v / n) - n * q == n * d;
    if d >= 1 { assert n * d >= n; }
    if d <= -1 { assert n * d + n <= 0; }
  }

  /** Membership is a question about the quotient by the network's size. */
  lemma HoldsIsQuotient(net: Net, ip: Ip)
    requires Aligned(net) && ip.width == net.width
    ensures Holds(net, ip) <==> ip.value / Size(net) == net.base / Size(net)
    ensures Holds(net, ip) <==> net.base <= ip.value < net.base + Size(net)
  {
    var n := Size(net);
    assert net.base == n * (net.base / n);
    QuotientCancels(n, ip.value, net.base / n);
  }
}
