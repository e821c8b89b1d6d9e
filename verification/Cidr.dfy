/** IP networks: membership, the endpoint test for overlap, and the text form of IPv4 blocks.
    Prefix notation is that of section 3.1 of RFC 4632. */
module Cidr {
  import opened Outcome
  import opened Arith

  function Pow2(n: nat): (p: nat)
    ensures p >= 1
  {
    if n == 0 then 1 else 2 * Pow2(n - 1)
  }

  lemma {:induction false} Pow2Sum(a: nat, b: nat)
    ensures Pow2(a + b) == Pow2(a) * Pow2(b)
  {
    if a == 0 {
    } else {
      Pow2Sum(a - 1, b);
      assert Pow2(a + b) == 2 * (Pow2(a - 1) * Pow2(b)) == Pow2(a) * Pow2(b);
    }
  }

  datatype Address = Address(v6: bool, value: nat)

  datatype Block = Block(v6: bool, base: nat, prefix: nat)
  {
    function Width(): nat { if v6 then 128 else 32 }

    /** Number of addresses in the block. */
    function Size(): nat
      requires prefix <= Width()
    {
      Pow2(Width() - prefix)
    }

    /** What an `ip_network(text, strict=False)` always is: host bits are clear. */
    predicate Valid() {
      prefix <= Width() && base < Pow2(Width()) && base % Size() == 0
    }
  }

  type Network = b: Block | b.Valid() witness Block(false, 0, 32)

  /** `x & mask`, for the mask that keeps all but the low bits worth `size`. */
  function Masked(x: nat, size: nat): (m: nat)
    requires size >= 1
    ensures m <= x < m + size && m % size == 0
  {
    MaskedRange(x, size);
    x - x % size
  }

  /** `address in network`: the address with its host bits cleared is the network address. */
  predicate Contains(n: Network, a: Address) {
    a.v6 == n.v6 && Masked(a.value, n.Size()) == n.base
  }

  /** The block as a set of addresses. */
  predicate Covers(n: Network, a: Address) {
    a.v6 == n.v6 && n.base <= a.value < n.base + n.Size()
  }

  function First(n: Network): Address { Address(n.v6, n.base) }

  function Last(n: Network): Address { Address(n.v6, n.base + n.Size() - 1) }

  /** `self.overlaps(other)`: one of the four end points lies in the other block. */
  predicate Overlaps(a: Network, b: Network) {
    Contains(b, First(a)) || Contains(b, Last(a)) || Contains(a, First(b)) || Contains(a, Last(b))
  }

  lemma ContainsIsCovers(n: Network, a: Address)
    ensures Contains(n, a) <==> Covers(n, a)
  {
    var m := Masked(a.value, n.Size());
    if m < n.base {
      TwoMultiples(m, n.base, n.Size());
    } else if n.base < m {
      TwoMultiples(n.base, m, n.Size());
    }
  }

  lemma LargerIsMultiple(a: Network, b: Network)
    requires a.v6 == b.v6 && a.prefix <= b.prefix
    ensures a.base % b.Size() == 0 && a.Size() % b.Size() == 0 && b.Size() <= a.Size()
  {
    var k := Pow2(b.prefix - a.prefix);
    Pow2Sum(b.prefix - a.prefix, a.Width() - b.prefix);
    MultipleOfMultiple(a.base, k, b.Size());
  }

  /** CIDR blocks never straddle: the one with the longer prefix lies inside the other,
      or they have no address in common. */
  lemma NestedOrDisjoint(a: Network, b: Network)
    requires a.v6 == b.v6 && a.prefix <= b.prefix
    ensures (forall x :: Covers(b, x) ==> Covers(a, x)) || (forall x :: !(Covers(a, x) && Covers(b, x)))
  {
    LargerIsMultiple(a, b);
    var end, s := a.base + a.Size(), b.Size();
    SumOfMultiples(a.base, a.Size(), s);
    if b.base < a.base {
      TwoMultiples(b.base, a.base, s);
    } else if b.base < end {
      TwoMultiples(b.base, end, s);
    }
  }

  /** The endpoint test is exactly "some address belongs to both blocks". */
  lemma OverlapIsIntersection(a: Network, b: Network)
    ensures Overlaps(a, b) <==> exists x :: Covers(a, x) && Covers(b, x)
  {
    ContainsIsCovers(b, First(a));
    ContainsIsCovers(b, Last(a));
    ContainsIsCovers(a, First(b));
    ContainsIsCovers(a, Last(b));
    assert Covers(a, First(a)) && Covers(a, Last(a)) && Covers(b, First(b)) && Covers(b, Last(b));
    if x :| Covers(a, x) && Covers(b, x) {
      if a.prefix <= b.prefix {
        NestedOrDisjoint(a, b);
        assert Covers(a, First(b));
      } else {
        NestedOrDisjoint(b, a);
        assert Covers(b, First(a));
      }
    }
  }

  // ----- The text form of IPv4 blocks -----

  predicate IsDigits(s: string) {
    s != "" && forall i :: 0 <= i < |s| ==> '0' <= s[i] <= '9'
  }

  function DigitsValue(s: string): nat
    requires forall i :: 0 <= i < |s| ==> '0' <= s[i] <= '9'
  {
    if s == "" then 0 else 10 * DigitsValue(s[..|s| - 1]) + (s[|s| - 1] as int - '0' as int)
  }

  function Decimal(n: nat): (s: string)
    ensures IsDigits(s) && DigitsValue(s) == n
    ensures n > 0 ==> s[0] != '0'
    ensures n < 10 ==> |s| == 1
    ensures n == 0 ==> s == "0"
  {
    if n < 10 then [(n + '0' as int) as char]
    else Decimal(n / 10) + [(n % 10 + '0' as int) as char]
  }

  predicate Free(s: string, c: char) {
    forall i :: 0 <= i < |s| ==> s[i] != c
  }

  function Find(s: string, c: char): (n: nat)
    ensures n <= |s| && (forall i :: 0 <= i < n ==> s[i] != c) && (n < |s| ==> s[n] == c)
  {
    if s == "" || s[0] == c then 0 else 1 + Find(s[1..], c)
  }

  /** `s.split(c)` */
  function Split(s: string, c: char): seq<string> {
    var n := Find(s, c);
    if n == |s| then [s] else [s[..n]] + Split(s[n + 1..], c)
  }

  lemma SplitFirst(a: string, c: char, rest: string)
    requires Free(a, c)
    ensures Split(a + [c] + rest, c) == [a] + Split(rest, c)
  {
    var s := a + [c] + rest;
    assert forall i :: 0 <= i < |a| ==> s[i] == a[i] != c;
    assert s[|a|] == c;
    assert s[..|a|] == a && s[|a| + 1..] == rest;
  }

  lemma SplitNone(a: string, c: char)
    requires Free(a, c)
    ensures Split(a, c) == [a]
  {
  }

  /** One part of a dotted quad: up to three digits, no leading zero, at most 255. */
  function ParseOctet(s: string): (r: Option<nat>)
    ensures r.Some? ==> r.value <= 255
  {
    if IsDigits(s) && |s| <= 3 && (s == "0" || s[0] != '0') && DigitsValue(s) <= 255
    then Some(DigitsValue(s)) else None
  }

  function ParseQuad(s: string): (r: Option<nat>)
    ensures r.Some? ==> r.value < 0x1_0000_0000
  {
    var parts := Split(s, '.');
    if |parts| != 4 then None else
      var (a, b, c, d) := (ParseOctet(parts[0]), ParseOctet(parts[1]), ParseOctet(parts[2]), ParseOctet(parts[3]));
      if a.Some? && b.Some? && c.Some? && d.Some?
      then Some(((a.value * 256 + b.value) * 256 + c.value) * 256 + d.value) else None
  }

  /** The prefix length that a netmask (ones, then zeros) or a hostmask (its complement)
      stands for; all ones and all zeros are read as netmasks. */
  function MaskPrefix(mask: nat): (r: Option<nat>)
    ensures r.Some? ==> r.value <= 32
  {
    var net := SearchMask(mask, 32);
    if net.Some? || mask > 0xFFFF_FFFF then net else SearchMask(0xFFFF_FFFF - mask, 32)
  }

  function SearchMask(mask: nat, p: nat): (r: Option<nat>)
    requires p <= 32
    ensures r.Some? ==> r.value <= p
  {
    if mask + Pow2(32 - p) == 0x1_0000_0000 then Some(p)
    else if p == 0 then None
    else SearchMask(mask, p - 1)
  }

  /** A prefix length, of no more digits than `int` converts, or a mask. */
  function ParsePrefix(s: string): (r: Option<nat>)
    ensures r.Some? ==> r.value <= 32
  {
    if IsDigits(s) then (if |s| <= 4300 && DigitsValue(s) <= 32 then Some(DigitsValue(s)) else None)
    else
      var mask := ParseQuad(s);
      if mask.Some? then MaskPrefix(mask.value) else None
  }

  function V4(address: nat, prefix: nat): (n: Network)
    requires address < 0x1_0000_0000 && prefix <= 32
    ensures !n.v6 && n.prefix == prefix && Covers(n, Address(false, address))
  {
    var size := Pow2(32 - prefix);
    var b := Block(false, Masked(address, size), prefix);
    assert Pow2(32) == 0x1_0000_0000 by { Pow2Of32(); }
    b
  }

  lemma Pow2Of32()
    ensures Pow2(32) == 0x1_0000_0000
  {
    assert Pow2(8) == 256;
    Pow2Sum(8, 8);
    Pow2Sum(16, 16);
  }

  /** `ip_network(text, strict=False)` for IPv4 text: host bits are masked off. */
  function ParseV4(s: string): (r: Option<Network>)
    ensures r.Some? ==> !r.value.v6
  {
    var parts := Split(s, '/');
    if |parts| > 2 then None else
      var ip := ParseQuad(parts[0]);
      var prefix := if |parts| == 2 then ParsePrefix(parts[1]) else Some(32);
      if ip.Some? && prefix.Some? then Some(V4(ip.value, prefix.value)) else None
  }

  function Dotted(a: string, b: string, c: string, d: string): string {
    a + ['.'] + (b + ['.'] + (c + ['.'] + d))
  }

  function PrintQuad(v: nat): string {
    Dotted(Decimal(v / 0x100_0000), Decimal(v / 0x1_0000 % 256), Decimal(v / 256 % 256), Decimal(v % 256))
  }

  /** `str(network)` */
  function PrintV4(n: Network): string {
    PrintQuad(n.base) + ['/'] + Decimal(n.prefix)
  }

  lemma DecimalShort(n: nat)
    requires n <= 255
    ensures |Decimal(n)| <= 3
  {
  }

  lemma ParsePrintOctet(n: nat)
    requires n <= 255
    ensures ParseOctet(Decimal(n)) == Some(n)
  {
    DecimalShort(n);
  }

  lemma QuadDigits(v: nat)
    requires v < 0x1_0000_0000
    ensures v / 0x100_0000 <= 255
    ensures v == ((v / 0x100_0000 * 256 + v / 0x1_0000 % 256) * 256 + v / 256 % 256) * 256 + v % 256
  {
  }

  lemma DigitsFree(s: string)
    requires IsDigits(s)
    ensures Free(s, '.') && Free(s, '/')
  {
  }

  lemma Split2(a: string, c: char, b: string)
    requires Free(a, c) && Free(b, c)
    ensures Split(a + [c] + b, c) == [a, b]
  {
    hide Split;
    SplitFirst(a, c, b);
    SplitNone(b, c);
  }

  lemma Split3(a: string, c: char, b: string, d: string)
    requires Free(a, c) && Free(b, c) && Free(d, c)
    ensures Split(a + [c] + (b + [c] + d), c) == [a, b, d]
  {
    hide Split;
    SplitFirst(a, c, b + [c] + d);
    Split2(b, c, d);
  }

  lemma Split4(a: string, b: string, c: string, d: string)
    requires Free(a, '.') && Free(b, '.') && Free(c, '.') && Free(d, '.')
    ensures Split(Dotted(a, b, c, d), '.') == [a, b, c, d]
  {
    hide Split;
    SplitFirst(a, '.', b + ['.'] + (c + ['.'] + d));
    Split3(b, '.', c, d);
  }

  lemma DottedFree(a: string, b: string, c: string, d: string)
    requires Free(a, '/') && Free(b, '/') && Free(c, '/') && Free(d, '/')
    ensures Free(Dotted(a, b, c, d), '/')
  {
    assert Free(b + ['.'] + (c + ['.'] + d), '/');
  }

  lemma ParsePrintQuad(v: nat)
    requires v < 0x1_0000_0000
    ensures ParseQuad(PrintQuad(v)) == Some(v)
    ensures Free(PrintQuad(v), '/')
  {
    hide Split, Decimal, Dotted, ParseOctet;
    var (a, b, c, d) := (v / 0x100_0000, v / 0x1_0000 % 256, v / 256 % 256, v % 256);
    QuadDigits(v);
    ParsePrintOctet(a);
    ParsePrintOctet(b);
    ParsePrintOctet(c);
    ParsePrintOctet(d);
    var (s, t, u, w) := (Decimal(a), Decimal(b), Decimal(c), Decimal(d));
    DigitsFree(s);
    DigitsFree(t);
    DigitsFree(u);
    DigitsFree(w);
    Split4(s, t, u, w);
    DottedFree(s, t, u, w);
  }

  /** Printing any IPv4 block and reading it back gives the same block. */
  lemma ParsePrintV4(n: Network)
    requires !n.v6
    ensures ParseV4(PrintV4(n)) == Some(n)
  {
    hide Split, Decimal, PrintQuad, ParseQuad, V4;
    Pow2Of32();
    var quad, prefix := PrintQuad(n.base), Decimal(n.prefix);
    ParsePrintQuad(n.base);
    DigitsFree(prefix);
    DecimalShort(n.prefix);
    Split2(quad, '/', prefix);
    V4Fixed(n);
  }

  lemma V4Fixed(n: Network)
    requires !n.v6 && n.base < 0x1_0000_0000
    ensures V4(n.base, n.prefix) == n
  {
    ContainsIsCovers(n, First(n));
  }
}
