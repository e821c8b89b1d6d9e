/** Which texts `ip_network` reads as an IPv4 block, and as which. */
module CidrText {
  import opened Outcome
  import opened Arith
  import opened Cidr

  // ----- Numbers -----

  lemma DecimalNext(q: nat, last: nat)
    requires q > 0 && last < 10
    ensures Decimal(q * 10 + last) == Decimal(q) + [(last + '0' as int) as char]
  {
    QuotientUnique(q * 10 + last, 10, q, last);
  }

  lemma DigitsNext(s: string)
    requires IsDigits(s)
    ensures DigitsValue(s) == DigitsValue(s[..|s| - 1]) * 10 + (s[|s| - 1] as int - '0' as int)
  {
  }

  /** Digits without a leading zero are the decimal form of their value. */
  lemma {:induction false} DecimalUnique(s: string)
    requires IsDigits(s) && (s == "0" || s[0] != '0')
    ensures Decimal(DigitsValue(s)) == s
  {
    hide Decimal, DigitsValue;
    var n := |s| - 1;
    DigitsNext(s);
    assert s == s[..n] + [s[n]];
    if n == 0 {
      OneDigit(s);
    } else {
      DecimalUnique(s[..n]);
      DigitsPositive(s[..n]);
      DecimalNext(DigitsValue(s[..n]), s[n] as int - '0' as int);
    }
  }

  lemma OneDigit(s: string)
    requires IsDigits(s) && |s| == 1
    ensures Decimal(DigitsValue(s)) == s
  {
    assert s[..0] == "";
  }

  lemma {:induction false} DigitsPositive(s: string)
    requires IsDigits(s) && s[0] != '0'
    ensures DigitsValue(s) > 0
  {
    if |s| == 1 {
      assert s[..0] == "";
    } else {
      DigitsPositive(s[..|s| - 1]);
    }
  }

  lemma OctetIff(s: string, n: nat)
    ensures ParseOctet(s) == Some(n) <==> n <= 255 && s == Decimal(n)
  {
    if ParseOctet(s) == Some(n) {
      DecimalUnique(s);
    } else if n <= 255 && s == Decimal(n) {
      ParsePrintOctet(n);
    }
  }

  // ----- Addresses -----

  /** Taking a text apart loses nothing. */
  lemma SplitOnce(s: string, c: char) returns (rest: string)
    ensures |Split(s, c)| >= 1
    ensures |Split(s, c)| == 1 ==> s == Split(s, c)[0]
    ensures |Split(s, c)| > 1 ==> s == Split(s, c)[0] + [c] + rest && Split(s, c)[1..] == Split(rest, c)
  {
    var n := Find(s, c);
    rest := "";
    if n < |s| {
      rest := s[n + 1..];
      assert s == s[..n] + [c] + rest;
      FirstAndRest(s[..n], Split(rest, c));
    }
  }

  lemma FirstAndRest(x: string, xs: seq<string>)
    ensures ([x] + xs)[0] == x && ([x] + xs)[1..] == xs
  {
  }

  lemma SplitTwo(s: string, c: char)
    requires |Split(s, c)| == 2
    ensures s == Split(s, c)[0] + [c] + Split(s, c)[1]
  {
    hide Split;
    var rest := SplitOnce(s, c);
    var _ := SplitOnce(rest, c);
    assert Split(rest, c)[0] == Split(s, c)[1];
  }

  lemma SplitThree(s: string, c: char)
    requires |Split(s, c)| == 3
    ensures var p := Split(s, c); s == p[0] + [c] + (p[1] + [c] + p[2])
  {
    hide Split;
    var rest := SplitOnce(s, c);
    SplitTwo(rest, c);
    assert Split(rest, c)[0] == Split(s, c)[1] && Split(rest, c)[1] == Split(s, c)[2];
  }

  lemma SplitFour(s: string)
    requires |Split(s, '.')| == 4
    ensures var p := Split(s, '.'); s == Dotted(p[0], p[1], p[2], p[3])
  {
    hide Split;
    var p := Split(s, '.');
    var rest := SplitOnce(s, '.');
    SplitThree(rest, '.');
    assert Split(rest, '.')[0] == p[1] && Split(rest, '.')[1] == p[2] && Split(rest, '.')[2] == p[3];
  }

  lemma Quarters(a: nat, b: nat, c: nat, d: nat)
    requires a <= 255 && b <= 255 && c <= 255 && d <= 255
    ensures var v := ((a * 256 + b) * 256 + c) * 256 + d;
      v / 0x100_0000 == a && v / 0x1_0000 % 256 == b && v / 256 % 256 == c && v % 256 == d
  {
  }

  /** The only text of an address is its dotted quad of decimals. */
  lemma QuadIff(s: string, v: nat)
    ensures ParseQuad(s) == Some(v) <==> v < 0x1_0000_0000 && s == PrintQuad(v)
  {
    hide Split, ParseOctet, Decimal, Dotted;
    if ParseQuad(s) == Some(v) {
      var p := Split(s, '.');
      SplitFour(s);
      var (a, b) := (ParseOctet(p[0]).value, ParseOctet(p[1]).value);
      var (c, d) := (ParseOctet(p[2]).value, ParseOctet(p[3]).value);
      OctetIff(p[0], a);
      OctetIff(p[1], b);
      OctetIff(p[2], c);
      OctetIff(p[3], d);
      Quarters(a, b, c, d);
    } else if v < 0x1_0000_0000 && s == PrintQuad(v) {
      ParsePrintQuad(v);
    }
  }

  // ----- Prefix lengths -----

  /** So many ones, then zeros. */
  predicate NetMask(mask: nat, ones: nat) { ones <= 32 && mask + Pow2(32 - ones) == 0x1_0000_0000 }

  /** So many zeros, then ones. */
  predicate HostMask(mask: nat, zeros: nat) { zeros <= 32 && mask + 1 == Pow2(32 - zeros) }

  lemma {:induction false} SearchMaskIff(mask: nat, p: nat, r: nat)
    requires p <= 32
    ensures SearchMask(mask, p) == Some(r) <==> r <= p && NetMask(mask, r)
  {
    if mask + Pow2(32 - p) == 0x1_0000_0000 {
      if r < p {
        Pow2Grows(32 - p, 32 - r);
      }
    } else if p > 0 {
      SearchMaskIff(mask, p - 1, r);
    }
  }

  lemma {:induction false} Pow2Grows(a: nat, b: nat)
    requires a < b
    ensures Pow2(a) < Pow2(b)
  {
    if a + 1 < b {
      Pow2Grows(a, b - 1);
    }
  }

  /** A mask of ones and then zeros, or, where it is none of those, one of zeros and then ones. */
  lemma MaskIff(mask: nat, p: nat)
    ensures MaskPrefix(mask) == Some(p) <==>
      NetMask(mask, p) || (HostMask(mask, p) && forall q: nat :: !NetMask(mask, q))
  {
    hide SearchMask, NetMask, HostMask;
    SearchMaskIff(mask, 32, p);
    var net := SearchMask(mask, 32);
    if net.Some? {
      SearchMaskIff(mask, 32, net.value);
    } else {
      forall q: nat ensures !NetMask(mask, q) {
        SearchMaskIff(mask, 32, q);
        NoWider(mask, q);
      }
      if mask <= 0xFFFF_FFFF {
        SearchMaskIff(0xFFFF_FFFF - mask, 32, p);
        Complement(mask, p);
        NoWider(0xFFFF_FFFF - mask, p);
      }
    }
    NoWider(mask, p);
  }

  lemma Complement(mask: nat, p: nat)
    requires mask <= 0xFFFF_FFFF
    ensures NetMask(0xFFFF_FFFF - mask, p) <==> HostMask(mask, p)
  {
  }

  lemma NoWider(mask: nat, p: nat)
    ensures NetMask(mask, p) ==> p <= 32
    ensures HostMask(mask, p) ==> mask <= 0xFFFF_FFFF
  {
    if p <= 32 {
      Pow2AtMost(32 - p);
    }
  }

  lemma Pow2AtMost(a: nat)
    requires a <= 32
    ensures Pow2(a) <= 0x1_0000_0000
  {
    Pow2Of32();
    if a < 32 {
      Pow2Grows(a, 32);
    }
  }

  /** What follows the slash: digits worth at most 32, or a dotted mask. */
  predicate PrefixReads(t: string, p: nat) {
    if IsDigits(t) then |t| <= 4300 && DigitsValue(t) == p <= 32
    else ParseQuad(t).Some? && MaskPrefix(ParseQuad(t).value) == Some(p)
  }

  /** The block at an address: its multiple of the block's size, which the address belongs to. */
  predicate BlockAt(n: Network, v: nat, p: nat) {
    !n.v6 && n.prefix == p && Covers(n, Address(false, v))
  }

  /** The text is an address, alone or followed by a slash and a prefix length. */
  predicate AddressAlone(s: string, v: nat, p: nat) { v < 0x1_0000_0000 && s == PrintQuad(v) && p == 32 }

  predicate AddressAnd(s: string, v: nat, p: nat, t: string) {
    v < 0x1_0000_0000 && s == PrintQuad(v) + ['/'] + t && PrefixReads(t, p)
  }

  ghost predicate Spelled(s: string, v: nat, p: nat) {
    AddressAlone(s, v, p) || exists t :: AddressAnd(s, v, p, t)
  }

  lemma PrefixIff(t: string, p: nat)
    ensures ParsePrefix(t) == Some(p) <==> PrefixReads(t, p)
    ensures PrefixReads(t, p) ==> Free(t, '/') && p <= 32
  {
    hide ParseQuad, MaskPrefix;
    if IsDigits(t) {
      DigitsFree(t);
    } else if ParseQuad(t).Some? {
      QuadIff(t, ParseQuad(t).value);
      ParsePrintQuad(ParseQuad(t).value);
    }
  }

  lemma BlockUnique(n: Network, v: nat, p: nat)
    requires v < 0x1_0000_0000 && p <= 32 && BlockAt(n, v, p)
    ensures V4(v, p) == n
  {
    hide Pow2;
    ContainsIsCovers(n, Address(false, v));
    ContainsIsCovers(V4(v, p), Address(false, v));
  }

  lemma ParsesAs(s: string, v: nat, p: nat)
    requires Spelled(s, v, p)
    ensures p <= 32 && v < 0x1_0000_0000 && ParseV4(s) == Some(V4(v, p))
  {
    hide Split, ParseQuad, ParsePrefix, PrintQuad, V4, PrefixReads;
    ParsePrintQuad(v);
    if AddressAlone(s, v, p) {
      SplitNone(s, '/');
    } else {
      var t :| AddressAnd(s, v, p, t);
      PrefixIff(t, p);
      Split2(PrintQuad(v), '/', t);
    }
  }

  lemma ParsedIs(s: string) returns (v: nat, p: nat)
    requires ParseV4(s).Some?
    ensures Spelled(s, v, p) && v < 0x1_0000_0000 && p <= 32 && ParseV4(s) == Some(V4(v, p))
  {
    hide Split, ParseQuad, ParsePrefix, PrintQuad, V4, PrefixReads;
    var parts := Split(s, '/');
    var _ := SplitOnce(s, '/');
    v := ParseQuad(parts[0]).value;
    QuadIff(parts[0], v);
    if |parts| == 2 {
      p := ParsePrefix(parts[1]).value;
      SplitTwo(s, '/');
      PrefixIff(parts[1], p);
      assert AddressAnd(s, v, p, parts[1]);
    } else {
      p := 32;
    }
  }

  /** An IPv4 text is read exactly when it spells an address and a prefix length, and as the block of that length
      that the address belongs to. */
  lemma ParseV4Iff(s: string, n: Network)
    ensures ParseV4(s) == Some(n) <==> exists v: nat, p: nat :: Spelled(s, v, p) && BlockAt(n, v, p)
  {
    hide ParseV4, Spelled, V4;
    if ParseV4(s) == Some(n) {
      var v, p := ParsedIs(s);
      assert Spelled(s, v, p) && BlockAt(n, v, p);
    }
    if v: nat, p: nat :| Spelled(s, v, p) && BlockAt(n, v, p) {
      ParsesAs(s, v, p);
      BlockUnique(n, v, p);
    }
  }
}
