// The address scopes of networkcontext/service.go, on IPv4 addresses as 32-bit
// numbers. Private addresses are those of section 3 of RFC 1918, carrier-grade
// NAT those of section 7 of RFC 6598.
module AddressScopes {
  type IPv4 = n: nat | n < 0x1_0000_0000

  /** What parsing an address gives; an IPv4-mapped IPv6 address is V6. */
  datatype Address = V4(value: IPv4) | V6(text: string)

  datatype Prefix = Prefix(base: IPv4, bits: nat)

  datatype Scope = Public | Private | Cgnat | Special | Unknown

  function PowerOfTwo(n: nat): (r: nat)
    ensures r > 0
  {
    if n == 0 then 1 else 2 * PowerOfTwo(n - 1)
  }

  function Size(bits: nat): (r: nat)
    ensures r > 0
  {
    if bits <= 32 then PowerOfTwo(32 - bits) else 1
  }

  /** Prefix.Contains: the leading bits agree. */
  predicate Contains(p: Prefix, a: IPv4) {
    a / Size(p.bits) == p.base / Size(p.bits)
  }

  lemma RemainderAtMost(b: nat, n: nat)
    requires n > 0
    ensures b % n <= b
  {
    assert b == n * (b / n) + b % n;
  }

  /** Prefix.Masked */
  function Masked(p: Prefix): Prefix {
    RemainderAtMost(p.base, Size(p.bits));
    p.(base := p.base - p.base % Size(p.bits))
  }

  /** The address with the given four octets. */
  function Dotted(a: nat, b: nat, c: nat, d: nat): IPv4
    requires a < 256 && b < 256 && c < 256 && d < 256
  {
    ((a * 256 + b) * 256 + c) * 256 + d
  }

  function FirstOctet(a: IPv4): nat { a / 0x100_0000 }

  function SecondOctet(a: IPv4): nat { a / 0x1_0000 % 256 }

  const CGNAT_PREFIX := Prefix(Dotted(100, 64, 0, 0), 10)

  const SPECIAL_PREFIXES := [
    Prefix(Dotted(0, 0, 0, 0), 8),
    Prefix(Dotted(192, 0, 0, 0), 24),
    Prefix(Dotted(192, 0, 2, 0), 24),
    Prefix(Dotted(198, 18, 0, 0), 15),
    Prefix(Dotted(198, 51, 100, 0), 24),
    Prefix(Dotted(203, 0, 113, 0), 24),
    Prefix(Dotted(240, 0, 0, 0), 4)]

  predicate IsCgnat(a: IPv4) { Contains(CGNAT_PREFIX, a) }

  /** netip.Addr.IsPrivate and its neighbours, on octets. */
  predicate IsPrivate(a: IPv4) {
    || FirstOctet(a) == 10
    || (FirstOctet(a) == 172 && SecondOctet(a) / 16 == 1)
    || (FirstOctet(a) == 192 && SecondOctet(a) == 168)
  }

  predicate IsLoopback(a: IPv4) { FirstOctet(a) == 127 }

  predicate IsLinkLocal(a: IPv4) { FirstOctet(a) == 169 && SecondOctet(a) == 254 }

  predicate IsMulticast(a: IPv4) { FirstOctet(a) / 16 == 14 }

  predicate IsPublic(a: IPv4) {
    && !(IsPrivate(a) || IsLoopback(a) || IsLinkLocal(a) || IsMulticast(a) || a == 0 || IsCgnat(a))
    && !exists p :: p in SPECIAL_PREFIXES && Contains(p, a)
  }

  /** classifyIPv4 of an address that parses. */
  function Classify(a: IPv4): Scope {
    if IsCgnat(a) then Cgnat
    else if IsPrivate(a) then Private
    else if IsPublic(a) then Public
    else Special
  }

  // ----- scopes as ranges ------------------------------------------------------

  predicate Within(a: IPv4, first: IPv4, last: IPv4) { first <= a <= last }

  /** A prefix whose base has no bits behind it is a range. */
  lemma PrefixIsRange(p: Prefix, a: IPv4)
    requires p.base % Size(p.bits) == 0
    ensures Contains(p, a) <==> p.base <= a < p.base + Size(p.bits)
  {
    SameQuotient(Size(p.bits), p.base / Size(p.bits), a);
    assert p.base == Size(p.bits) * (p.base / Size(p.bits));
  }

  /** An address has quotient k exactly in the k-th block of n addresses. */
  lemma SameQuotient(n: nat, k: nat, a: nat)
    requires n > 0
    ensures a / n == k <==> n * k <= a < n * k + n
  {
    var quotient, rest := a / n, a % n;
    assert a == n * quotient + rest && 0 <= rest < n;
    if quotient < k { Scaled(n, quotient + 1, k); }
    if quotient > k { Scaled(n, k + 1, quotient); }
    assert n * (quotient + 1) == n * quotient + n && n * (k + 1) == n * k + n;
  }

  lemma Scaled(n: nat, x: int, y: int)
    requires x <= y
    ensures n * x <= n * y
  {
  }

  /** Masking a prefix changes its base, not the addresses it contains. */
  lemma MaskedContains(p: Prefix, a: IPv4)
    ensures Contains(Masked(p), a) <==> Contains(p, a)
  {
    var n := Size(p.bits);
    var q := p.base / n;
    assert Masked(p).base == n * q;
    Quotient(n, q);
  }

  lemma Quotient(n: nat, q: nat)
    requires n > 0
    ensures n * q / n == q
  {
    var x := n * q / n;
    assert n * q == n * x + n * q % n;
    if x < q { Scaled(n, x + 1, q); }
    if x > q { Scaled(n, q + 1, x); }
  }

  lemma Sizes()
    ensures Size(4) == 0x1000_0000 && Size(8) == 0x100_0000 && Size(10) == 0x40_0000
    ensures Size(15) == 0x2_0000 && Size(24) == 0x100
  {
    assert PowerOfTwo(8) == 0x100;
    assert PowerOfTwo(12) == 0x1000;
    assert PowerOfTwo(17) == 0x2_0000 by { assert PowerOfTwo(14) == 0x4000; }
    assert PowerOfTwo(20) == 0x10_0000;
    assert PowerOfTwo(22) == 0x40_0000;
    assert PowerOfTwo(24) == 0x100_0000;
    assert PowerOfTwo(26) == 0x400_0000;
    assert PowerOfTwo(28) == 0x1000_0000;
  }

  predicate InCgnatRange(a: IPv4) {
    Within(a, Dotted(100, 64, 0, 0), Dotted(100, 127, 255, 255))
  }

  predicate InPrivateRanges(a: IPv4) {
    || Within(a, Dotted(10, 0, 0, 0), Dotted(10, 255, 255, 255))
    || Within(a, Dotted(172, 16, 0, 0), Dotted(172, 31, 255, 255))
    || Within(a, Dotted(192, 168, 0, 0), Dotted(192, 168, 255, 255))
  }

  predicate InListedRanges(a: IPv4) {
    || Within(a, Dotted(0, 0, 0, 0), Dotted(0, 255, 255, 255))
    || Within(a, Dotted(192, 0, 0, 0), Dotted(192, 0, 0, 255))
    || Within(a, Dotted(192, 0, 2, 0), Dotted(192, 0, 2, 255))
    || Within(a, Dotted(198, 18, 0, 0), Dotted(198, 19, 255, 255))
    || Within(a, Dotted(198, 51, 100, 0), Dotted(198, 51, 100, 255))
    || Within(a, Dotted(203, 0, 113, 0), Dotted(203, 0, 113, 255))
    || Within(a, Dotted(240, 0, 0, 0), Dotted(255, 255, 255, 255))
  }

  /** Loopback, link-local and multicast addresses. */
  predicate InLocalRanges(a: IPv4) {
    || Within(a, Dotted(127, 0, 0, 0), Dotted(127, 255, 255, 255))
    || Within(a, Dotted(169, 254, 0, 0), Dotted(169, 254, 255, 255))
    || Within(a, Dotted(224, 0, 0, 0), Dotted(239, 255, 255, 255))
  }

  lemma CgnatIsRange(a: IPv4)
    ensures IsCgnat(a) <==> InCgnatRange(a)
  {
    Sizes();
    PrefixIsRange(CGNAT_PREFIX, a);
  }

  lemma PrivateIsRanges(a: IPv4)
    ensures IsPrivate(a) <==> InPrivateRanges(a)
  {
  }

  lemma LocalIsRanges(a: IPv4)
    ensures IsLoopback(a) || IsLinkLocal(a) || IsMulticast(a) <==> InLocalRanges(a)
  {
  }

  /** The number of addresses of the prefix lengths in the list. */
  function Span(bits: nat): nat {
    if bits == 4 then 0x1000_0000 else if bits == 8 then 0x100_0000 else if bits == 15 then 0x2_0000 else 0x100
  }

  predicate InSpan(p: Prefix, a: IPv4) { p.base <= a < p.base + Span(p.bits) }

  /** The listed prefixes are written without bits behind their bases. */
  lemma ListedSpan(p: Prefix, a: IPv4)
    requires p in SPECIAL_PREFIXES
    ensures Contains(p, a) <==> InSpan(p, a)
  {
    Sizes();
    PrefixIsRange(p, a);
  }

  lemma SpansAreRanges(a: IPv4)
    ensures (exists p :: p in SPECIAL_PREFIXES && InSpan(p, a)) <==> InListedRanges(a)
  {
    var ps := SPECIAL_PREFIXES;
    assert InListedRanges(a) <==>
      (InSpan(ps[0], a) || InSpan(ps[1], a) || InSpan(ps[2], a) || InSpan(ps[3], a)
       || InSpan(ps[4], a) || InSpan(ps[5], a) || InSpan(ps[6], a));
  }

  lemma ListedIsRanges(a: IPv4)
    ensures (exists p :: p in SPECIAL_PREFIXES && Contains(p, a)) <==> InListedRanges(a)
  {
    forall p | p in SPECIAL_PREFIXES ensures Contains(p, a) <==> InSpan(p, a) { ListedSpan(p, a); }
    SpansAreRanges(a);
  }

  lemma PublicIsTheRest(a: IPv4)
    ensures IsPublic(a) <==> !InCgnatRange(a) && !InPrivateRanges(a) && !InLocalRanges(a) && !InListedRanges(a)
  {
    CgnatIsRange(a);
    PrivateIsRanges(a);
    LocalIsRanges(a);
    ListedIsRanges(a);
  }

  lemma RangesAreDisjoint(a: IPv4)
    ensures InCgnatRange(a) ==> !InPrivateRanges(a) && !InLocalRanges(a) && !InListedRanges(a)
    ensures InPrivateRanges(a) ==> !InLocalRanges(a) && !InListedRanges(a)
  {
  }

  /** The scopes are disjoint unions of ranges that cover every address, and the
      order in which the code asks for them does not matter. */
  lemma ScopesAreRanges(a: IPv4)
    ensures Classify(a) == Cgnat <==> InCgnatRange(a)
    ensures Classify(a) == Private <==> InPrivateRanges(a)
    ensures Classify(a) == Special <==> InLocalRanges(a) || InListedRanges(a)
    ensures Classify(a) == Public <==> IsPublic(a)
  {
    CgnatIsRange(a);
    PrivateIsRanges(a);
    PublicIsTheRest(a);
    RangesAreDisjoint(a);
  }
}
