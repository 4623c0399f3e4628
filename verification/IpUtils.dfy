/**
 * IPv4 CIDR matching (ip-utils.ts) in JavaScript's 32-bit arithmetic, against the
 * definition of RFC 4632, section 3.1: the leading `prefix` bits agree.
 *
 * An address is the octets net.isIP and split('.') leave of it, or none when net.isIP does
 * not answer 4.
 */
module IpUtils {
  import opened Common

  type Octet = x: int | 0 <= x < 256

  type Address = Option<(Octet, Octet, Octet, Octet)>

  // ---------------------------------------------------------------- JavaScript operators

  function Pow2(n: nat): (p: nat)
    ensures p > 0
  {
    if n == 0 then 1 else 2 * Pow2(n - 1)
  }

  const TWO_31 := 0x8000_0000
  const TWO_32 := 0x1_0000_0000

  function ToInt32(x: int): int {
    var m := x % TWO_32;
    if m >= TWO_31 then m - TWO_32 else m
  }

  // The one signed 32-bit value that agrees with x in its low 32 bits.
  lemma ToInt32Is(x: int)
    ensures -TWO_31 <= ToInt32(x) < TWO_31 && (ToInt32(x) - x) % TWO_32 == 0
  {
  }

  /** x << n */
  function ShiftLeft(x: int, n: nat): int {
    ToInt32(ToInt32(x) * Pow2(n % 32))
  }

  /** x >>> 0 */
  function ToUint32(x: int): int {
    x % TWO_32
  }

  // The conjunction of the n low bits of x and y, bit by bit.
  function AndBits(x: nat, y: nat, n: nat): nat {
    if n == 0 then 0 else 2 * AndBits(x / 2, y / 2, n - 1) + (x % 2) * (y % 2)
  }

  /** x & y */
  function And(x: int, y: int): int {
    ToInt32(AndBits(x % TWO_32, y % TWO_32, 32))
  }

  // ---------------------------------------------------------------- ip-utils.ts

  function Accumulate(accumulator: int, octets: seq<Octet>): int
    decreases |octets|
  {
    if octets == [] then accumulator else Accumulate(ShiftLeft(accumulator, 8) + octets[0], octets[1..])
  }

  function ParseIPv4(address: Address): Option<int> {
    match address
    case None => None
    case Some((a, b, c, d)) => Some(ToUint32(Accumulate(0, [a, b, c, d])))
  }

  function Mask(prefix: nat): int
    requires prefix <= 32
  {
    if prefix == 0 then 0 else ToUint32(ShiftLeft(0xffff_ffff, 32 - prefix))
  }

  predicate IsIPv4InCIDR(address: Address, range: Address, prefix: int) {
    var addressNumber := ParseIPv4(address);
    var rangeNumber := ParseIPv4(range);
    if addressNumber.None? || rangeNumber.None? || prefix < 0 || prefix > 32 then false
    else And(addressNumber.value, Mask(prefix)) == And(rangeNumber.value, Mask(prefix))
  }

  // ---------------------------------------------------------------- arithmetic

  /** The number an address stands for. */
  function Value(a: Octet, b: Octet, c: Octet, d: Octet): int {
    a * 0x100_0000 + b * 0x1_0000 + c * 0x100 + d
  }

  lemma TimesGrows(p: int, q: int, m: int)
    requires p < q && m > 0
    ensures p * m + m <= q * m
  {
    assert (q - p) * m == (q - p - 1) * m + m;
  }

  lemma {:induction false} Pow2Adds(m: nat, n: nat)
    ensures Pow2(m + n) == Pow2(m) * Pow2(n)
  {
    if m > 0 {
      Pow2Adds(m - 1, n);
      assert Pow2(m) * Pow2(n) == 2 * (Pow2(m - 1) * Pow2(n));
    }
  }

  lemma {:induction false} Pow2Values()
    ensures Pow2(8) == 256 && Pow2(32) == TWO_32
  {
    assert Pow2(4) == 2 * (2 * (2 * (2 * Pow2(0))));
    Pow2Adds(4, 4);
    Pow2Adds(8, 8);
    Pow2Adds(16, 16);
  }

  lemma {:induction false} ShiftByOctet(x: int)
    ensures ShiftLeft(x, 8) == ToInt32(256 * ToInt32(x))
  {
    Pow2Values();
  }

  lemma AccumulateStep(x: int, octet: Octet, rest: seq<Octet>)
    ensures Accumulate(x, [octet] + rest) == Accumulate(ShiftLeft(x, 8) + octet, rest)
  {
    assert ([octet] + rest)[1..] == rest;
  }

  lemma SmallModulo(x: int)
    requires 0 <= x < TWO_32
    ensures x % TWO_32 == x && (x - TWO_32) % TWO_32 == x
  {
  }

  lemma {:induction false} ShiftKeepsSmall(x: int)
    requires 0 <= x < 0x80_0000
    ensures ShiftLeft(x, 8) == 256 * x
  {
    ShiftByOctet(x);
    SmallModulo(x);
    SmallModulo(256 * x);
  }

  lemma {:induction false} ShiftWraps(x: int, octet: Octet)
    requires 0 <= x < 0x100_0000
    ensures ToUint32(ShiftLeft(x, 8) + octet) == 256 * x + octet
  {
    ShiftByOctet(x);
    SmallModulo(x);
    SmallModulo(256 * x);
    SmallModulo(256 * x + octet);
    assert ToInt32(256 * x) + octet == 256 * x + octet || ToInt32(256 * x) + octet == 256 * x + octet - TWO_32;
  }

  /** Shifting through signed 32-bit values and dropping the sign at the end gives the plain value. */
  lemma {:induction false} ParseIsPositional(a: Octet, b: Octet, c: Octet, d: Octet)
    ensures ParseIPv4(Some((a, b, c, d))) == Some(Value(a, b, c, d))
  {
    var s2 := a * 0x100 + b;
    var s3 := s2 * 0x100 + c;
    calc {
      Accumulate(0, [a, b, c, d]);
    == { AccumulateStep(0, a, [b, c, d]); assert [a] + [b, c, d] == [a, b, c, d]; ShiftKeepsSmall(0); }
      Accumulate(a, [b, c, d]);
    == { AccumulateStep(a, b, [c, d]); assert [b] + [c, d] == [b, c, d]; ShiftKeepsSmall(a); }
      Accumulate(s2, [c, d]);
    == { AccumulateStep(s2, c, [d]); assert [c] + [d] == [c, d]; ShiftKeepsSmall(s2); }
      Accumulate(s3, [d]);
    == { AccumulateStep(s3, d, []); assert [d] + [] == [d]; }
      ShiftLeft(s3, 8) + d;
    }
    ShiftWraps(s3, d);
  }

  lemma {:induction false} QuotientIs(x: int, d: int, q: int, r: int)
    requires d > 0 && 0 <= r < d && x == q * d + r
    ensures x / d == q
  {
    var q' := x / d;
    assert x == q' * d + x % d;
    if q' < q {
      TimesGrows(q', q, d);
    } else if q' > q {
      TimesGrows(q, q', d);
    }
  }

  lemma {:induction false} DivideTwice(x: nat, m: nat, n: nat)
    requires m > 0 && n > 0
    ensures m * n > 0 && x / (m * n) == (x / m) / n
  {
    var y := x / m;
    var q, r := y / n, y % n;
    assert y == q * n + r && x == y * m + x % m;
    assert y * m == q * (m * n) + r * m by {
      assert y * m == (q * n) * m + r * m;
      assert (q * n) * m == q * (m * n);
    }
    TimesGrows(r, n, m);
    assert m * n > 0 by {
      TimesGrows(0, n, m);
    }
    QuotientIs(x, m * n, q, r * m + x % m);
  }

  lemma {:induction false} Pow2Ordered(k: nat, n: nat)
    requires k <= n
    ensures Pow2(k) <= Pow2(n)
  {
    if k < n {
      Pow2Ordered(k, n - 1);
    }
  }

  lemma AndEven(x: nat, h: nat, n: nat)
    requires n > 0
    ensures AndBits(x, 2 * h, n) == 2 * AndBits(x / 2, h, n - 1)
  {
    assert (2 * h) / 2 == h && (2 * h) % 2 == 0;
    assert (x % 2) * 0 == 0;
  }

  // Keeping the bits from k up drops the remainder by 2^k.
  lemma {:induction false} AndHighBits(x: nat, k: nat, n: nat)
    requires k <= n && x < Pow2(n)
    ensures Pow2(k) <= Pow2(n)
    ensures AndBits(x, Pow2(n) - Pow2(k), n) == x / Pow2(k) * Pow2(k)
    decreases n
  {
    Pow2Ordered(k, n);
    if n == 0 {
    } else if k == 0 {
      AndAllBits(x, n);
    } else {
      AndHighBits(x / 2, k - 1, n - 1);
      var h, m := Pow2(n - 1) - Pow2(k - 1), Pow2(k - 1);
      AndEven(x, h, n);
      DivideTwice(x, 2, m);
      assert Pow2(n) - Pow2(k) == 2 * h;
      DoubleMultiple(x / 2 / m, m);
    }
  }

  lemma DoubleMultiple(q: int, m: int)
    ensures 2 * (q * m) == q * (2 * m)
  {
  }

  lemma {:induction false} AndAllBits(x: nat, n: nat)
    requires x < Pow2(n)
    ensures AndBits(x, Pow2(n) - 1, n) == x
  {
    if n > 0 {
      var y := Pow2(n) - 1;
      assert y / 2 == Pow2(n - 1) - 1 && y % 2 == 1;
      AndAllBits(x / 2, n - 1);
      assert (x % 2) * (y % 2) == x % 2;
    }
  }

  lemma {:induction false} MaskIs(prefix: nat)
    requires prefix <= 32
    ensures 0 < Pow2(32 - prefix) <= TWO_32 && Mask(prefix) == TWO_32 - Pow2(32 - prefix)
  {
    Pow2Values();
    Pow2Ordered(32 - prefix, 32);
    if prefix > 0 {
      var m := Pow2(32 - prefix);
      Pow2Ordered(32 - prefix, 31);
      assert Pow2(32) == 2 * Pow2(31);
      assert (32 - prefix) % 32 == 32 - prefix;
      ShiftOnes(32 - prefix, m);
    }
  }

  lemma ShiftOnes(n: nat, m: nat)
    requires n < 32 && m == Pow2(n) && m <= TWO_31
    ensures ToUint32(ShiftLeft(0xffff_ffff, n)) == TWO_32 - m
  {
    assert ToInt32(0xffff_ffff) == -1;
    assert ToInt32(0xffff_ffff) * m == 0 - m;
    assert n % 32 == n;
    assert ShiftLeft(0xffff_ffff, n) == ToInt32(0 - m);
  }

  // The masked value is a multiple of 2^(32 - prefix), told by its quotient.
  lemma {:induction false} MaskedIs(x: nat, prefix: nat)
    requires prefix <= 32 && x < TWO_32
    ensures var m := Pow2(32 - prefix);
            0 <= x / m * m < TWO_32 && And(x, Mask(prefix)) == ToInt32(x / m * m)
  {
    var m := Pow2(32 - prefix);
    MaskIs(prefix);
    Pow2Values();
    AndHighBits(x, 32 - prefix, 32);
    MultipleInRange(x, m);
    SmallModulo(TWO_32 - m);
    SmallModulo(x);
  }

  lemma MultipleInRange(x: nat, m: nat)
    requires m > 0
    ensures 0 <= x / m * m <= x
  {
    var q := x / m;
    assert x == q * m + x % m;
    assert q >= 0;
    assert q * m >= 0;
  }

  lemma {:induction false} SameMultiple(p: int, q: int, m: int)
    requires m > 0
    ensures p * m == q * m <==> p == q
  {
    if p < q {
      TimesGrows(p, q, m);
    } else if q < p {
      TimesGrows(q, p, m);
    }
  }

  // ---------------------------------------------------------------- main results

  /**
   * Membership is agreement of the leading bits: for every pair of dotted quads and every
   * prefix from 0 to 32, both values have the same quotient by 2^(32 - prefix).
   */
  lemma {:induction false} InCIDRIsSamePrefix(address: (Octet, Octet, Octet, Octet),
      range: (Octet, Octet, Octet, Octet), prefix: nat)
    requires prefix <= 32
    ensures IsIPv4InCIDR(Some(address), Some(range), prefix) <==>
            Value(address.0, address.1, address.2, address.3) / Pow2(32 - prefix)
            == Value(range.0, range.1, range.2, range.3) / Pow2(32 - prefix)
  {
    var x := Value(address.0, address.1, address.2, address.3);
    var y := Value(range.0, range.1, range.2, range.3);
    var m := Pow2(32 - prefix);
    ParseIsPositional(address.0, address.1, address.2, address.3);
    ParseIsPositional(range.0, range.1, range.2, range.3);
    SameMaskedIsSameQuotient(x, y, prefix);
  }

  /** Nothing else is a member: no address or range that is not IPv4, and no prefix outside 0 to 32. */
  lemma InCIDRIff(address: Address, range: Address, prefix: int)
    ensures IsIPv4InCIDR(address, range, prefix) <==>
            && address.Some? && range.Some? && 0 <= prefix <= 32
            && Value(address.value.0, address.value.1, address.value.2, address.value.3) / Pow2(32 - prefix)
               == Value(range.value.0, range.value.1, range.value.2, range.value.3) / Pow2(32 - prefix)
  {
    if address.Some? && range.Some? && 0 <= prefix <= 32 {
      InCIDRIsSamePrefix(address.value, range.value, prefix);
    }
  }

  lemma {:induction false} SameMaskedIsSameQuotient(x: nat, y: nat, prefix: nat)
    requires prefix <= 32 && x < TWO_32 && y < TWO_32
    ensures And(x, Mask(prefix)) == And(y, Mask(prefix)) <==> x / Pow2(32 - prefix) == y / Pow2(32 - prefix)
  {
    var m := Pow2(32 - prefix);
    MaskedIs(x, prefix);
    MaskedIs(y, prefix);
    Int32IsInjective(x / m * m, y / m * m);
    SameMultiple(x / m, y / m, m);
  }

  lemma Int32IsInjective(x: int, y: int)
    requires 0 <= x < TWO_32 && 0 <= y < TWO_32
    ensures ToInt32(x) == ToInt32(y) <==> x == y
  {
  }

  /** A member of a block is a member of every block around it. */
  lemma {:induction false} WiderBlocksContain(address: (Octet, Octet, Octet, Octet),
      range: (Octet, Octet, Octet, Octet), prefix: nat, shorter: nat)
    requires shorter <= prefix <= 32 && IsIPv4InCIDR(Some(address), Some(range), prefix)
    ensures IsIPv4InCIDR(Some(address), Some(range), shorter)
  {
    InCIDRIsSamePrefix(address, range, prefix);
    InCIDRIsSamePrefix(address, range, shorter);
    Pow2Adds(32 - prefix, prefix - shorter);
    var x := Value(address.0, address.1, address.2, address.3);
    var y := Value(range.0, range.1, range.2, range.3);
    DivideTwice(x, Pow2(32 - prefix), Pow2(prefix - shorter));
    DivideTwice(y, Pow2(32 - prefix), Pow2(prefix - shorter));
    assert 32 - prefix + (prefix - shorter) == 32 - shorter;
  }

  /** Prefix 0 contains every address, prefix 32 only the address itself. */
  lemma {:induction false} ExtremePrefixes(address: (Octet, Octet, Octet, Octet), range: (Octet, Octet, Octet, Octet))
    ensures IsIPv4InCIDR(Some(address), Some(range), 0)
    ensures IsIPv4InCIDR(Some(address), Some(range), 32) <==> address == range
  {
    InCIDRIsSamePrefix(address, range, 0);
    InCIDRIsSamePrefix(address, range, 32);
    Pow2Values();
    assert Pow2(0) == 1;
    ValueIsInjective(address.0, address.1, address.2, address.3, range.0, range.1, range.2, range.3);
    ValueInRange(address.0, address.1, address.2, address.3);
    ValueInRange(range.0, range.1, range.2, range.3);
  }

  lemma ValueInRange(a: Octet, b: Octet, c: Octet, d: Octet)
    ensures 0 <= Value(a, b, c, d) < TWO_32
    ensures Value(a, b, c, d) / TWO_32 == 0 && Value(a, b, c, d) / 1 == Value(a, b, c, d)
  {
  }

  lemma ValueIsInjective(a: Octet, b: Octet, c: Octet, d: Octet, a': Octet, b': Octet, c': Octet, d': Octet)
    ensures Value(a, b, c, d) == Value(a', b', c', d') <==> a == a' && b == b' && c == c' && d == d'
  {
    if Value(a, b, c, d) == Value(a', b', c', d') {
      assert a == a' && b == b';
    }
  }
}
