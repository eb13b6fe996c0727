/** Matching an IPv4 address against a prefix (RFC 4632 section 3.1). */
module Cidr {
  import opened Wrappers
  import opened Text

  function Pow2(k: nat): (p: nat)
    ensures p >= 1
  {
    if k == 0 then 1 else 2 * Pow2(k - 1)
  }

  const WORD := 0x1_0000_0000

  /** Bitwise conjunction. */
  function And(x: nat, y: nat): nat {
    if x == 0 || y == 0 then 0 else 2 * And(x / 2, y / 2) + (x % 2) * (y % 2)
  }

  /** The pieces that parse as octets; the others are dropped. */
  function Octets(s: string): seq<nat> {
    ParsedOctets(Split(s, '.'))
  }

  function ParsedOctets(pieces: seq<string>): (r: seq<nat>)
    ensures forall i :: 0 <= i < |r| ==> r[i] < 256
  {
    if pieces == [] then []
    else
      (match ParseUnsigned(pieces[0], 255) case Some(n) => [n] case None => []) + ParsedOctets(pieces[1..])
  }

  /** u32::from_be_bytes. */
  function Address(o: seq<nat>): (a: nat)
    requires |o| == 4 && forall i :: 0 <= i < 4 ==> o[i] < 256
    ensures a < WORD
  {
    o[0] * 0x100_0000 + o[1] * 0x1_0000 + o[2] * 0x100 + o[3]
  }

  /** The left shift that makes the mask. Above 32 the subtraction wraps in eight bits and the
      shift count is taken modulo 32, as in a build without overflow checks. */
  function Shift(prefix: nat): (s: nat)
    requires 0 < prefix <= 255
    ensures s < 32
  {
    (32 - prefix) % 256 % 32
  }

  function Mask(prefix: nat): nat
    requires prefix <= 255
  {
    if prefix == 0 then 0 else (WORD - 1) * Pow2(Shift(prefix)) % WORD
  }

  predicate CidrMatch(ip: string, cidr: string) {
    var parts := Split(cidr, '/');
    |parts| == 2 &&
    match ParseUnsigned(parts[1], 255)
    case None => false
    case Some(prefix) =>
      var a, n := Octets(ip), Octets(parts[0]);
      |a| == 4 && |n| == 4 && And(Address(a), Mask(prefix)) == And(Address(n), Mask(prefix))
  }

  // ---- arithmetic of the mask ----

  lemma {:induction false} Pow2Add(a: nat, b: nat)
    ensures Pow2(a + b) == Pow2(a) * Pow2(b)
  {
    if a > 0 {
      Pow2Add(a - 1, b);
      assert 2 * (Pow2(a - 1) * Pow2(b)) == (2 * Pow2(a - 1)) * Pow2(b);
    }
  }

  lemma DivMod(x: nat, d: nat)
    requires d > 0
    ensures x == d * (x / d) + x % d && 0 <= x % d < d
  {}

  lemma Regroup(a: nat, b: nat, q: nat, r: nat)
    ensures a * (b * q + r) == q * (a * b) + a * r
  {
    assert a * (b * q) == q * (a * b);
  }

  lemma RestBelow(a: nat, b: nat, r: nat, s: nat)
    requires r < b && s < a
    ensures 0 <= a * r + s < a * b
  {
    assert a * r <= a * (b - 1);
    assert a * (b - 1) == a * b - a;
  }

  lemma DivDiv(x: nat, a: nat, b: nat)
    requires a > 0 && b > 0
    ensures a * b > 0 && x / a / b == x / (a * b)
  {
    var y := x / a;
    var q, r, s := y / b, y % b, x % a;
    DivMod(x, a);
    DivMod(y, b);
    Regroup(a, b, q, r);
    RestBelow(a, b, r, s);
    Quotient(x, a * b, q, a * r + s);
  }

  lemma Quotient(x: nat, d: nat, q: nat, rest: nat)
    requires rest < d && x == q * d + rest
    ensures x / d == q
  {
    DivModUnique(x, d, q, rest);
  }

  lemma {:induction false} AndOnes(x: nat, n: nat)
    requires x < Pow2(n)
    ensures And(x, Pow2(n) - 1) == x
    decreases n
  {
    if n > 0 && x > 0 {
      var m := Pow2(n) - 1;
      assert m / 2 == Pow2(n - 1) - 1 && m % 2 == 1;
      AndOnes(x / 2, n - 1);
    }
  }

  lemma AndEven(x: nat, m: nat)
    ensures And(x, 2 * m) == 2 * And(x / 2, m)
  {
    assert 2 * m / 2 == m && 2 * m % 2 == 0;
  }

  lemma ClearLow(x: nat, half: nat)
    requires half > 0
    ensures 2 * (x / 2 / half * half) == x / (2 * half) * (2 * half)
  {
    DivDiv(x, 2, half);
    var q := x / (2 * half);
    assert q * (2 * half) == 2 * (q * half);
  }

  lemma MaskHalves(n: nat, s: nat)
    requires 0 < s <= n
    ensures Pow2(n) == 2 * Pow2(n - 1) && Pow2(s) == 2 * Pow2(s - 1)
  {}

  /** Masking with ones above bit `s` clears the low `s` bits and keeps the rest. */
  lemma {:induction false} AndMask(x: nat, n: nat, s: nat)
    requires s <= n && x < Pow2(n)
    ensures Pow2(s) <= Pow2(n) && And(x, Pow2(n) - Pow2(s)) == x / Pow2(s) * Pow2(s)
    decreases s
  {
    if s == 0 {
      AndOnes(x, n);
      assert Pow2(0) == 1;
    } else {
      hide And, Pow2;
      MaskHalves(n, s);
      AndMask(x / 2, n - 1, s - 1);
      AndEven(x, Pow2(n - 1) - Pow2(s - 1));
      ClearLow(x, Pow2(s - 1));
    }
  }

  lemma WordIsPow2()
    ensures Pow2(32) == WORD
  {
    assert Pow2(8) == 256;
    Pow2Add(8, 8);
    Pow2Add(16, 16);
  }

  lemma {:induction false} Pow2Monotone(a: nat, b: nat)
    requires a <= b
    ensures Pow2(a) <= Pow2(b)
  {
    Pow2Add(b - a, a);
    assert Pow2(b - a) * Pow2(a) >= Pow2(a);
  }

  lemma MaskValue(prefix: nat)
    requires prefix <= 32
    ensures Pow2(32 - prefix) <= WORD && Mask(prefix) == WORD - Pow2(32 - prefix)
  {
    hide Pow2;
    WordIsPow2();
    var p := Pow2(32 - prefix);
    Pow2Monotone(32 - prefix, 32);
    if prefix > 0 {
      assert Shift(prefix) == 32 - prefix;
      assert (WORD - 1) * p == (p - 1) * WORD + (WORD - p);
      DivModUnique((WORD - 1) * p, WORD, p - 1, WORD - p);
    }
  }

  // ---- what matching means ----

  /** Agreement on the top `prefix` bits. */
  predicate SamePrefix(x: nat, y: nat, prefix: nat)
    requires prefix <= 32
  {
    x / Pow2(32 - prefix) == y / Pow2(32 - prefix)
  }

  lemma MaskMatch(x: nat, y: nat, prefix: nat)
    requires x < WORD && y < WORD && prefix <= 32
    ensures And(x, Mask(prefix)) == And(y, Mask(prefix)) <==> SamePrefix(x, y, prefix)
  {
    hide And, Mask, Pow2;
    WordIsPow2();
    MaskValue(prefix);
    var p := Pow2(32 - prefix);
    AndMask(x, 32, 32 - prefix);
    AndMask(y, 32, 32 - prefix);
    Cancel(x / p, y / p, p);
  }

  lemma Cancel(a: int, b: int, p: int)
    requires p > 0
    ensures a * p == b * p <==> a == b
  {
    if a * p == b * p {
      SmallMultiple(a - b, p) by { assert (a - b) * p == 0; }
    }
  }

  /** The classes are the aligned blocks of 2^(32 - prefix) addresses. */
  lemma BlockOf(x: nat, y: nat, prefix: nat)
    requires prefix <= 32
    ensures var size := Pow2(32 - prefix);
            SamePrefix(x, y, prefix) <==> y / size * size <= x < y / size * size + size
  {
    hide Pow2;
    InBlock(x, y / Pow2(32 - prefix), Pow2(32 - prefix));
  }

  lemma InBlock(x: nat, q: nat, size: nat)
    requires size > 0
    ensures x / size == q <==> q * size <= x < q * size + size
  {
    DivMod(x, size);
    if q * size <= x < q * size + size {
      DivModUnique(x, size, q, x - q * size);
    }
  }

  /** Blocks are nested: a longer prefix refines a shorter one. */
  lemma Nested(x: nat, y: nat, short: nat, long: nat)
    requires short <= long <= 32 && SamePrefix(x, y, long)
    ensures SamePrefix(x, y, short)
  {
    hide Pow2;
    var fine, coarse := Pow2(32 - long), Pow2(long - short);
    Pow2Add(32 - long, long - short);
    DivDiv(x, fine, coarse);
    DivDiv(y, fine, coarse);
  }

  /** The whole address must agree under the longest prefix, nothing under the empty one. */
  lemma Extremes(x: nat, y: nat)
    requires x < WORD && y < WORD
    ensures SamePrefix(x, y, 32) <==> x == y
    ensures SamePrefix(x, y, 0)
  {
    WordIsPow2();
  }

  /** A prefix length above 32 acts as the length one to thirty-two congruent to it. */
  lemma LongPrefix(prefix: nat)
    requires 32 < prefix <= 255
    ensures Mask(prefix) == Mask((prefix - 1) % 32 + 1)
  {
    hide Pow2;
    var q, r := (prefix - 1) / 32, (prefix - 1) % 32;
    assert (32 - prefix) % 256 == (8 - q) * 32 + (31 - r);
    DivModUnique((32 - prefix) % 256, 32, 8 - q, 31 - r);
    assert Shift(prefix) == 31 - r == Shift(r + 1);
  }

  // ---- well-formed text ----

  function QuadText(o: seq<nat>): string
    requires |o| == 4
  {
    Join([Numeral(o[0]), Numeral(o[1]), Numeral(o[2]), Numeral(o[3])], '.')
  }

  function CidrText(o: seq<nat>, prefix: nat): string
    requires |o| == 4
  {
    QuadText(o) + "/" + Numeral(prefix)
  }

  predicate Quad(o: seq<nat>) {
    |o| == 4 && forall i :: 0 <= i < 4 ==> o[i] < 256
  }

  lemma NoneIn(s: string, c: char)
    requires AllDigits(s) && !IsDigit(c)
    ensures c !in s
  {}

  lemma OctetsOfQuad(o: seq<nat>)
    requires Quad(o)
    ensures Octets(QuadText(o)) == o
  {
    hide Split, Join, Numeral, ParseUnsigned, NumeralValue;
    var pieces := [Numeral(o[0]), Numeral(o[1]), Numeral(o[2]), Numeral(o[3])];
    forall p | p in pieces ensures '.' !in p {
      NoneIn(p, '.');
    }
    SplitJoin(pieces, '.');
    ParseNumeral(o[0], 255);
    ParseNumeral(o[1], 255);
    ParseNumeral(o[2], 255);
    ParseNumeral(o[3], 255);
    var p1, p2, p3 := pieces[1..], pieces[2..], pieces[3..];
    assert p1[1..] == p2 && p2[1..] == p3 && p3[1..] == [];
    assert ParsedOctets(p3) == [o[3]] + ParsedOctets([]);
    assert ParsedOctets(p2) == [o[2]] + ParsedOctets(p3);
    assert ParsedOctets(p1) == [o[1]] + ParsedOctets(p2);
    assert ParsedOctets(pieces) == [o[0]] + ParsedOctets(p1);
    assert o == [o[0], o[1], o[2], o[3]];
  }

  lemma NoSlash(o: seq<nat>)
    requires Quad(o)
    ensures '/' !in QuadText(o)
  {
    var s0, s1, s2, s3 := Numeral(o[0]), Numeral(o[1]), Numeral(o[2]), Numeral(o[3]);
    NoneIn(s0, '/');
    NoneIn(s1, '/');
    NoneIn(s2, '/');
    NoneIn(s3, '/');
    hide Numeral;
    var pieces := [s0, s1, s2, s3];
    assert pieces[1..] == [s1, s2, s3] && [s1, s2, s3][1..] == [s2, s3] && [s2, s3][1..] == [s3];
    assert Join([s3], '.') == s3;
    assert Join([s2, s3], '.') == s2 + ['.'] + s3;
    assert Join([s1, s2, s3], '.') == s1 + ['.'] + Join([s2, s3], '.');
    assert Join(pieces, '.') == s0 + ['.'] + Join([s1, s2, s3], '.');
  }

  /** On well-formed text the matcher decides membership in the block of the prefix. */
  lemma MatchIsMembership(a: seq<nat>, n: seq<nat>, prefix: nat)
    requires Quad(a) && Quad(n) && prefix <= 32
    ensures CidrMatch(QuadText(a), CidrText(n, prefix)) <==> SamePrefix(Address(a), Address(n), prefix)
  {
    OctetsOfQuad(a);
    OctetsOfQuad(n);
    NoSlash(n);
    NoneIn(Numeral(prefix), '/');
    SplitCons(QuadText(n), Numeral(prefix), '/');
    SplitOne(Numeral(prefix), '/');
    assert QuadText(n) + ['/'] + Numeral(prefix) == CidrText(n, prefix);
    ParseNumeral(prefix, 255);
    MaskMatch(Address(a), Address(n), prefix);
    hide Numeral, QuadText, Split, ParseUnsigned, Octets, And, Mask, Address, SamePrefix;
    assert Split(CidrText(n, prefix), '/') == [QuadText(n), Numeral(prefix)];
  }
}
