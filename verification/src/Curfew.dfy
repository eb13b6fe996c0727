/** The nightly curfew of a token: a string comparison that means a cyclic interval of minutes. */
module Curfew {
  import opened Wrappers
  import opened Text

  const MINUTES := 1440

  /** Minute of the day at UTC+8. */
  function BeijingMinute(now: int): (m: nat)
    ensures m < MINUTES
  {
    (now + 8 * 3600) / 60 % MINUTES
  }

  /** HH:MM. */
  function ClockText(m: nat): string
    requires m < MINUTES
  {
    Padded(m / 60, 2) + ":" + Padded(m % 60, 2)
  }

  predicate InCurfew(start: Option<string>, end: Option<string>, now: int) {
    && start.Some? && end.Some? && start.value != "" && end.value != ""
    && var current := ClockText(BeijingMinute(now));
       if StringLess(end.value, start.value) then !StringLess(current, start.value) || StringLess(current, end.value)
       else !StringLess(current, start.value) && StringLess(current, end.value)
  }

  /** Among numerals of one width the string order is the numeric order. */
  lemma {:induction false} NumeralOrder(a: string, b: string)
    requires |a| == |b| && AllDigits(a) && AllDigits(b)
    ensures StringLess(a, b) <==> NumeralValue(a) < NumeralValue(b)
    ensures a == b <==> NumeralValue(a) == NumeralValue(b)
  {
    if a == "" {
      StringLessTrichotomy(a, b);
    } else {
      hide StringLess, NumeralValue;
      var n := |a| - 1;
      var a', x := a[..n], a[n];
      var b', y := b[..n], b[n];
      assert a == a' + [x] && b == b' + [y];
      NumeralOrder(a', b');
      ConcatOrder(a', [x], b', [y]);
      LastDigit(a', x);
      LastDigit(b', y);
      OneCharacter(x, y);
    }
  }

  lemma LastDigit(s: string, c: char)
    requires AllDigits(s) && IsDigit(c)
    ensures AllDigits(s + [c]) && NumeralValue(s + [c]) == 10 * NumeralValue(s) + DigitValue(c)
  {
    assert (s + [c])[..|s|] == s;
  }

  lemma OneCharacter(x: char, y: char)
    ensures StringLess([x], [y]) <==> x < y
  {}

  lemma {:induction false} ConcatOrder(a: string, u: string, b: string, v: string)
    requires |a| == |b|
    ensures StringLess(a + u, b + v) <==> StringLess(a, b) || (a == b && StringLess(u, v))
  {
    if a == "" {
      assert a + u == u && b + v == v;
    } else {
      ConcatOrder(a[1..], u, b[1..], v);
      assert (a + u)[1..] == a[1..] + u && (b + v)[1..] == b[1..] + v;
      assert a == [a[0]] + a[1..] && b == [b[0]] + b[1..];
    }
  }

  lemma PaddedOrder(i: nat, j: nat)
    requires i < 100 && j < 100
    ensures StringLess(Padded(i, 2), Padded(j, 2)) <==> i < j
    ensures Padded(i, 2) == Padded(j, 2) <==> i == j
  {
    hide Padded, StringLess, NumeralValue;
    assert Power10(2) == 100 by { assert Power10(1) == 10; }
    NumeralOrder(Padded(i, 2), Padded(j, 2));
  }

  lemma ClockOrder(a: nat, b: nat)
    requires a < MINUTES && b < MINUTES
    ensures StringLess(ClockText(a), ClockText(b)) <==> a < b
  {
    hide Padded, StringLess, NumeralValue;
    var h, k := Padded(a / 60, 2), Padded(b / 60, 2);
    PaddedOrder(a / 60, b / 60);
    PaddedOrder(a % 60, b % 60);
    ConcatOrder(h + ":", Padded(a % 60, 2), k + ":", Padded(b % 60, 2));
    ConcatOrder(h, ":", k, ":");
    StringLessTrichotomy(":", ":");
    assert h + ":" == k + ":" <==> h == k by {
      assert (h + ":")[..2] == h && (k + ":")[..2] == k;
    }
  }

  /** The text is the hour and the minute, two digits each. */
  lemma ClockReads(m: nat)
    requires m < MINUTES
    ensures var t := ClockText(m);
            && |t| == 5 && t[2] == ':' && AllDigits(t[..2]) && AllDigits(t[3..])
            && NumeralValue(t[..2]) == m / 60 && NumeralValue(t[3..]) == m % 60
  {
    hide Padded, NumeralValue;
    assert Power10(2) == 100 by { assert Power10(1) == 10; }
    var t := ClockText(m);
    assert t[..2] == Padded(m / 60, 2) && t[3..] == Padded(m % 60, 2);
  }

  /** Eight hours ahead. */
  lemma BeijingIs(now: int)
    ensures BeijingMinute(now) == (now / 60 + 480) % 1440
  {
    assert (now + 8 * 3600) / 60 == now / 60 + 480;
  }

  /** Between well-formed bounds the curfew is the half-open interval from start to end on the
      24-hour circle, read eight hours ahead of UTC; equal bounds mean no curfew at all. */
  lemma CurfewIsCyclicInterval(start: nat, end: nat, now: int)
    requires start < 1440 && end < 1440
    ensures InCurfew(Some(ClockText(start)), Some(ClockText(end)), now) <==>
            (now / 60 + 480 - start) % 1440 < (end - start) % 1440
  {
    hide ClockText, StringLess, BeijingMinute;
    ClockNonempty(start);
    ClockNonempty(end);
    var m := BeijingMinute(now);
    BeijingIs(now);
    ClockOrder(end, start);
    ClockOrder(m, start);
    ClockOrder(m, end);
    Cyclic(m, start, end);
    SameMinute(now / 60 + 480, start);
  }

  lemma Cyclic(m: nat, start: nat, end: nat)
    requires m < 1440 && start < 1440 && end < 1440
    ensures (m - start) % 1440 < (end - start) % 1440 <==>
            if end < start then m >= start || m < end else m >= start && m < end
  {}

  lemma SameMinute(minute: int, start: nat)
    ensures (minute - start) % 1440 == (minute % 1440 - start) % 1440
  {
    var q, r := (minute % 1440 - start) / 1440, (minute % 1440 - start) % 1440;
    DivModUnique(minute - start, 1440, minute / 1440 + q, r);
  }

  lemma ClockNonempty(m: nat)
    requires m < MINUTES
    ensures ClockText(m) != ""
  {
    hide Padded;
  }
}
