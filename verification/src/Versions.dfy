/** Dotted version numbers: three comparers, one order, and the choice of the reported version. */
module Versions {
  import opened Wrappers
  import opened Text

  const MAX_UINT32 := 0xFFFF_FFFF

  datatype Ordering = Less | Equal | Greater {
    function Reverse(): Ordering {
      match this
      case Less => Greater
      case Equal => Equal
      case Greater => Less
    }
  }

  function Compare(a: nat, b: nat): Ordering {
    if a < b then Less else if a > b then Greater else Equal
  }

  /** The pieces that parse as u32; the others are dropped. */
  function ParsePieces(pieces: seq<string>): seq<nat> {
    if pieces == [] then []
    else
      var first := ParseUnsigned(pieces[0], MAX_UINT32);
      (if first.Some? then [first.value] else []) + ParsePieces(pieces[1..])
  }

  function Parts(v: string): seq<nat> {
    ParsePieces(Split(v, '.'))
  }

  function Head(a: seq<nat>): nat {
    if a == [] then 0 else a[0]
  }

  function Tail(a: seq<nat>): seq<nat> {
    if a == [] then [] else a[1..]
  }

  /** Lexicographic order of versions, missing parts counting as zero. */
  function Order(a: seq<nat>, b: seq<nat>): Ordering
    decreases |a| + |b|
  {
    if a == [] && b == [] then Equal
    else if Compare(Head(a), Head(b)) != Equal then Compare(Head(a), Head(b))
    else Order(Tail(a), Tail(b))
  }

  function From(a: seq<nat>, i: nat): seq<nat> {
    if i <= |a| then a[i..] else []
  }

  function Part(a: seq<nat>, i: nat): nat {
    if i < |a| then a[i] else 0
  }

  /** One turn of a comparing loop: the parts at `i` decide, or the rest does. */
  lemma OrderStep(a: seq<nat>, b: seq<nat>, i: nat)
    ensures i >= |a| && i >= |b| ==> Order(From(a, i), From(b, i)) == Equal
    ensures i < |a| || i < |b| ==>
              Order(From(a, i), From(b, i)) ==
              if Compare(Part(a, i), Part(b, i)) != Equal then Compare(Part(a, i), Part(b, i))
                  else Order(From(a, i + 1), From(b, i + 1))
  {
    assert Tail(From(a, i)) == From(a, i + 1) && Tail(From(b, i)) == From(b, i + 1);
  }

  lemma OrderWhole(a: seq<nat>, b: seq<nat>)
    ensures Order(From(a, 0), From(b, 0)) == Order(a, b)
  {
    assert From(a, 0) == a && From(b, 0) == b;
  }

  // ---- the comparers ----

  method CompareSemver(v1: string, v2: string) returns (o: Ordering)
    ensures o == Order(Parts(v1), Parts(v2))
  {
    hide Parts, Order, From;
    var p1, p2 := Parts(v1), Parts(v2);
    var n := if |p1| >= |p2| then |p1| else |p2|;
    OrderWhole(p1, p2);
    OrderStep(p1, p2, n);
    for i := 0 to n
      invariant Order(p1, p2) == Order(From(p1, i), From(p2, i))
    {
      OrderStep(p1, p2, i);
      var a, b := Part(p1, i), Part(p2, i);
      if Compare(a, b) != Equal {
        return Compare(a, b);
      }
    }
    return Equal;
  }

  method CompareVersion(v1: string, v2: string) returns (o: Ordering)
    ensures o == Order(Parts(v1), Parts(v2))
  {
    hide Parts, Order, From;
    var parts1, parts2 := Parts(v1), Parts(v2);
    var n := if |parts1| >= |parts2| then |parts1| else |parts2|;
    OrderWhole(parts1, parts2);
    OrderStep(parts1, parts2, n);
    for i := 0 to n
      invariant Order(parts1, parts2) == Order(From(parts1, i), From(parts2, i))
    {
      OrderStep(parts1, parts2, i);
      var p1, p2 := Part(parts1, i), Part(parts2, i);
      if Compare(p1, p2) != Equal {
        return Compare(p1, p2);
      }
    }
    return Equal;
  }

  method CompareVersions(latest: string, current: string) returns (newer: bool)
    ensures newer <==> Order(Parts(latest), Parts(current)) == Greater
  {
    hide Parts, Order, From;
    var l, c := Parts(latest), Parts(current);
    var n := if |l| >= |c| then |l| else |c|;
    OrderWhole(l, c);
    OrderStep(l, c, n);
    for i := 0 to n
      invariant Order(l, c) == Order(From(l, i), From(c, i))
    {
      OrderStep(l, c, i);
      var latestPart, currentPart := Part(l, i), Part(c, i);
      if latestPart > currentPart {
        return true;
      } else if latestPart < currentPart {
        return false;
      }
    }
    return false;
  }

  lemma NewVersionText()
    ensures Parts("1.16.5") == [1, 16, 5]
  {
    hide Split, Join, Order, Numeral, Parts;
    var v := [1, 16, 5];
    PartsOf(v);
    NumeralsOf3(1, 16, 5);
    SmallNumerals();
    assert VersionText(v) == "1.16.5";
    assert v[1..] == [16, 5] && v[1..][1..] == [5];
    FittingAll(v);
  }

  lemma SmallNumerals()
    ensures Numeral(1) == "1" && Numeral(5) == "5" && Numeral(16) == "16"
  {
    assert Numeral(16) == Numeral(1) + [DigitChar(6)];
  }

  method IsNewVersion(short: string) returns (b: bool)
    ensures b <==> Order(Parts(short), [1, 16, 5]) != Less
  {
    hide Parts, Order;
    NewVersionText();
    var o := CompareVersion(short, "1.16.5");
    b := o != Less;
  }

  // ---- the order ----

  lemma {:induction false} OrderReflexive(a: seq<nat>)
    ensures Order(a, a) == Equal
  {
    if a != [] {
      OrderReflexive(a[1..]);
    }
  }

  lemma {:induction false} OrderFlips(a: seq<nat>, b: seq<nat>)
    ensures Order(b, a) == Order(a, b).Reverse()
    decreases |a| + |b|
  {
    if a != [] || b != [] {
      OrderFlips(Tail(a), Tail(b));
    }
  }

  lemma {:induction false} OrderTransitive(a: seq<nat>, b: seq<nat>, c: seq<nat>)
    ensures Order(a, b) != Greater && Order(b, c) != Greater ==> Order(a, c) != Greater
    ensures Order(a, b) != Greater && Order(b, c) != Greater && Order(a, c) == Equal ==>
            Order(a, b) == Equal == Order(b, c)
    decreases |a| + |b| + |c|
  {
    if a != [] || b != [] || c != [] {
      OrderTransitive(Tail(a), Tail(b), Tail(c));
    }
  }

  /** Versions are equivalent exactly when they agree part by part, zeros standing in. */
  lemma {:induction false} EqualIff(a: seq<nat>, b: seq<nat>)
    ensures Order(a, b) == Equal <==> forall i: nat :: Part(a, i) == Part(b, i)
    decreases |a| + |b|
  {
    if a != [] || b != [] {
      EqualIff(Tail(a), Tail(b));
      forall i: nat
        ensures Part(Tail(a), i) == Part(a, i + 1) && Part(Tail(b), i) == Part(b, i + 1)
      {}
      assert Part(a, 0) == Head(a) && Part(b, 0) == Head(b);
      if Order(a, b) == Equal {
        forall i: nat
          ensures Part(a, i) == Part(b, i)
        {
          if i > 0 {
            assert Part(Tail(a), i - 1) == Part(Tail(b), i - 1);
          }
        }
      } else if forall i: nat :: Part(a, i) == Part(b, i) {
        forall i: nat
          ensures Part(Tail(a), i) == Part(Tail(b), i)
        {
          assert Part(a, i + 1) == Part(b, i + 1);
        }
      }
    }
  }

  /** `i` is the first place where the versions differ, and the first has the smaller number there. */
  predicate LessAt(a: seq<nat>, b: seq<nat>, i: nat) {
    Part(a, i) < Part(b, i) && forall j: nat :: j < i ==> Part(a, j) == Part(b, j)
  }

  lemma LessAtTail(a: seq<nat>, b: seq<nat>, i: nat)
    ensures LessAt(a, b, i) <==>
            if i == 0 then Head(a) < Head(b) else Head(a) == Head(b) && LessAt(Tail(a), Tail(b), i - 1)
  {
    forall j: nat
      ensures Part(Tail(a), j) == Part(a, j + 1) && Part(Tail(b), j) == Part(b, j + 1)
    {}
    assert Part(a, 0) == Head(a) && Part(b, 0) == Head(b);
    hide Head, Tail;
    if i > 0 && Head(a) == Head(b) && LessAt(Tail(a), Tail(b), i - 1) {
      forall j: nat | j < i
        ensures Part(a, j) == Part(b, j)
      {
        if j > 0 {
          assert Part(Tail(a), j - 1) == Part(Tail(b), j - 1);
        }
      }
      assert Part(Tail(a), i - 1) == Part(a, i);
    }
    if i > 0 && LessAt(a, b, i) {
      assert Part(a, 0) == Part(b, 0);
      assert Part(Tail(a), i - 1) == Part(a, i);
      forall j: nat | j < i - 1
        ensures Part(Tail(a), j) == Part(Tail(b), j)
      {
        assert Part(a, j + 1) == Part(b, j + 1);
      }
    }
  }

  /** A version is less than another exactly when at the first place where they differ, zeros
      standing in, its part is the smaller number. */
  lemma {:induction false} LessIff(a: seq<nat>, b: seq<nat>)
    ensures Order(a, b) == Less <==> exists i: nat :: LessAt(a, b, i)
    decreases |a| + |b|
  {
    if a != [] || b != [] {
      LessIff(Tail(a), Tail(b));
      hide LessAt;
      LessAtTail(a, b, 0);
      if i: nat :| LessAt(a, b, i) {
        LessAtTail(a, b, i);
      }
      if i: nat :| LessAt(Tail(a), Tail(b), i) {
        LessAtTail(a, b, i + 1);
      }
    }
  }

  // ---- the text form ----

  function Numerals(a: seq<nat>): (s: seq<string>)
    ensures |s| == |a| && forall i :: 0 <= i < |a| ==> s[i] == Numeral(a[i])
  {
    if a == [] then [] else [Numeral(a[0])] + Numerals(a[1..])
  }

  function VersionText(a: seq<nat>): string
    requires a != []
  {
    Join(Numerals(a), '.')
  }

  predicate Fits(a: seq<nat>) {
    a == [] || (a[0] <= MAX_UINT32 && Fits(a[1..]))
  }

  function Fitting(a: seq<nat>): seq<nat> {
    if a == [] then []
    else (if a[0] <= MAX_UINT32 then [a[0]] else []) + Fitting(a[1..])
  }

  lemma NumeralsOf3(a: nat, b: nat, c: nat)
    ensures VersionText([a, b, c]) == Numeral(a) + "." + Numeral(b) + "." + Numeral(c)
  {
    hide Numeral;
    var s := Numerals([a, b, c]);
    assert s == [Numeral(a), Numeral(b), Numeral(c)];
    assert s[1..] == [Numeral(b), Numeral(c)] && s[1..][1..] == [Numeral(c)];
    assert Join(s[1..], '.') == Numeral(b) + ['.'] + Numeral(c);
    assert Join(s, '.') == Numeral(a) + ['.'] + (Numeral(b) + ['.'] + Numeral(c));
  }

  lemma {:induction false} ParseNumerals(a: seq<nat>)
    ensures ParsePieces(Numerals(a)) == Fitting(a)
  {
    hide Numeral, ParseUnsigned;
    if a != [] {
      ParseNumeral(a[0], MAX_UINT32);
      ParseNumerals(a[1..]);
      assert Numerals(a)[1..] == Numerals(a[1..]);
    }
  }

  /** A version written out is read back as its parts that fit 32 bits. */
  lemma PartsOf(a: seq<nat>)
    requires a != []
    ensures Parts(VersionText(a)) == Fitting(a)
  {
    hide Numeral, Join, Split;
    forall p | p in Numerals(a)
      ensures '.' !in p
    {
      var i :| 0 <= i < |a| && p == Numeral(a[i]);
      assert AllDigits(p);
    }
    SplitJoin(Numerals(a), '.');
    ParseNumerals(a);
  }

  lemma {:induction false} FittingAll(a: seq<nat>)
    ensures |Fitting(a)| <= |a|
    ensures Fitting(a) == a <==> Fits(a)
    ensures !Fits(a) ==> |Fitting(a)| < |a|
    ensures Fits(Fitting(a))
  {
    if a != [] {
      FittingAll(a[1..]);
      assert a == [a[0]] + a[1..];
      if a[0] <= MAX_UINT32 {
        assert Fitting(a)[1..] == Fitting(a[1..]);
      } else {
        assert Fitting(a) == Fitting(a[1..]);
      }
    }
  }

  function Largest(n: nat): (a: seq<nat>)
    ensures |a| == n && Fits(a)
  {
    if n == 0 then [] else [MAX_UINT32] + Largest(n - 1)
  }

  lemma {:induction false} BelowLargest(a: seq<nat>, n: nat)
    requires Fits(a) && |a| < n
    ensures Order(a, Largest(n)) == Less
  {
    if a != [] {
      BelowLargest(a[1..], n - 1);
    }
  }

  /** The version equal to `a` before its first part that does not fit, and as large as can be after. */
  function Rival(a: seq<nat>): (b: seq<nat>)
    ensures |b| == |a| && Fits(b)
  {
    if a == [] then []
    else if a[0] <= MAX_UINT32 then [a[0]] + Rival(a[1..])
    else Largest(|a|)
  }

  lemma {:induction false} RivalDisagrees(a: seq<nat>)
    requires !Fits(a)
    ensures Order(a, Rival(a)) == Greater && Order(Fitting(a), Rival(a)) == Less
  {
    if a[0] <= MAX_UINT32 {
      RivalDisagrees(a[1..]);
    } else {
      FittingAll(a);
      BelowLargest(Fitting(a), |a|);
    }
  }

  /** The text of `a` compares like the number sequence against every version that fits. */
  ghost predicate ReadFaithfully(a: seq<nat>)
    requires a != []
  {
    forall b: seq<nat> :: b != [] && Fits(b) ==> Order(Parts(VersionText(a)), Parts(VersionText(b))) == Order(a, b)
  }

  /** Comparing texts is comparing the numbers written in them exactly when every part fits 32
      bits: a larger part is dropped, and the parts after it move up. */
  lemma FaithfulIff(a: seq<nat>)
    requires a != []
    ensures ReadFaithfully(a) <==> Fits(a)
  {
    hide VersionText, Parts, Fits;
    PartsOf(a);
    FittingAll(a);
    forall b: seq<nat> | b != [] && Fits(b)
      ensures Parts(VersionText(b)) == b
    {
      PartsOf(b);
      FittingAll(b);
    }
    if !Fits(a) {
      RivalDisagrees(a);
      assert Parts(VersionText(Rival(a))) == Rival(a);
    }
  }

  // ---- the reported version ----

  const KNOWN_STABLE_VERSION := "4.1.30"
  const KNOWN_STABLE_ELECTRON := "39.2.3"
  const KNOWN_STABLE_CHROME := "132.0.6834.160"

  datatype Source = KnownStableFallback | LocalInstallation | RemoteAPI

  datatype VersionConfig = VersionConfig(version: string, electron: string, chrome: string)

  /** `v` is the greatest of the candidates, and the earliest among equals. */
  ghost predicate EarliestMaximum(candidates: seq<(string, Source)>, v: string, source: Source) {
    exists k :: && 0 <= k < |candidates| && candidates[k] == (v, source)
                && (forall j :: 0 <= j < k ==> Order(Parts(candidates[j].0), Parts(v)) == Less)
                && (forall j :: k < j < |candidates| ==> Order(Parts(candidates[j].0), Parts(v)) != Greater)
  }

  lemma EarliestMaximumStep(candidates: seq<(string, Source)>, v: string, source: Source, next: (string, Source))
    requires EarliestMaximum(candidates, v, source)
    ensures Order(Parts(next.0), Parts(v)) == Greater ==> EarliestMaximum(candidates + [next], next.0, next.1)
    ensures Order(Parts(next.0), Parts(v)) != Greater ==> EarliestMaximum(candidates + [next], v, source)
  {
    hide Parts, Order;
    var all, n := candidates + [next], |candidates|;
    if Order(Parts(next.0), Parts(v)) == Greater {
      forall j | 0 <= j < n
        ensures Order(Parts(all[j].0), Parts(next.0)) == Less
      {
        OrderFlips(Parts(next.0), Parts(v));
        OrderReflexive(Parts(v));
        OrderTransitive(Parts(all[j].0), Parts(v), Parts(next.0));
        assert all[j] == candidates[j];
      }
      assert all[n] == (next.0, next.1);
    } else {
      var k :| && 0 <= k < n && candidates[k] == (v, source)
               && (forall j :: 0 <= j < k ==> Order(Parts(candidates[j].0), Parts(v)) == Less)
               && (forall j :: k < j < n ==> Order(Parts(candidates[j].0), Parts(v)) != Greater);
      assert all[k] == (v, source);
    }
  }

  method ResolveVersionConfig(short: Option<string>, bundle: Option<string>, remote: Option<string>)
    returns (config: VersionConfig, source: Source)
    ensures var local := if short.Some? then short else bundle;
            EarliestMaximum([("4.1.30", KnownStableFallback)]
                            + (if local.Some? then [(local.value, LocalInstallation)] else [])
                            + (if remote.Some? then [(remote.value, RemoteAPI)] else []), config.version, source)
    ensures config.electron == "39.2.3" && config.chrome == "132.0.6834.160"
  {
    hide Parts, Order;
    var best := KNOWN_STABLE_VERSION;
    source := KnownStableFallback;
    ghost var tried := [(best, source)];
    assert tried[0] == (best, source);
    assert EarliestMaximum(tried, best, source);
    var local := if short.Some? then short else bundle;
    if local.Some? {
      EarliestMaximumStep(tried, best, source, (local.value, LocalInstallation));
      tried := tried + [(local.value, LocalInstallation)];
      var o := CompareSemver(local.value, best);
      if o == Greater {
        best, source := local.value, LocalInstallation;
      }
    }
    if remote.Some? {
      EarliestMaximumStep(tried, best, source, (remote.value, RemoteAPI));
      tried := tried + [(remote.value, RemoteAPI)];
      var o := CompareSemver(remote.value, best);
      if o == Greater {
        best, source := remote.value, RemoteAPI;
      }
    }
    assert tried == [("4.1.30", KnownStableFallback)]
                    + (if local.Some? then [(local.value, LocalInstallation)] else [])
                    + (if remote.Some? then [(remote.value, RemoteAPI)] else []);
    config := VersionConfig(best, KNOWN_STABLE_ELECTRON, KNOWN_STABLE_CHROME);
  }
}
