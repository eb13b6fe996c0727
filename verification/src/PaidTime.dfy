/** The time account of one subscription: a sequence of purchases of time. */
module PaidTime {
  import opened Timestamps

  /** `cycle` of time bought at `at`. */
  datatype Purchase = Purchase(at: Time, cycle: int)

  function Max(a: int, b: int): int {
    if a >= b then a else b
  }

  /** When the time bought runs out: each purchase extends what is left, or starts anew. */
  function Expiry(g: seq<Purchase>): Time
    requires g != []
  {
    StartOf(g, |g| - 1) + g[|g| - 1].cycle
  }

  /** When the time bought by purchase `i` begins to run. */
  function StartOf(g: seq<Purchase>, i: nat): Time
    requires i < |g|
  {
    if i == 0 then g[0].at else Max(StartOf(g, i - 1) + g[i - 1].cycle, g[i].at)
  }

  function EndOf(g: seq<Purchase>, i: nat): Time
    requires i < |g|
  {
    StartOf(g, i) + g[i].cycle
  }

  function Total(g: seq<Purchase>): int {
    if g == [] then 0 else Total(g[..|g| - 1]) + g[|g| - 1].cycle
  }

  /** Purchases in the order they were made, each of a nonnegative length. */
  predicate WellFormed(g: seq<Purchase>) {
    && (forall i :: 0 <= i < |g| ==> g[i].cycle >= 0)
    && (forall i, j :: 0 <= i < j < |g| ==> g[i].at <= g[j].at)
  }

  function Clip(x: int, limit: int): int {
    if x < 0 then 0 else if x > limit then limit else x
  }

  /** The paid time that has run by `now`. */
  function Used(g: seq<Purchase>, now: Time): int {
    if g == [] then 0
    else
      var n := |g| - 1;
      Used(g[..n], now) + Clip(now - StartOf(g, n), g[n].cycle)
  }

  predicate Covered(g: seq<Purchase>, now: Time) {
    exists i :: 0 <= i < |g| && StartOf(g, i) <= now < EndOf(g, i)
  }

  lemma {:induction false} StartOfPrefix(g: seq<Purchase>, n: nat, i: nat)
    requires i < n <= |g|
    ensures StartOf(g[..n], i) == StartOf(g, i)
  {
    if i > 0 {
      StartOfPrefix(g, n, i - 1);
    }
  }

  /** What one more purchase does to the expiry: the source's rule, extend or restart. */
  lemma ExpiryAppend(g: seq<Purchase>, p: Purchase)
    ensures Expiry(g + [p]) == (if g == [] || Expiry(g) <= p.at then p.at else Expiry(g)) + p.cycle
  {
    if g != [] {
      StartOfPrefix(g + [p], |g|, |g| - 1);
      assert (g + [p])[..|g|] == g;
    }
  }

  lemma TotalAppend(g: seq<Purchase>, p: Purchase)
    ensures Total(g + [p]) == Total(g) + p.cycle
  {
    assert (g + [p])[..|g|] == g;
  }

  /** No time is counted twice: the paid intervals follow each other without overlap. */
  lemma {:induction false} Disjoint(g: seq<Purchase>, i: nat, j: nat)
    requires WellFormed(g) && i < j < |g|
    ensures EndOf(g, i) <= StartOf(g, j)
  {
    if i < j - 1 {
      Disjoint(g, i, j - 1);
    }
  }

  /** After the last purchase the subscription is live exactly when the moment lies in a
      paid interval. */
  lemma {:induction false} LiveIffCovered(g: seq<Purchase>, now: Time)
    requires WellFormed(g) && g != [] && now >= g[|g| - 1].at
    ensures now < Expiry(g) <==> Covered(g, now)
  {
    var n := |g| - 1;
    forall i | 0 <= i < |g| && StartOf(g, i) <= now < EndOf(g, i)
      ensures now < Expiry(g)
    {
      if i < n {
        Disjoint(g, i, n);
      }
    }
    if now < Expiry(g) && now < StartOf(g, n) {
      var init := g[..n];
      StartOfPrefix(g, n, n - 1);
      LiveIffCovered(init, now);
      var i :| 0 <= i < |init| && StartOf(init, i) <= now < EndOf(init, i);
      StartOfPrefix(g, n, i);
      assert StartOf(g, i) <= now < EndOf(g, i);
    } else if now < Expiry(g) {
      assert StartOf(g, n) <= now < EndOf(g, n);
    }
  }

  lemma {:induction false} AllUsed(g: seq<Purchase>, now: Time)
    requires WellFormed(g) && (g != [] ==> now >= Expiry(g))
    ensures Used(g, now) == Total(g)
  {
    if g != [] {
      var n := |g| - 1;
      if n > 0 {
        StartOfPrefix(g, n, n - 1);
        Disjoint(g, n - 1, n);
      }
      AllUsed(g[..n], now);
    }
  }

  /** No paid time is lost: what has run plus what remains is what was bought. */
  lemma {:induction false} NothingLost(g: seq<Purchase>, now: Time)
    requires WellFormed(g) && g != [] && now >= g[|g| - 1].at
    ensures Used(g, now) + Max(0, Expiry(g) - now) == Total(g)
  {
    var n := |g| - 1;
    var init := g[..n];
    if n > 0 {
      StartOfPrefix(g, n, n - 1);
    }
    if now >= StartOf(g, n) {
      AllUsed(init, now);
    } else {
      NothingLost(init, now);
    }
  }
}
