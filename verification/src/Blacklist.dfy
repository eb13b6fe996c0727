/** Blacklist and whitelist lookup: exact patterns first, then prefixes. */
module Blacklist {
  import opened Wrappers
  import opened Text
  import opened Search
  import opened StableSort
  import opened Cidr

  datatype Entry = Entry(id: string, pattern: string, createdAt: int, expiresAt: Option<int>, hitCount: int)

  predicate Live(e: Entry, now: int) {
    e.expiresAt.Some? ==> e.expiresAt.value >= now
  }

  function AliveAt(now: int): Entry -> bool {
    (e: Entry) => Live(e, now)
  }

  /** The rows that survive the deletion of expired ones. */
  function LiveRows(rows: seq<Entry>, now: int): seq<Entry> {
    Filter(rows, AliveAt(now))
  }

  predicate Covers(pattern: string, ip: string) {
    '/' in pattern && CidrMatch(ip, pattern)
  }

  function RowID(e: Entry): string { e.id }

  function RowPattern(e: Entry): string { e.pattern }

  /** The schema's key constraints. */
  ghost predicate Keyed(rows: seq<Entry>) {
    Distinct(rows, RowID) && Distinct(rows, RowPattern)
  }

  function Hit(e: Entry): Entry {
    e.(hitCount := e.hitCount + 1)
  }

  /** One more hit on row `k`, and no other change. */
  ghost predicate Raised(before: seq<Entry>, after: seq<Entry>, k: nat) {
    && |after| == |before| && k < |before|
    && after[k].hitCount == before[k].hitCount + 1
    && after[k] == before[k].(hitCount := after[k].hitCount)
    && forall j :: 0 <= j < |before| && j != k ==> after[j] == before[j]
  }

  predicate Newer(x: Entry, y: Entry) {
    x.createdAt > y.createdAt
  }

  class SecurityDb {
    var blacklist: seq<Entry>
    var whitelist: seq<string>  // patterns, newest first

    method GetBlacklistEntryForIp(ip: string, now: int) returns (r: Option<Entry>)
      requires Keyed(blacklist)
      modifies this`blacklist
      ensures Keyed(blacklist)
      ensures var live := LiveRows(old(blacklist), now);
              && (r.Some? <==> exists e :: e in live && (e.pattern == ip || Covers(e.pattern, ip)))
              && (r.None? ==> blacklist == live)
              && (r.Some? ==> exists k ::
                 && 0 <= k < |live| && live[k] == r.value && (live[k].pattern == ip || Covers(live[k].pattern, ip))
                                          && Raised(live, blacklist, k))
              && (r.Some? && (exists e :: e in live && e.pattern == ip) ==> r.value.pattern == ip)
              && (r.Some? && r.value.pattern != ip ==> forall e ::
                 e in live && (e.pattern == ip || Covers(e.pattern, ip)) ==>
                 e.createdAt <= r.value.createdAt)
    {
      hide CidrMatch, Keyed, Live, LiveRows, Raised, Hit;
      LiveKeyed(blacklist, now);
      PurgeExpired(now);
      ghost var live := blacklist;
      var k := FindFirst(blacklist, (e: Entry) => e.pattern == ip);
      if k < |blacklist| {
        r := Some(blacklist[k]);
        assert blacklist[k] in live && blacklist[k].pattern == ip;
        CountPattern(ip, k);
        HitKeepsKeys(live, k);
        return;
      }
      assert forall e :: e in live ==> e.pattern != ip;
      var covering, m := FindCovering(blacklist, ip);
      if covering.None? {
        return None;
      }
      r := covering;
      assert live[m] in live;
      CountID(covering.value.id, m);
      HitKeepsKeys(live, m);
    }

    /** The newest row whose prefix covers the address. */
    static method FindCovering(rows: seq<Entry>, ip: string) returns (r: Option<Entry>, ghost k: nat)
      ensures r.Some? ==> k < |rows| && rows[k] == r.value && Covers(r.value.pattern, ip)
      ensures r.Some? ==> forall e :: e in rows && Covers(e.pattern, ip) ==> e.createdAt <= r.value.createdAt
      ensures r.None? ==> forall e :: e in rows ==> !Covers(e.pattern, ip)
    {
      hide CidrMatch, IsStableSort;
      k := 0;
      var entries, perm := SliceStable(rows, Newer);
      var m := FindFirst(entries, (e: Entry) => '/' in e.pattern && CidrMatch(ip, e.pattern));
      FirstIsNewest(rows, entries, perm, m, (e: Entry) => Covers(e.pattern, ip));
      if m == |entries| {
        return None, k;
      }
      k := perm[m];
      return Some(entries[m]), k;
    }

    /** DELETE ... WHERE expires_at < now. */
    method PurgeExpired(now: int)
      modifies this`blacklist
      ensures blacklist == LiveRows(old(blacklist), now)
    {
      var rows := blacklist;
      var kept := [];
      for i := 0 to |rows|
        invariant kept == LiveRows(rows[..i], now)
      {
        assert rows[..i + 1][..i] == rows[..i];
        if !(rows[i].expiresAt.Some? && rows[i].expiresAt.value < now) {
          kept := kept + [rows[i]];
        }
      }
      assert rows[..|rows|] == rows;
      blacklist := kept;
    }

    /** UPDATE ... SET hit_count = hit_count + 1 WHERE ip_pattern = pattern. */
    method CountPattern(pattern: string, ghost k: nat)
      requires Keyed(blacklist) && k < |blacklist| && blacklist[k].pattern == pattern
      modifies this`blacklist
      ensures blacklist == old(blacklist)[k := Hit(old(blacklist)[k])]
    {
      var rows := blacklist;
      var out := [];
      for i := 0 to |rows|
        invariant |out| == i && forall j :: 0 <= j < i ==> out[j] == if j == k then Hit(rows[j]) else rows[j]
      {
        out := out + [if rows[i].pattern == pattern then Hit(rows[i]) else rows[i]];
      }
      blacklist := out;
    }

    /** UPDATE ... SET hit_count = hit_count + 1 WHERE id = id. */
    method CountID(id: string, ghost k: nat)
      requires Keyed(blacklist) && k < |blacklist| && blacklist[k].id == id
      modifies this`blacklist
      ensures blacklist == old(blacklist)[k := Hit(old(blacklist)[k])]
    {
      var rows := blacklist;
      var out := [];
      for i := 0 to |rows|
        invariant |out| == i && forall j :: 0 <= j < i ==> out[j] == if j == k then Hit(rows[j]) else rows[j]
      {
        out := out + [if rows[i].id == id then Hit(rows[i]) else rows[i]];
      }
      blacklist := out;
    }

    method IsIpInWhitelist(ip: string) returns (b: bool)
      ensures b <==> exists p :: p in whitelist && (p == ip || Covers(p, ip))
    {
      hide CidrMatch;
      if ip in whitelist {
        return true;
      }
      for i := 0 to |whitelist|
        invariant forall j :: 0 <= j < i ==> !Covers(whitelist[j], ip)
      {
        if '/' in whitelist[i] && CidrMatch(ip, whitelist[i]) {
          assert Covers(whitelist[i], ip);
          return true;
        }
      }
      return false;
    }
  }

  /** The first match among rows sorted newest first is the newest match. */
  lemma FirstIsNewest(rows: seq<Entry>, sorted: seq<Entry>, perm: seq<nat>, m: nat, p: Entry -> bool)
    requires IsStableSort(rows, Newer, sorted, perm)
    requires m <= |sorted| && forall j :: 0 <= j < m ==> !p(sorted[j])
    ensures m < |sorted| == |perm| ==> perm[m] < |rows| && rows[perm[m]] == sorted[m]
    ensures |sorted| == |perm|
    ensures forall e :: e in rows && p(e) ==> m < |sorted| && e.createdAt <= sorted[m].createdAt
  {
    forall e | e in rows && p(e)
      ensures m < |sorted| && e.createdAt <= sorted[m].createdAt
    {
      var i: nat :| i < |rows| && rows[i] == e;
      assert i in perm;
      var j :| 0 <= j < |perm| && perm[j] == i;
      assert m < j ==> Precedes(rows, Newer, perm[m], perm[j]);
    }
  }

  lemma HitKeepsKeys(rows: seq<Entry>, k: nat)
    requires Keyed(rows) && k < |rows|
    ensures Keyed(rows[k := Hit(rows[k])])
    ensures Raised(rows, rows[k := Hit(rows[k])], k)
  {}

  lemma LiveKeyed(rows: seq<Entry>, now: int)
    requires Keyed(rows)
    ensures Keyed(LiveRows(rows, now))
  {
    DistinctFilter(rows, RowID, AliveAt(now));
    DistinctFilter(rows, RowPattern, AliveAt(now));
  }

  /** A row survives the purge exactly when it is not past its expiry. */
  lemma PurgeIsExact(rows: seq<Entry>, now: int)
    ensures forall e :: e in LiveRows(rows, now) <==> e in rows && (e.expiresAt.Some? ==> now <= e.expiresAt.value)
  {
    FilterMembers(rows, AliveAt(now));
  }

  /** For well-formed text the lookup finds an entry exactly when an unexpired pattern is the
      address or the prefix of a block that holds it. */
  lemma QuadCovered(a: seq<nat>, n: seq<nat>, prefix: nat)
    requires Quad(a) && Quad(n) && prefix <= 32
    ensures Covers(CidrText(n, prefix), QuadText(a)) <==>
            var size := Pow2(32 - prefix);
            Address(n) / size * size <= Address(a) < Address(n) / size * size + size
  {
    hide Address, QuadText, Numeral, CidrMatch;
    MatchIsMembership(a, n, prefix);
    BlockOf(Address(a), Address(n), prefix);
    assert CidrText(n, prefix)[|QuadText(n)|] == '/';
  }
}
