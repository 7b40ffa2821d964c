/**
  Holder snapshots of the lake (features/lake.py:735-801): the buckets of hours and wallets that
  one pass fills, the rows of the holders table over the same snapshots, and top-ten concentration.
*/
module LakeHolders {

  import opened Prelude
  import opened LakeMarket

  type Wallet = nat

  /** An account of a snapshot; an empty address or an unreadable balance is None. */
  datatype Account = Account(wallet: Option<Wallet>, balance: Option<real>)

  datatype Snapshot = Snapshot(observedAt: nat, mint: Address, supply: Option<real>, accounts: seq<Account>)

  datatype Entry = Entry(observedAt: nat, pct: real)

  type Bucket = map<Wallet, Entry>

  function Share(balance: real, supply: Option<real>): real {
    if supply.Some? && supply.value > 0.0 then balance / supply.value else 0.0
  }

  predicate Parses(a: Account) {
    a.wallet.Some? && a.balance.Some?
  }

  // ------------------------------------------------ what was read of one wallet in one hour

  function ReadingsIn(s: Snapshot, accounts: seq<Account>, w: Wallet): seq<Entry> {
    if accounts == [] then []
    else
      var last := accounts[|accounts| - 1];
      ReadingsIn(s, accounts[..|accounts| - 1], w)
      + if Parses(last) && last.wallet.value == w
        then [Entry(s.observedAt, Share(last.balance.value, s.supply))] else []
  }

  function Readings(snaps: seq<Snapshot>, a: Address, hour: nat, w: Wallet): seq<Entry> {
    if snaps == [] then []
    else
      var last := snaps[|snaps| - 1];
      Readings(snaps[..|snaps| - 1], a, hour, w)
      + if last.mint == a && last.observedAt / HOUR == hour then ReadingsIn(last, last.accounts, w) else []
  }

  /** The latest reading; of several made at the same time, the first. */
  function Latest(rs: seq<Entry>): Option<Entry> {
    if rs == [] then None
    else
      var before := Latest(rs[..|rs| - 1]);
      var last := rs[|rs| - 1];
      if before.None? || last.observedAt > before.value.observedAt then Some(last) else before
  }

  // ------------------------------------------------------------- the two data structures

  /** The lake's buckets of one asset: an hour appears as soon as it has a snapshot, even an empty one. */
  ghost predicate AreBuckets(snaps: seq<Snapshot>, a: Address, hours: map<nat, Bucket>) {
    && (forall h :: h in hours <==> exists s :: s in snaps && s.mint == a && s.observedAt / HOUR == h)
    && forall h, w :: h in hours ==> BucketHolds(snaps, a, h, w, hours[h])
  }

  ghost predicate BucketHolds(snaps: seq<Snapshot>, a: Address, h: nat, w: Wallet, bucket: Bucket) {
    match Latest(Readings(snaps, a, h, w))
    case None => w !in bucket
    case Some(e) => w in bucket && bucket[w] == e
  }

  datatype HolderKey = HolderKey(hour: nat, wallet: Wallet)

  /** The table's rows of one asset: one for each hour and wallet, with the latest reading. */
  ghost predicate IsTable(snaps: seq<Snapshot>, a: Address, table: map<HolderKey, Entry>) {
    forall h, w :: BucketHolds(snaps, a, h, w, TableAt(table, h))
  }

  function TableAt(table: map<HolderKey, Entry>, h: nat): Bucket {
    map k | k in table && k.hour == h :: k.wallet := table[k]
  }

  function Visible(snaps: seq<Snapshot>, ts: nat): (v: seq<Snapshot>)
    ensures forall s :: s in v <==> s in snaps && s.observedAt <= ts
  {
    if snaps == [] then []
    else
      var init := snaps[..|snaps| - 1];
      var last := snaps[|snaps| - 1];
      assert snaps == init + [last];
      Visible(init, ts) + if last.observedAt <= ts then [last] else []
  }

  // -------------------------------------------------------------------- the buckets' loop

  /** One account in the bucket of its hour. */
  function Noted(bucket: Bucket, s: Snapshot, acc: Account): Bucket {
    if !Parses(acc) then bucket
    else
      var w := acc.wallet.value;
      if w !in bucket || s.observedAt > bucket[w].observedAt
      then bucket[w := Entry(s.observedAt, Share(acc.balance.value, s.supply))]
      else bucket
  }

  function WithReading(before: Option<Entry>, e: Entry): Option<Entry> {
    if before.None? || e.observedAt > before.value.observedAt then Some(e) else before
  }

  function At(bucket: Bucket, w: Wallet): Option<Entry> {
    if w in bucket then Some(bucket[w]) else None
  }

  lemma LatestOfLonger(rs: seq<Entry>, e: Entry)
    ensures Latest(rs + [e]) == WithReading(Latest(rs), e)
  {
    assert (rs + [e])[..|rs|] == rs;
  }

  function NotedAll(bucket: Bucket, s: Snapshot, accounts: seq<Account>): Bucket {
    if accounts == [] then bucket
    else Noted(NotedAll(bucket, s, accounts[..|accounts| - 1]), s, accounts[|accounts| - 1])
  }

  lemma {:induction false} NotedAllAt(bucket: Bucket, s: Snapshot, accounts: seq<Account>, w: Wallet, rs: seq<Entry>)
    requires At(bucket, w) == Latest(rs)
    ensures At(NotedAll(bucket, s, accounts), w) == Latest(rs + ReadingsIn(s, accounts, w))
  {
    if accounts == [] {
      assert rs + [] == rs;
    } else {
      var init := accounts[..|accounts| - 1];
      var last := accounts[|accounts| - 1];
      NotedAllAt(bucket, s, init, w, rs);
      var so := rs + ReadingsIn(s, init, w);
      if Parses(last) && last.wallet.value == w {
        var e := Entry(s.observedAt, Share(last.balance.value, s.supply));
        assert rs + ReadingsIn(s, accounts, w) == so + [e];
        LatestOfLonger(so, e);
      } else {
        assert rs + ReadingsIn(s, accounts, w) == so;
      }
    }
  }

  method FillBucket(bucket: Bucket, s: Snapshot) returns (filled: Bucket)
    ensures filled == NotedAll(bucket, s, s.accounts)
  {
    filled := bucket;
    var i := 0;
    while i < |s.accounts|
      invariant 0 <= i <= |s.accounts|
      invariant filled == NotedAll(bucket, s, s.accounts[..i])
    {
      var acc := s.accounts[i];
      assert s.accounts[..i + 1][..i] == s.accounts[..i];
      if acc.wallet.Some? && acc.balance.Some? {
        var w := acc.wallet.value;
        if w !in filled || s.observedAt > filled[w].observedAt {
          filled := filled[w := Entry(s.observedAt, Share(acc.balance.value, s.supply))];
        }
      }
      i := i + 1;
    }
    assert s.accounts[..i] == s.accounts;
  }

  function BucketAt(hours: map<nat, Bucket>, h: nat): Bucket {
    if h in hours then hours[h] else map[]
  }

  /** The buckets of an asset after one snapshot more, of that asset or of another. */
  function WithSnapshot(hours: map<nat, Bucket>, a: Address, s: Snapshot): map<nat, Bucket> {
    var h := s.observedAt / HOUR;
    if s.mint == a then hours[h := NotedAll(BucketAt(hours, h), s, s.accounts)] else hours
  }

  lemma NoBuckets()
    ensures forall a :: AreBuckets([], a, map[])
  {
  }

  lemma NextSnapshot(before: seq<Snapshot>, s: Snapshot, a: Address, hours: map<nat, Bucket>)
    requires AreBuckets(before, a, hours)
    ensures AreBuckets(before + [s], a, WithSnapshot(hours, a, s))
  {
    var after := before + [s];
    var g := s.observedAt / HOUR;
    var next := WithSnapshot(hours, a, s);
    forall h ensures h in next <==> exists t :: t in after && t.mint == a && t.observedAt / HOUR == h {
      if h in hours {
        var t :| t in before && t.mint == a && t.observedAt / HOUR == h;
        assert t in after;
      }
      assert s in after;
    }
    forall h, w | h in next ensures BucketHolds(after, a, h, w, next[h]) {
      NextReading(before, s, a, hours, h, w);
    }
  }

  lemma NextReading(before: seq<Snapshot>, s: Snapshot, a: Address, hours: map<nat, Bucket>, h: nat, w: Wallet)
    requires AreBuckets(before, a, hours)
    requires h in hours || (s.mint == a && h == s.observedAt / HOUR)
    ensures BucketHolds(before + [s], a, h, w,
                        if s.mint == a && h == s.observedAt / HOUR then NotedAll(BucketAt(hours, h), s, s.accounts)
                        else hours[h])
  {
    var rs := Readings(before, a, h, w);
    assert (before + [s])[..|before|] == before;
    if h !in hours {
      NoReadings(before, a, h, w);
    } else {
      assert BucketHolds(before, a, h, w, hours[h]);
    }
    if s.mint == a && h == s.observedAt / HOUR {
      NotedAllAt(BucketAt(hours, h), s, s.accounts, w, rs);
    } else {
      assert rs + [] == rs;
    }
  }

  lemma {:induction false} NoReadings(snaps: seq<Snapshot>, a: Address, h: nat, w: Wallet)
    requires forall s :: s in snaps ==> !(s.mint == a && s.observedAt / HOUR == h)
    ensures Readings(snaps, a, h, w) == []
  {
    if snaps != [] {
      var init := snaps[..|snaps| - 1];
      assert snaps == init + [snaps[|snaps| - 1]];
      assert snaps[|snaps| - 1] in snaps;
      NoReadings(init, a, h, w);
    }
  }

  /** One pass over the snapshots fills the buckets of every asset of the batch, each with its own readings alone. */
  method HolderBuckets(snaps: seq<Snapshot>, batch: seq<Address>) returns (byAsset: map<Address, map<nat, Bucket>>)
    ensures byAsset.Keys == set a | a in batch
    ensures forall a :: a in byAsset ==> AreBuckets(snaps, a, byAsset[a])
  {
    hide AreBuckets, NotedAll, BucketAt;
    byAsset := map a | a in batch :: map[];
    NoBuckets();
    var i := 0;
    while i < |snaps|
      invariant 0 <= i <= |snaps|
      invariant byAsset.Keys == set a | a in batch
      invariant forall a :: a in byAsset ==> AreBuckets(snaps[..i], a, byAsset[a])
    {
      var s := snaps[i];
      assert snaps[..i + 1] == snaps[..i] + [s];
      forall a | a in byAsset ensures AreBuckets(snaps[..i + 1], a, WithSnapshot(byAsset[a], a, s)) {
        NextSnapshot(snaps[..i], s, a, byAsset[a]);
      }
      if s.mint in byAsset {
        var h := s.observedAt / HOUR;
        var bucket := FillBucket(BucketAt(byAsset[s.mint], h), s);
        byAsset := byAsset[s.mint := byAsset[s.mint][h := bucket]];
      }
      i := i + 1;
    }
    assert snaps[..i] == snaps;
  }

  // --------------------------------------------------------------- top-ten concentration

  function InsertDesc(x: real, s: seq<real>): seq<real> {
    if s == [] || x >= s[0] then [x] + s else [s[0]] + InsertDesc(x, s[1..])
  }

  function SortDesc(s: seq<real>): seq<real> {
    if s == [] then [] else InsertDesc(s[0], SortDesc(s[1..]))
  }

  function Sum(s: seq<real>): real {
    if s == [] then 0.0 else s[0] + Sum(s[1..])
  }

  function TopTen(pcts: seq<real>): real {
    var sorted := SortDesc(pcts);
    Sum(if |sorted| <= 10 then sorted else sorted[..10])
  }

  /** What the features see of a bucket: wallets and shares, and no times. */
  type Shares = map<Wallet, real>

  function SharesIn(bucket: Bucket): (shares: Shares)
    ensures |shares| == |bucket|
  {
    var shares := map w | w in bucket :: bucket[w].pct;
    assert shares.Keys == bucket.Keys && |shares| == |shares.Keys| && |bucket| == |bucket.Keys|;
    shares
  }

  ghost predicate IsOrder(order: seq<Wallet>, shares: Shares) {
    Distinct(order) && forall w :: w in order <==> w in shares
  }

  function Pcts(shares: Shares, order: seq<Wallet>): seq<real>
    requires forall w :: w in order ==> w in shares
  {
    if order == [] then [] else [shares[order[0]]] + Pcts(shares, order[1..])
  }

  lemma {:induction false} InsertsCommute(x: real, y: real, s: seq<real>)
    ensures InsertDesc(x, InsertDesc(y, s)) == InsertDesc(y, InsertDesc(x, s))
  {
    if s != [] && x < s[0] && y < s[0] {
      InsertsCommute(x, y, s[1..]);
      assert ([s[0]] + InsertDesc(x, s[1..]))[1..] == InsertDesc(x, s[1..]);
      assert ([s[0]] + InsertDesc(y, s[1..]))[1..] == InsertDesc(y, s[1..]);
    } else if s != [] && (x < s[0] || y < s[0]) {
      assert ([x] + s)[1..] == s && ([y] + s)[1..] == s;
    } else {
      assert ([x] + s)[1..] == s && ([y] + s)[1..] == s;
    }
  }

  /** Whatever place a wallet has in the order, its share could as well be inserted last. */
  lemma {:induction false} SortAnyPlace(shares: Shares, order: seq<Wallet>, w: Wallet)
    requires w in order && Distinct(order) && forall v :: v in order ==> v in shares
    ensures SortDesc(Pcts(shares, order)) == InsertDesc(shares[w], SortDesc(Pcts(shares, Omit(order, w))))
  {
    if order[0] == w {
      OmitFirst(order);
    } else {
      var v := order[0];
      var rest := order[1..];
      SortAnyPlace(shares, rest, w);
      OmitLater(order, w);
      InsertsCommute(shares[v], shares[w], SortDesc(Pcts(shares, Omit(rest, w))));
    }
  }

  lemma {:induction false} OmitLater(s: seq<Wallet>, w: Wallet)
    requires s != [] && s[0] != w
    ensures Omit(s, w) == [s[0]] + Omit(s[1..], w)
  {
    if |s| > 1 {
      var init := s[..|s| - 1];
      OmitLater(init, w);
      assert init[1..] == s[1..][..|s| - 2];
    }
  }

  /** The concentration is that of the wallets, in whichever order they are listed. */
  lemma {:induction false} SortedOrderFree(shares: Shares, p: seq<Wallet>, q: seq<Wallet>)
    requires Distinct(p) && Distinct(q) && (forall w :: w in p <==> w in q) && forall w :: w in p ==> w in shares
    ensures SortDesc(Pcts(shares, p)) == SortDesc(Pcts(shares, q))
    decreases |p|
  {
    if p != [] {
      var w := p[0];
      SortAnyPlace(shares, q, w);
      OmitLength(q, w);
      assert w !in p[1..];
      assert forall v :: v in p[1..] <==> v in Omit(q, w);
      SortedOrderFree(shares, p[1..], Omit(q, w));
    }
  }

  lemma {:induction false} OrderOfWallets(ws: set<Wallet>) returns (order: seq<Wallet>)
    ensures Distinct(order) && forall w :: w in order <==> w in ws
  {
    order := [];
    if ws != {} {
      var w :| w in ws;
      var rest := OrderOfWallets(ws - {w});
      order := [w] + rest;
    }
  }

  lemma OrderExists(shares: Shares)
    ensures exists order :: IsOrder(order, shares)
  {
    var order := OrderOfWallets(shares.Keys);
    assert IsOrder(order, shares);
  }

  ghost function Concentration(shares: Shares): real {
    OrderExists(shares);
    var order :| IsOrder(order, shares);
    TopTen(Pcts(shares, order))
  }

  lemma ConcentrationIsOrderFree(shares: Shares, order: seq<Wallet>)
    requires IsOrder(order, shares)
    ensures Concentration(shares) == TopTen(Pcts(shares, order))
  {
    OrderExists(shares);
    forall other | IsOrder(other, shares) ensures TopTen(Pcts(shares, other)) == TopTen(Pcts(shares, order)) {
      SortedOrderFree(shares, order, other);
    }
  }
}
