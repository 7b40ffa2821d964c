/**
  The holder features in terms of the snapshots alone: which hour is reported, who is counted in
  it, what growth compares and what concentration sums (features/lake.py:766-807,
  features/factory.py:597-633).
*/
module HolderFeatures {

  import opened Prelude
  import opened LakeMarket
  import opened LakeHolders
  import opened HolderPaths

  // --------------------------------------------------------------- readings by position

  /** Account `j` of snapshot `i` tells a wallet's balance in that hour. */
  predicate ReadsAt(snaps: seq<Snapshot>, a: Address, h: nat, w: Wallet, i: int, j: int) {
    && 0 <= i < |snaps| && snaps[i].mint == a && snaps[i].observedAt / 3600 == h
    && 0 <= j < |snaps[i].accounts|
    && snaps[i].accounts[j].wallet == Some(w) && snaps[i].accounts[j].balance.Some?
  }

  predicate NotBefore(i: int, j: int, k: int, l: int) {
    i < k || (i == k && j <= l)
  }

  /** The latest of the readings; of several made at the same time, the first. */
  ghost predicate LastReading(snaps: seq<Snapshot>, a: Address, h: nat, w: Wallet, i: int, j: int) {
    && ReadsAt(snaps, a, h, w, i, j)
    && forall k, l :: ReadsAt(snaps, a, h, w, k, l) ==>
         snaps[k].observedAt < snaps[i].observedAt
         || (snaps[k].observedAt == snaps[i].observedAt && NotBefore(i, j, k, l))
  }

  /** The balance as a part of the supply, zero without a supply. */
  function PartOf(snaps: seq<Snapshot>, i: int, j: int): real
    requires 0 <= i < |snaps| && 0 <= j < |snaps[i].accounts| && snaps[i].accounts[j].balance.Some?
  {
    if snaps[i].supply.Some? && snaps[i].supply.value > 0.0
    then snaps[i].accounts[j].balance.value / snaps[i].supply.value else 0.0
  }

  /** The wallets read in an hour, each with the part its last reading gives it. */
  ghost predicate HeldIn(snaps: seq<Snapshot>, a: Address, h: nat, shares: Shares) {
    && (forall w :: w in shares <==> exists i, j :: ReadsAt(snaps, a, h, w, i, j))
    && forall w, i, j :: w in shares && LastReading(snaps, a, h, w, i, j) ==> shares[w] == PartOf(snaps, i, j)
  }

  ghost predicate EntryIs(snaps: seq<Snapshot>, a: Address, h: nat, w: Wallet, e: Entry, i: int, j: int) {
    LastReading(snaps, a, h, w, i, j) && e.observedAt == snaps[i].observedAt && e.pct == PartOf(snaps, i, j)
  }

  // ------------------------------------------ the latest reading, by position and by sequence

  /** Readings of the snapshots before `n` and of the first `m` accounts of snapshot `n`. */
  predicate Within(i: int, j: int, n: int, m: int) {
    i < n || (i == n && j < m)
  }

  ghost predicate LastWithin(snaps: seq<Snapshot>, a: Address, h: nat, w: Wallet, i: int, j: int, n: int, m: int) {
    && ReadsAt(snaps, a, h, w, i, j) && Within(i, j, n, m)
    && forall k, l :: ReadsAt(snaps, a, h, w, k, l) && Within(k, l, n, m) ==>
         snaps[k].observedAt < snaps[i].observedAt
         || (snaps[k].observedAt == snaps[i].observedAt && NotBefore(i, j, k, l))
  }

  /** What has been read so far, by position. */
  ghost predicate FoundWithin(snaps: seq<Snapshot>, a: Address, h: nat, w: Wallet, found: Option<Entry>, n: int,
                              m: int)
  {
    match found
    case None => forall k, l :: ReadsAt(snaps, a, h, w, k, l) ==> !Within(k, l, n, m)
    case Some(e) =>
      exists i, j :: LastWithin(snaps, a, h, w, i, j, n, m) && e.observedAt == snaps[i].observedAt
                     && e.pct == PartOf(snaps, i, j)
  }

  lemma NextAccount(snaps: seq<Snapshot>, a: Address, h: nat, w: Wallet, found: Option<Entry>, n: nat, m: nat)
    requires n < |snaps| && m < |snaps[n].accounts| && FoundWithin(snaps, a, h, w, found, n, m)
    ensures var s, acc := snaps[n], snaps[n].accounts[m];
            var next := if ReadsAt(snaps, a, h, w, n, m)
                        then WithReading(found, Entry(s.observedAt, Share(acc.balance.value, s.supply))) else found;
            FoundWithin(snaps, a, h, w, next, n, m + 1)
  {
    if ReadsAt(snaps, a, h, w, n, m) {
      if found.Some? {
        var i, j :| LastWithin(snaps, a, h, w, i, j, n, m) && found.value.observedAt == snaps[i].observedAt
                    && found.value.pct == PartOf(snaps, i, j);
        if snaps[n].observedAt > found.value.observedAt {
          assert LastWithin(snaps, a, h, w, n, m, n, m + 1);
        } else {
          assert LastWithin(snaps, a, h, w, i, j, n, m + 1);
        }
      } else {
        assert LastWithin(snaps, a, h, w, n, m, n, m + 1);
      }
    } else if found.Some? {
      var i, j :| LastWithin(snaps, a, h, w, i, j, n, m) && found.value.observedAt == snaps[i].observedAt
                  && found.value.pct == PartOf(snaps, i, j);
      assert LastWithin(snaps, a, h, w, i, j, n, m + 1);
    }
  }

  lemma NextSnap(snaps: seq<Snapshot>, a: Address, h: nat, w: Wallet, found: Option<Entry>, n: nat)
    requires n < |snaps| && FoundWithin(snaps, a, h, w, found, n, |snaps[n].accounts|)
    ensures FoundWithin(snaps, a, h, w, found, n + 1, 0)
  {
    if found.Some? {
      var i, j :| LastWithin(snaps, a, h, w, i, j, n, |snaps[n].accounts|)
                  && found.value.observedAt == snaps[i].observedAt && found.value.pct == PartOf(snaps, i, j);
      assert LastWithin(snaps, a, h, w, i, j, n + 1, 0);
    }
  }

  /** The readings of the snapshots before `n` and of the first `m` accounts of snapshot `n`, in order. */
  function ReadSoFar(snaps: seq<Snapshot>, a: Address, h: nat, w: Wallet, n: nat, m: nat): seq<Entry>
    requires n < |snaps| && m <= |snaps[n].accounts|
  {
    Readings(snaps[..n], a, h, w)
    + if snaps[n].mint == a && snaps[n].observedAt / HOUR == h
      then ReadingsIn(snaps[n], snaps[n].accounts[..m], w) else []
  }

  lemma ReadOneMore(snaps: seq<Snapshot>, a: Address, h: nat, w: Wallet, n: nat, m: nat)
    requires n < |snaps| && m < |snaps[n].accounts|
    ensures ReadSoFar(snaps, a, h, w, n, m + 1)
         == ReadSoFar(snaps, a, h, w, n, m)
            + if ReadsAt(snaps, a, h, w, n, m)
              then [Entry(snaps[n].observedAt, Share(snaps[n].accounts[m].balance.value, snaps[n].supply))] else []
  {
    var accounts := snaps[n].accounts;
    assert accounts[..m + 1][..m] == accounts[..m];
  }

  lemma {:induction false} AccountsFound(snaps: seq<Snapshot>, a: Address, h: nat, w: Wallet, n: nat, m: nat)
    requires n < |snaps| && m <= |snaps[n].accounts|
    requires FoundWithin(snaps, a, h, w, Latest(Readings(snaps[..n], a, h, w)), n, 0)
    ensures FoundWithin(snaps, a, h, w, Latest(ReadSoFar(snaps, a, h, w, n, m)), n, m)
  {
    hide FoundWithin, ReadsAt, Latest, Readings;
    if m > 0 {
      AccountsFound(snaps, a, h, w, n, m - 1);
      var found := Latest(ReadSoFar(snaps, a, h, w, n, m - 1));
      NextAccount(snaps, a, h, w, found, n, m - 1);
      ReadOneMore(snaps, a, h, w, n, m - 1);
      AddedIsLatest(snaps, a, h, w, n, m - 1);
    } else {
      assert ReadSoFar(snaps, a, h, w, n, 0) == Readings(snaps[..n], a, h, w);
    }
  }

  lemma AddedIsLatest(snaps: seq<Snapshot>, a: Address, h: nat, w: Wallet, n: nat, m: nat)
    requires n < |snaps| && m < |snaps[n].accounts|
    ensures var s, acc, rs := snaps[n], snaps[n].accounts[m], ReadSoFar(snaps, a, h, w, n, m);
            Latest(ReadSoFar(snaps, a, h, w, n, m + 1))
            == if ReadsAt(snaps, a, h, w, n, m)
               then WithReading(Latest(rs), Entry(s.observedAt, Share(acc.balance.value, s.supply))) else Latest(rs)
  {
    hide ReadSoFar;
    var s, acc, rs := snaps[n], snaps[n].accounts[m], ReadSoFar(snaps, a, h, w, n, m);
    ReadOneMore(snaps, a, h, w, n, m);
    if ReadsAt(snaps, a, h, w, n, m) {
      LatestOfLonger(rs, Entry(s.observedAt, Share(acc.balance.value, s.supply)));
    } else {
      assert rs + [] == rs;
    }
  }

  lemma SnapshotFound(snaps: seq<Snapshot>, a: Address, h: nat, w: Wallet, n: nat)
    requires n < |snaps| && FoundWithin(snaps, a, h, w, Latest(Readings(snaps[..n], a, h, w)), n, 0)
    ensures FoundWithin(snaps, a, h, w, Latest(Readings(snaps[..n + 1], a, h, w)), n + 1, 0)
  {
    hide FoundWithin, Latest;
    var s := snaps[n];
    AccountsFound(snaps, a, h, w, n, |s.accounts|);
    NextSnap(snaps, a, h, w, Latest(ReadSoFar(snaps, a, h, w, n, |s.accounts|)), n);
    AllAccountsRead(snaps, a, h, w, n);
    hide Readings, ReadSoFar;
  }

  lemma AllAccountsRead(snaps: seq<Snapshot>, a: Address, h: nat, w: Wallet, n: nat)
    requires n < |snaps|
    ensures ReadSoFar(snaps, a, h, w, n, |snaps[n].accounts|) == Readings(snaps[..n + 1], a, h, w)
  {
    var s := snaps[n];
    assert snaps[..n + 1] == snaps[..n] + [s] && s.accounts[..|s.accounts|] == s.accounts;
    OneMoreReading(snaps[..n], s, a, h, w);
    hide Readings, ReadingsIn;
  }

  lemma {:induction false} SnapshotsFound(snaps: seq<Snapshot>, a: Address, h: nat, w: Wallet, n: nat)
    requires n <= |snaps|
    ensures FoundWithin(snaps, a, h, w, Latest(Readings(snaps[..n], a, h, w)), n, 0)
  {
    if n > 0 {
      SnapshotsFound(snaps, a, h, w, n - 1);
      hide FoundWithin, Latest;
      SnapshotFound(snaps, a, h, w, n - 1);
    }
  }

  /** The latest reading of the sequences is the last by position. */
  lemma LatestIsLast(snaps: seq<Snapshot>, a: Address, h: nat, w: Wallet)
    ensures Latest(Readings(snaps, a, h, w)).None? <==> forall i, j :: !ReadsAt(snaps, a, h, w, i, j)
    ensures Latest(Readings(snaps, a, h, w)).Some? ==>
              exists i, j :: EntryIs(snaps, a, h, w, Latest(Readings(snaps, a, h, w)).value, i, j)
  {
    hide Latest, Readings;
    SnapshotsFound(snaps, a, h, w, |snaps|);
    assert snaps[..|snaps|] == snaps;
    var found := Latest(Readings(snaps, a, h, w));
    if found.Some? {
      var i, j :| LastWithin(snaps, a, h, w, i, j, |snaps|, 0) && found.value.observedAt == snaps[i].observedAt
                  && found.value.pct == PartOf(snaps, i, j);
      assert EntryIs(snaps, a, h, w, found.value, i, j);
    } else {
      forall i, j ensures !ReadsAt(snaps, a, h, w, i, j) {
        assert ReadsAt(snaps, a, h, w, i, j) ==> Within(i, j, |snaps|, 0);
      }
    }
  }

  lemma LastIsUnique(snaps: seq<Snapshot>, a: Address, h: nat, w: Wallet, i: int, j: int, k: int, l: int)
    requires LastReading(snaps, a, h, w, i, j) && LastReading(snaps, a, h, w, k, l)
    ensures i == k && j == l
  {
  }

  /** A bucket that holds the latest readings holds exactly these wallets and parts. */
  lemma BucketIsHeld(snaps: seq<Snapshot>, a: Address, h: nat, bucket: Bucket, shares: Shares)
    requires (forall w :: BucketHolds(snaps, a, h, w, bucket)) && HeldIn(snaps, a, h, shares)
    ensures SharesIn(bucket) == shares
  {
    var mine := SharesIn(bucket);
    forall w ensures w in mine <==> w in shares
             ensures w in mine && w in shares ==> mine[w] == shares[w] {
      OneIsHeld(snaps, a, h, bucket, shares, w);
    }
  }

  lemma OneIsHeld(snaps: seq<Snapshot>, a: Address, h: nat, bucket: Bucket, shares: Shares, w: Wallet)
    requires BucketHolds(snaps, a, h, w, bucket) && HeldIn(snaps, a, h, shares)
    ensures w in SharesIn(bucket) <==> w in shares
    ensures w in SharesIn(bucket) && w in shares ==> SharesIn(bucket)[w] == shares[w]
  {
    hide Latest, Readings, LastReading;
    LatestIsLast(snaps, a, h, w);
    if w in bucket {
      var i, j :| EntryIs(snaps, a, h, w, bucket[w], i, j);
      EntryIsRead(snaps, a, h, w, bucket[w], i, j);
    }
  }

  lemma EntryIsRead(snaps: seq<Snapshot>, a: Address, h: nat, w: Wallet, e: Entry, i: int, j: int)
    requires EntryIs(snaps, a, h, w, e, i, j)
    ensures ReadsAt(snaps, a, h, w, i, j) && LastReading(snaps, a, h, w, i, j)
    ensures 0 <= i < |snaps| && 0 <= j < |snaps[i].accounts| && snaps[i].accounts[j].balance.Some?
    ensures e.pct == PartOf(snaps, i, j)
  {
  }

  lemma BucketReads(snaps: seq<Snapshot>, a: Address, h: nat, bucket: Bucket)
    requires forall w :: BucketHolds(snaps, a, h, w, bucket)
    ensures HeldIn(snaps, a, h, SharesIn(bucket))
  {
    var shares := SharesIn(bucket);
    forall w ensures w in shares <==> exists i, j :: ReadsAt(snaps, a, h, w, i, j) {
      OneIsRead(snaps, a, h, bucket, w);
    }
    forall w, i, j | w in shares && LastReading(snaps, a, h, w, i, j) ensures shares[w] == PartOf(snaps, i, j) {
      PartIsRead(snaps, a, h, bucket, w, i, j);
    }
  }

  lemma OneIsRead(snaps: seq<Snapshot>, a: Address, h: nat, bucket: Bucket, w: Wallet)
    requires BucketHolds(snaps, a, h, w, bucket)
    ensures w in SharesIn(bucket) <==> exists i, j :: ReadsAt(snaps, a, h, w, i, j)
  {
    hide Latest, Readings, LastReading;
    LatestIsLast(snaps, a, h, w);
    if w in bucket {
      var i, j :| EntryIs(snaps, a, h, w, bucket[w], i, j);
      EntryIsRead(snaps, a, h, w, bucket[w], i, j);
    }
  }

  lemma PartIsRead(snaps: seq<Snapshot>, a: Address, h: nat, bucket: Bucket, w: Wallet, i: int, j: int)
    requires BucketHolds(snaps, a, h, w, bucket) && w in bucket && LastReading(snaps, a, h, w, i, j)
    ensures ReadsAt(snaps, a, h, w, i, j) && bucket[w].pct == PartOf(snaps, i, j)
  {
    hide Latest, Readings, LastReading;
    LatestIsLast(snaps, a, h, w);
    var k, l :| EntryIs(snaps, a, h, w, bucket[w], k, l);
    EntryIsRead(snaps, a, h, w, bucket[w], k, l);
    LastIsUnique(snaps, a, h, w, i, j, k, l);
  }

  // ------------------------------------------------------------ what the lake path says

  /** Nothing was observed by the decision exactly if there are no features. */
  lemma LakePathSaysNothing(snaps: seq<Snapshot>, a: Address, ts: nat, hours: map<nat, Bucket>)
    requires AreBuckets(Visible(snaps, ts), a, hours)
    ensures LakePath(hours, ts).NoHolders? <==> forall h: nat :: !Observed(snaps, a, ts, h)
  {
    hide AreBuckets, Observed, Concentration, MaxOf;
    forall h: nat ensures h in LakeView(hours, ts) <==> Observed(snaps, a, ts, h) {
      LakeHours(snaps, a, ts, hours, h);
    }
    if LakeView(hours, ts).Keys != {} {
      var h :| h in LakeView(hours, ts).Keys;
      assert Observed(snaps, a, ts, h);
    }
  }

  lemma HourOfView(snaps: seq<Snapshot>, a: Address, ts: nat, hours: map<nat, Bucket>, h: nat)
    requires AreBuckets(Visible(snaps, ts), a, hours) && Observed(snaps, a, ts, h)
    ensures h in LakeView(hours, ts) && HeldIn(Visible(snaps, ts), a, h, LakeView(hours, ts)[h])
  {
    LakeHours(snaps, a, ts, hours, h);
    BucketReads(Visible(snaps, ts), a, h, hours[h]);
    hide HeldIn, Observed;
  }

  /**
    The lake counts the wallets read by the decision in the latest hour observed by then, and
    sums the ten largest of their parts; growth is their number less the number in the latest
    hour that began at least an hour before the decision, if there is one.
  */
  lemma LakePathSays(snaps: seq<Snapshot>, a: Address, ts: nat, hours: map<nat, Bucket>, latest: nat,
                     prior: Option<nat>)
    returns (shares: Shares, earlier: Shares)
    requires AreBuckets(Visible(snaps, ts), a, hours) && IsLatest(snaps, a, ts, latest)
    requires match prior case Some(p) => IsPrior(snaps, a, ts, p)
             case None => forall p: nat :: !IsPrior(snaps, a, ts, p)
    ensures HeldIn(Visible(snaps, ts), a, latest, shares)
    ensures prior.Some? ==> HeldIn(Visible(snaps, ts), a, prior.value, earlier)
    ensures var found := LakePath(hours, ts);
            && found.Holders? && found.count == |shares| && found.concentration == Concentration(shares)
            && (prior.None? ==> found.growth == None)
            && (prior.Some? ==> found.growth.Some? && found.growth.value + |earlier| == |shares|)
  {
    hide HeldIn, AreBuckets, MaxOf, Concentration, Observed;
    var view := LakeView(hours, ts);
    forall h: nat ensures h in view <==> Observed(snaps, a, ts, h) {
      LakeHours(snaps, a, ts, hours, h);
    }
    HourOfView(snaps, a, ts, hours, latest);
    shares, earlier := view[latest], map[];
    MaxIs(view.Keys, latest);
    LatestPrior(snaps, a, ts, view, prior);
    if prior.Some? {
      HourOfView(snaps, a, ts, hours, prior.value);
      earlier := view[prior.value];
    }
    hide LakeView;
  }

  /** The prior hour of the features, in terms of the snapshots. */
  lemma LatestPrior(snaps: seq<Snapshot>, a: Address, ts: nat, view: View, prior: Option<nat>)
    requires forall h: nat :: h in view <==> Observed(snaps, a, ts, h)
    requires match prior case Some(p) => IsPrior(snaps, a, ts, p)
             case None => forall p: nat :: !IsPrior(snaps, a, ts, p)
    ensures prior.None? ==> Prior(view.Keys, ts) == {}
    ensures prior.Some? ==> Prior(view.Keys, ts) != {} && MaxOf(Prior(view.Keys, ts)) == prior.value
  {
    hide Observed, MaxOf;
    var hours := Prior(view.Keys, ts);
    assert forall h: nat :: h in hours <==> Observed(snaps, a, ts, h) && (h + 1) * HOUR <= ts;
    SomePrior(snaps, a, ts, hours);
    if prior.Some? {
      assert prior.value in hours;
      MaxIs(hours, prior.value);
    }
  }

  lemma SomePrior(snaps: seq<Snapshot>, a: Address, ts: nat, hours: set<nat>)
    requires forall h: nat :: h in hours <==> Observed(snaps, a, ts, h) && (h + 1) * HOUR <= ts
    ensures hours != {} ==> IsPrior(snaps, a, ts, MaxOf(hours))
  {
    hide Observed, MaxOf;
    if hours != {} {
      assert MaxOf(hours) in hours;
    }
  }

  // ----------------------------------------------------------- what the table path says

  /** The table shows an hour to the decision when some wallet's last reading in it was made by then. */
  ghost predicate Shown(snaps: seq<Snapshot>, a: Address, ts: nat, h: nat) {
    h * 3600 <= ts && exists w :: ReadByThen(snaps, a, ts, h, w)
  }

  ghost predicate ReadByThen(snaps: seq<Snapshot>, a: Address, ts: nat, h: nat, w: Wallet) {
    exists i, j :: LastReading(snaps, a, h, w, i, j) && 0 <= i < |snaps| && snaps[i].observedAt <= ts
  }

  lemma TableShows(snaps: seq<Snapshot>, a: Address, ts: nat, table: map<HolderKey, Entry>, h: nat)
    requires IsTable(snaps, a, table)
    ensures h in TableView(table, ts) <==> Shown(snaps, a, ts, h)
    ensures h in TableView(table, ts) ==> HeldIn(snaps, a, h, TableView(table, ts)[h])
  {
    hide LastReading, ReadsAt, HeldIn, SharesIn, IsTable, Shown;
    TableHours(snaps, a, ts, table, h);
    ShownMeans(snaps, a, ts, h);
    if h * HOUR <= ts {
      TableReadsExactly(snaps, a, ts, table, h);
    }
    TableHolds(snaps, a, table, h);
  }

  lemma TableHolds(snaps: seq<Snapshot>, a: Address, table: map<HolderKey, Entry>, h: nat)
    requires IsTable(snaps, a, table)
    ensures HeldIn(snaps, a, h, SharesIn(TableAt(table, h)))
  {
    hide HeldIn, SharesIn, TableAt, BucketHolds;
    BucketReads(snaps, a, h, TableAt(table, h));
  }

  lemma ShownMeans(snaps: seq<Snapshot>, a: Address, ts: nat, h: nat)
    ensures Shown(snaps, a, ts, h) <==> h * HOUR <= ts && exists w :: LastReadBy(snaps, a, ts, h, w)
  {
    hide ReadByThen, LastReadBy;
    forall w ensures LastReadBy(snaps, a, ts, h, w) <==> ReadByThen(snaps, a, ts, h, w) {
      LastReadMeans(snaps, a, ts, h, w);
    }
  }

  lemma LastReadMeans(snaps: seq<Snapshot>, a: Address, ts: nat, h: nat, w: Wallet)
    ensures LastReadBy(snaps, a, ts, h, w) <==> ReadByThen(snaps, a, ts, h, w)
  {
    hide Latest, Readings, LastReading;
    LastReads(snaps, a, h, w);
    LatestIsLast(snaps, a, h, w);
    var latest := Latest(Readings(snaps, a, h, w));
    if latest.Some? {
      var i, j :| EntryIs(snaps, a, h, w, latest.value, i, j);
      EntryIsRead(snaps, a, h, w, latest.value, i, j);
      forall k, l | LastReading(snaps, a, h, w, k, l) ensures k == i && l == j {
        LastIsUnique(snaps, a, h, w, i, j, k, l);
      }
    }
  }

  lemma LastReads(snaps: seq<Snapshot>, a: Address, h: nat, w: Wallet)
    ensures forall i, j :: LastReading(snaps, a, h, w, i, j) ==> ReadsAt(snaps, a, h, w, i, j)
  {
  }

  ghost predicate IsLatestShown(snaps: seq<Snapshot>, a: Address, ts: nat, h: nat) {
    Shown(snaps, a, ts, h) && forall g: nat :: Shown(snaps, a, ts, g) ==> g <= h
  }

  ghost predicate IsPriorShown(snaps: seq<Snapshot>, a: Address, ts: nat, h: nat) {
    && Shown(snaps, a, ts, h) && (h + 1) * 3600 <= ts
    && forall g: nat :: Shown(snaps, a, ts, g) && (g + 1) * 3600 <= ts ==> g <= h
  }

  /** The table path says the same of the hours it shows, but counts every wallet read in them, however late. */
  lemma TablePathSays(snaps: seq<Snapshot>, a: Address, ts: nat, table: map<HolderKey, Entry>, latest: nat,
                      prior: Option<nat>)
    returns (shares: Shares, earlier: Shares)
    requires IsTable(snaps, a, table) && IsLatestShown(snaps, a, ts, latest)
    requires match prior case Some(p) => IsPriorShown(snaps, a, ts, p)
             case None => forall p: nat :: !IsPriorShown(snaps, a, ts, p)
    ensures HeldIn(snaps, a, latest, shares)
    ensures prior.Some? ==> HeldIn(snaps, a, prior.value, earlier)
    ensures var found := TablePath(table, ts);
            && found.Holders? && found.count == |shares| && found.concentration == Concentration(shares)
            && (prior.None? ==> found.growth == None)
            && (prior.Some? ==> found.growth.Some? && found.growth.value + |earlier| == |shares|)
  {
    hide HeldIn, IsTable, MaxOf, Concentration, Shown, TableView;
    var view := TableView(table, ts);
    forall h: nat ensures h in view <==> Shown(snaps, a, ts, h) {
      TableShows(snaps, a, ts, table, h);
    }
    TableShows(snaps, a, ts, table, latest);
    shares, earlier := view[latest], map[];
    MaxIs(view.Keys, latest);
    ShownPrior(snaps, a, ts, view, prior);
    if prior.Some? {
      TableShows(snaps, a, ts, table, prior.value);
      earlier := view[prior.value];
    }
  }

  lemma ShownPrior(snaps: seq<Snapshot>, a: Address, ts: nat, view: View, prior: Option<nat>)
    requires forall h: nat :: h in view <==> Shown(snaps, a, ts, h)
    requires match prior case Some(p) => IsPriorShown(snaps, a, ts, p)
             case None => forall p: nat :: !IsPriorShown(snaps, a, ts, p)
    ensures prior.None? ==> Prior(view.Keys, ts) == {}
    ensures prior.Some? ==>
              prior.value in view && Prior(view.Keys, ts) != {} && MaxOf(Prior(view.Keys, ts)) == prior.value
  {
    hide Shown, MaxOf;
    var hours := Prior(view.Keys, ts);
    assert forall h: nat :: h in hours <==> Shown(snaps, a, ts, h) && (h + 1) * HOUR <= ts;
    SomePriorShown(snaps, a, ts, hours);
    if prior.Some? {
      assert prior.value in hours;
      MaxIs(hours, prior.value);
    }
  }

  lemma SomePriorShown(snaps: seq<Snapshot>, a: Address, ts: nat, hours: set<nat>)
    requires forall h: nat :: h in hours <==> Shown(snaps, a, ts, h) && (h + 1) * HOUR <= ts
    ensures hours != {} ==> IsPriorShown(snaps, a, ts, MaxOf(hours))
  {
    hide Shown, MaxOf;
    if hours != {} {
      assert MaxOf(hours) in hours;
    }
  }

  // -------------------------------------------------------------- the ten largest parts

  ghost predicate Descending(s: seq<real>) {
    forall i, j :: 0 <= i <= j < |s| ==> s[i] >= s[j]
  }

  /** The sum of the first `n` numbers. */
  function SumOfFirst(s: seq<real>, n: nat): real
    requires n <= |s|
  {
    if n == 0 then 0.0 else SumOfFirst(s, n - 1) + s[n - 1]
  }

  lemma {:induction false} InsertedDesc(x: real, s: seq<real>)
    requires Descending(s)
    ensures Descending(InsertDesc(x, s)) && multiset(InsertDesc(x, s)) == multiset{x} + multiset(s)
  {
    if s != [] && x < s[0] {
      InsertedDesc(x, s[1..]);
      var rest := InsertDesc(x, s[1..]);
      assert s == [s[0]] + s[1..];
      forall y | y in rest ensures y <= s[0] {
        assert y in multiset(rest);
        if y != x {
          assert y in multiset(s[1..]);
          var i :| 0 <= i < |s[1..]| && s[1..][i] == y;
          assert s[i + 1] == y;
        }
      }
      FrontOfDesc(s[0], rest);
    } else if s != [] {
      forall y | y in s ensures y <= x {
        var i :| 0 <= i < |s| && s[i] == y;
      }
      FrontOfDesc(x, s);
    }
  }

  lemma FrontOfDesc(x: real, s: seq<real>)
    requires Descending(s) && forall y :: y in s ==> y <= x
    ensures Descending([x] + s) && multiset([x] + s) == multiset{x} + multiset(s)
  {
    var t := [x] + s;
    forall i, j | 0 <= i <= j < |t| ensures t[i] >= t[j] {
      if i == 0 && j > 0 {
        assert s[j - 1] in s;
      }
    }
  }

  lemma {:induction false} SortedDesc(s: seq<real>)
    ensures Descending(SortDesc(s)) && multiset(SortDesc(s)) == multiset(s)
  {
    if s != [] {
      SortedDesc(s[1..]);
      InsertedDesc(s[0], SortDesc(s[1..]));
      assert s == [s[0]] + s[1..];
    }
  }

  /** There is one descending arrangement. */
  lemma {:induction false} DescendingIsUnique(s: seq<real>, t: seq<real>)
    requires Descending(s) && Descending(t) && multiset(s) == multiset(t)
    ensures s == t
  {
    assert |multiset(s)| == |s| && |multiset(t)| == |t|;
    if s != [] {
      FirstIsLargest(s, t);
      FirstIsLargest(t, s);
      RestOf(s);
      RestOf(t);
      DescendingIsUnique(s[1..], t[1..]);
      assert s == [s[0]] + s[1..] && t == [t[0]] + t[1..];
    }
  }

  lemma FirstIsLargest(s: seq<real>, t: seq<real>)
    requires Descending(s) && s != [] && t != [] && multiset(s) == multiset(t)
    ensures t[0] <= s[0]
  {
    assert t[0] in multiset(s);
    var j :| 0 <= j < |s| && s[j] == t[0];
  }

  lemma RestOf(s: seq<real>)
    requires Descending(s) && s != []
    ensures Descending(s[1..]) && multiset(s[1..]) == multiset(s) - multiset{s[0]}
  {
    assert s == [s[0]] + s[1..];
  }

  lemma {:induction false} SumBothWays(s: seq<real>, n: nat)
    requires n <= |s|
    ensures SumOfFirst(s, n) == Sum(s[..n])
  {
    if n > 0 {
      SumBothWays(s, n - 1);
      SumAppend(s[..n - 1], s[n - 1]);
      assert s[..n] == s[..n - 1] + [s[n - 1]];
    }
  }

  lemma {:induction false} SumAppend(s: seq<real>, x: real)
    ensures Sum(s + [x]) == Sum(s) + x
  {
    if s == [] {
      assert ([] + [x])[1..] == [];
    } else {
      SumAppend(s[1..], x);
      assert (s + [x])[1..] == s[1..] + [x];
    }
  }

  /** Concentration is the sum of the first ten in any descending arrangement of the parts. */
  lemma ConcentrationMeans(shares: Shares, order: seq<Wallet>, sorted: seq<real>)
    requires Distinct(order) && forall w :: w in order <==> w in shares
    requires Descending(sorted) && multiset(sorted) == multiset(Pcts(shares, order))
    ensures Concentration(shares) == SumOfFirst(sorted, if |sorted| <= 10 then |sorted| else 10)
  {
    hide SortDesc, Concentration;
    ConcentrationIsOrderFree(shares, order);
    SortedDesc(Pcts(shares, order));
    DescendingIsUnique(SortDesc(Pcts(shares, order)), sorted);
    SumBothWays(sorted, if |sorted| <= 10 then |sorted| else 10);
    assert sorted[..|sorted|] == sorted;
  }

  lemma {:induction false} PctsAre(shares: Shares, order: seq<Wallet>, i: nat)
    requires (forall w :: w in order ==> w in shares) && i < |order|
    ensures |Pcts(shares, order)| == |order| && Pcts(shares, order)[i] == shares[order[i]]
  {
    if |order| > 1 {
      PctsAre(shares, order[1..], if i > 0 then i - 1 else 0);
    }
  }
}
