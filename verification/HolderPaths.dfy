/**
  The two ways to the holder features of an asset: from the lake's buckets (features/lake.py:789-807)
  and from the holders table (features/factory.py:597-633), and exactly when they agree.
*/
module HolderPaths {

  import opened Prelude
  import opened LakeMarket
  import opened LakeHolders

  /** `growth` is absent when no snapshot is at least an hour old. */
  datatype Holders = NoHolders | Holders(count: nat, growth: Option<int>, concentration: real)

  /** The shares of each hour that a path takes into account. */
  type View = map<nat, Shares>

  ghost function MaxOf(s: set<nat>): (m: nat)
    requires s != {}
    ensures m in s && forall x :: x in s ==> x <= m
  {
    var x :| x in s;
    var rest := s - {x};
    assert forall y :: y in s ==> y == x || y in rest;
    if rest == {} then x
    else
      var m := MaxOf(rest);
      if x > m then x else m
  }

  /** Hours that began at least an hour before the decision. */
  ghost function Prior(hours: set<nat>, ts: nat): set<nat> {
    set h | h in hours && (h + 1) * HOUR <= ts
  }

  /** Count and concentration of the latest hour, growth since the latest hour that is old enough. */
  ghost function Summary(view: View, ts: nat): Holders {
    if view.Keys == {} then NoHolders
    else
      var latest := view[MaxOf(view.Keys)];
      var prior := Prior(view.Keys, ts);
      Holders(|latest|, if prior == {} then None else Some(|latest| - |view[MaxOf(prior)]|), Concentration(latest))
  }

  ghost function LakeView(hours: map<nat, Bucket>, ts: nat): View {
    map h | h in hours && h * HOUR <= ts :: SharesIn(hours[h])
  }

  /** Hours are chosen among rows observed by the decision, but then all rows of an hour are read. */
  ghost function SeenHours(table: map<HolderKey, Entry>, ts: nat): set<nat> {
    set k | k in table && table[k].observedAt <= ts && k.hour * HOUR <= ts :: k.hour
  }

  ghost function TableView(table: map<HolderKey, Entry>, ts: nat): View {
    var seen := SeenHours(table, ts);
    map h | h in seen :: SharesIn(TableAt(table, h))
  }

  ghost function LakePath(hours: map<nat, Bucket>, ts: nat): Holders {
    Summary(LakeView(hours, ts), ts)
  }

  ghost function TablePath(table: map<HolderKey, Entry>, ts: nat): Holders {
    Summary(TableView(table, ts), ts)
  }

  predicate Readable(s: Snapshot) {
    exists acc :: acc in s.accounts && Parses(acc)
  }

  predicate InHour(snaps: seq<Snapshot>, a: Address, h: nat, s: Snapshot) {
    s in snaps && s.mint == a && s.observedAt / HOUR == h
  }

  /** Read by the decision, with an account to count. */
  predicate SeenReadable(snaps: seq<Snapshot>, a: Address, ts: nat, h: nat, r: Snapshot) {
    InHour(snaps, a, h, r) && r.observedAt <= ts && Readable(r)
  }

  ghost predicate Observed(snaps: seq<Snapshot>, a: Address, ts: nat, h: nat) {
    exists s :: InHour(snaps, a, h, s) && s.observedAt <= ts
  }

  ghost predicate ReadBy(snaps: seq<Snapshot>, a: Address, ts: nat, h: nat) {
    exists r :: SeenReadable(snaps, a, ts, h, r)
  }

  /** Each hour with a snapshot by the decision has one with an account to count. */
  ghost predicate EachHourIsReadable(snaps: seq<Snapshot>, a: Address, ts: nat) {
    forall h: nat :: Observed(snaps, a, ts, h) ==> ReadBy(snaps, a, ts, h)
  }

  /** The latest share read of a wallet in an hour. */
  function LatestShare(snaps: seq<Snapshot>, a: Address, h: nat, w: Wallet): Option<real> {
    var latest := Latest(Readings(snaps, a, h, w));
    if latest.None? then None else Some(latest.value.pct)
  }

  /** The hour's last reading of the wallet was made by the decision. */
  predicate LastReadBy(snaps: seq<Snapshot>, a: Address, ts: nat, h: nat, w: Wallet) {
    var latest := Latest(Readings(snaps, a, h, w));
    latest.Some? && latest.value.observedAt <= ts
  }

  predicate FirstReadLater(snaps: seq<Snapshot>, a: Address, ts: nat, h: nat, w: Wallet) {
    Readings(snaps, a, h, w) != [] && Readings(Visible(snaps, ts), a, h, w) == []
  }

  /**
    If the decision's own hour has been observed by then, the readings of that hour that come
    later change no share and add no wallet, and some wallet is not among them.
  */
  ghost predicate OwnHourReadsTheSame(snaps: seq<Snapshot>, a: Address, ts: nat) {
    var h := ts / HOUR;
    Observed(snaps, a, ts, h) ==>
      && (forall w :: LatestShare(snaps, a, h, w) == LatestShare(Visible(snaps, ts), a, h, w))
      && exists w :: LastReadBy(snaps, a, ts, h, w)
  }

  lemma {:induction false} ReadingsVisible(snaps: seq<Snapshot>, a: Address, ts: nat, h: nat, w: Wallet)
    requires forall s :: InHour(snaps, a, h, s) && s.observedAt > ts ==> !Readable(s)
    ensures Readings(Visible(snaps, ts), a, h, w) == Readings(snaps, a, h, w)
  {
    if snaps != [] {
      var init := snaps[..|snaps| - 1];
      var last := snaps[|snaps| - 1];
      assert snaps == init + [last];
      assert forall s :: InHour(init, a, h, s) ==> InHour(snaps, a, h, s);
      ReadingsVisible(init, a, ts, h, w);
      if last.observedAt <= ts {
        OneMoreReading(Visible(init, ts), last, a, h, w);
      } else {
        assert Visible(snaps, ts) == Visible(init, ts);
        if last.mint == a && last.observedAt / HOUR == h {
          assert InHour(snaps, a, h, last);
          NothingParsed(last, last.accounts, w);
        }
      }
    }
  }

  lemma OneMoreReading(snaps: seq<Snapshot>, s: Snapshot, a: Address, h: nat, w: Wallet)
    ensures Readings(snaps + [s], a, h, w)
         == Readings(snaps, a, h, w)
            + if s.mint == a && s.observedAt / HOUR == h then ReadingsIn(s, s.accounts, w) else []
  {
    assert (snaps + [s])[..|snaps|] == snaps;
  }

  /** The latest reading is one of the readings, and none is later. */
  lemma {:induction false} LatestIsAReading(rs: seq<Entry>)
    ensures if rs == [] then Latest(rs) == None else Latest(rs).Some? && Latest(rs).value in rs
    ensures forall e :: e in rs ==> e.observedAt <= Latest(rs).value.observedAt
  {
    if rs != [] {
      var init := rs[..|rs| - 1];
      assert rs == init + [rs[|rs| - 1]];
      LatestIsAReading(init);
    }
  }

  lemma {:induction false} ReadingsInAt(s: Snapshot, accounts: seq<Account>, w: Wallet)
    ensures forall e :: e in ReadingsIn(s, accounts, w) ==> e.observedAt == s.observedAt
    ensures ReadingsIn(s, accounts, w) != [] <==> exists acc :: acc in accounts && Parses(acc) && acc.wallet.value == w
  {
    if accounts != [] {
      var init := accounts[..|accounts| - 1];
      assert accounts == init + [accounts[|accounts| - 1]];
      ReadingsInAt(s, init, w);
    }
  }

  /** Every reading was made in some snapshot of its hour. */
  lemma {:induction false} ReadingsComeFrom(snaps: seq<Snapshot>, a: Address, h: nat, w: Wallet, e: Entry)
    requires e in Readings(snaps, a, h, w)
    ensures exists s :: InHour(snaps, a, h, s) && s.observedAt == e.observedAt && Readable(s)
  {
    var init := snaps[..|snaps| - 1];
    var last := snaps[|snaps| - 1];
    assert snaps == init + [last];
    if e in Readings(init, a, h, w) {
      ReadingsComeFrom(init, a, h, w, e);
      var s :| InHour(init, a, h, s) && s.observedAt == e.observedAt && Readable(s);
      assert InHour(snaps, a, h, s);
    } else {
      ReadingsInAt(last, last.accounts, w);
      assert InHour(snaps, a, h, last);
    }
  }

  lemma {:induction false} SnapshotIsRead(snaps: seq<Snapshot>, s: Snapshot, acc: Account)
    requires s in snaps && acc in s.accounts && Parses(acc)
    ensures exists e ::
              e in Readings(snaps, s.mint, s.observedAt / HOUR, acc.wallet.value) && e.observedAt == s.observedAt
  {
    var init := snaps[..|snaps| - 1];
    var last := snaps[|snaps| - 1];
    var w := acc.wallet.value;
    assert snaps == init + [last];
    if s in init {
      SnapshotIsRead(init, s, acc);
      var e :| e in Readings(init, s.mint, s.observedAt / HOUR, w) && e.observedAt == s.observedAt;
      assert e in Readings(snaps, s.mint, s.observedAt / HOUR, w);
    } else {
      ReadingsInAt(s, s.accounts, w);
      assert ReadingsIn(s, s.accounts, w)[0] in Readings(snaps, s.mint, s.observedAt / HOUR, w);
    }
  }

  /** What a bucket or a table holds of a wallet: its latest reading. */
  lemma RowIsAReading(snaps: seq<Snapshot>, a: Address, h: nat, w: Wallet, bucket: Bucket)
    requires BucketHolds(snaps, a, h, w, bucket)
    ensures w in bucket <==> Readings(snaps, a, h, w) != []
    ensures w in bucket ==> bucket[w] in Readings(snaps, a, h, w)
    ensures w in bucket ==> forall e :: e in Readings(snaps, a, h, w) ==> e.observedAt <= bucket[w].observedAt
  {
    LatestIsAReading(Readings(snaps, a, h, w));
  }

  /** A row observed by the decision comes from a readable snapshot of its hour. */
  lemma TableRowIsAReading(snaps: seq<Snapshot>, a: Address, table: map<HolderKey, Entry>, k: HolderKey)
    requires IsTable(snaps, a, table) && k in table
    ensures exists s :: InHour(snaps, a, k.hour, s) && s.observedAt == table[k].observedAt && Readable(s)
  {
    assert BucketHolds(snaps, a, k.hour, k.wallet, TableAt(table, k.hour));
    assert HolderKey(k.hour, k.wallet) == k;
    RowIsAReading(snaps, a, k.hour, k.wallet, TableAt(table, k.hour));
    ReadingsComeFrom(snaps, a, k.hour, k.wallet, table[k]);
  }

  /** The lake's hours are those of the snapshots made by the decision. */
  lemma LakeHours(snaps: seq<Snapshot>, a: Address, ts: nat, hours: map<nat, Bucket>, h: nat)
    requires AreBuckets(Visible(snaps, ts), a, hours)
    ensures h in LakeView(hours, ts) <==> Observed(snaps, a, ts, h)
    ensures h in LakeView(hours, ts) <==> h in hours
    ensures h in hours ==> h <= ts / HOUR
  {
    if h in hours {
      var s :| s in Visible(snaps, ts) && s.mint == a && s.observedAt / HOUR == h;
      assert InHour(snaps, a, h, s);
    }
    if s :| InHour(snaps, a, h, s) && s.observedAt <= ts {
      assert s in Visible(snaps, ts);
    }
  }

  /** The table path reads an hour exactly when some wallet's latest row of that hour was observed by the decision. */
  lemma TableHours(snaps: seq<Snapshot>, a: Address, ts: nat, table: map<HolderKey, Entry>, h: nat)
    requires IsTable(snaps, a, table)
    ensures h in TableView(table, ts) ==> ReadBy(snaps, a, ts, h)
    ensures h in TableView(table, ts) <==>
            h * HOUR <= ts && exists w :: w in TableAt(table, h) && TableAt(table, h)[w].observedAt <= ts
  {
    if h in SeenHours(table, ts) {
      var k :| k in table && table[k].observedAt <= ts && k.hour * HOUR <= ts && k.hour == h;
      TableRowIsAReading(snaps, a, table, k);
      assert k.wallet in TableAt(table, h);
      var r :| InHour(snaps, a, h, r) && r.observedAt == table[k].observedAt && Readable(r);
      assert SeenReadable(snaps, a, ts, h, r);
    }
  }

  /** Where nothing readable comes later, lake and table hold the same of an hour. */
  lemma SameBuckets(snaps: seq<Snapshot>, a: Address, ts: nat, hours: map<nat, Bucket>, table: map<HolderKey, Entry>,
                    h: nat)
    requires AreBuckets(Visible(snaps, ts), a, hours) && IsTable(snaps, a, table) && h in hours
    requires forall s :: InHour(snaps, a, h, s) && s.observedAt > ts ==> !Readable(s)
    ensures hours[h] == TableAt(table, h)
  {
    var x, y := hours[h], TableAt(table, h);
    forall w ensures w in x <==> w in y
             ensures w in x ==> x[w] == y[w] {
      ReadingsVisible(snaps, a, ts, h, w);
      assert BucketHolds(Visible(snaps, ts), a, h, w, x);
      assert BucketHolds(snaps, a, h, w, y);
    }
  }

  /** An hour with a readable snapshot by the decision, and none after it, is read by the table path. */
  lemma ReadableHourIsInTable(snaps: seq<Snapshot>, a: Address, ts: nat, table: map<HolderKey, Entry>, h: nat,
                              r: Snapshot)
    requires IsTable(snaps, a, table) && InHour(snaps, a, h, r) && r.observedAt <= ts && Readable(r)
    requires forall s :: InHour(snaps, a, h, s) && s.observedAt > ts ==> !Readable(s)
    ensures h in TableView(table, ts)
  {
    var acc :| acc in r.accounts && Parses(acc);
    var w := acc.wallet.value;
    SnapshotIsRead(snaps, r, acc);
    assert BucketHolds(snaps, a, h, w, TableAt(table, h));
    RowIsAReading(snaps, a, h, w, TableAt(table, h));
    TableRowIsAReading(snaps, a, table, HolderKey(h, w));
    TableHours(snaps, a, ts, table, h);
    hide *;
  }

  lemma ViewsAt(hours: map<nat, Bucket>, table: map<HolderKey, Entry>, ts: nat, h: nat)
    ensures h in LakeView(hours, ts) ==> h in hours && LakeView(hours, ts)[h] == SharesIn(hours[h])
    ensures h in TableView(table, ts) ==> TableView(table, ts)[h] == SharesIn(TableAt(table, h))
  {
  }

  /** An hour before the decision's own has been observed in full: lake and table agree on it. */
  lemma PastHour(snaps: seq<Snapshot>, a: Address, ts: nat, hours: map<nat, Bucket>, table: map<HolderKey, Entry>,
                 h: nat)
    requires AreBuckets(Visible(snaps, ts), a, hours) && IsTable(snaps, a, table) && h in hours && h != ts / HOUR
    ensures h in TableView(table, ts) <==> ReadBy(snaps, a, ts, h)
    ensures hours[h] == TableAt(table, h)
  {
    LakeHours(snaps, a, ts, hours, h);
    assert forall s :: InHour(snaps, a, h, s) ==> s.observedAt <= ts;
    SameBuckets(snaps, a, ts, hours, table, h);
    TableHours(snaps, a, ts, table, h);
    hide AreBuckets, IsTable, TableView, LakeView, Observed;
    if ReadBy(snaps, a, ts, h) {
      var r :| SeenReadable(snaps, a, ts, h, r);
      ReadableHourIsInTable(snaps, a, ts, table, h, r);
    }
  }

  /** The latest shares of an hour are those in its bucket. */
  lemma BucketShares(snaps: seq<Snapshot>, a: Address, h: nat, w: Wallet, bucket: Bucket)
    requires BucketHolds(snaps, a, h, w, bucket)
    ensures w in SharesIn(bucket) <==> LatestShare(snaps, a, h, w).Some?
    ensures w in SharesIn(bucket) ==> SharesIn(bucket)[w] == LatestShare(snaps, a, h, w).value
    ensures w in bucket ==> Latest(Readings(snaps, a, h, w)) == Some(bucket[w])
  {
  }

  lemma SharesOfHour(snaps: seq<Snapshot>, a: Address, ts: nat, hours: map<nat, Bucket>, table: map<HolderKey, Entry>,
                     h: nat)
    requires AreBuckets(Visible(snaps, ts), a, hours) && IsTable(snaps, a, table) && h in hours
    ensures SharesIn(hours[h]) == SharesIn(TableAt(table, h))
       <==> forall w :: LatestShare(snaps, a, h, w) == LatestShare(Visible(snaps, ts), a, h, w)
  {
    hide *;
    var x, y := SharesIn(hours[h]), SharesIn(TableAt(table, h));
    forall w
      ensures w in x <==> LatestShare(Visible(snaps, ts), a, h, w).Some?
      ensures w in x ==> x[w] == LatestShare(Visible(snaps, ts), a, h, w).value
      ensures w in y <==> LatestShare(snaps, a, h, w).Some?
      ensures w in y ==> y[w] == LatestShare(snaps, a, h, w).value
    {
      SharesOfWallet(snaps, a, ts, hours, table, h, w);
    }
    if x == y {
      forall w ensures LatestShare(snaps, a, h, w) == LatestShare(Visible(snaps, ts), a, h, w) {
        assert w in x <==> w in y;
      }
    }
    if forall w :: LatestShare(snaps, a, h, w) == LatestShare(Visible(snaps, ts), a, h, w) {
      assert x == y;
    }
  }

  lemma SharesOfWallet(snaps: seq<Snapshot>, a: Address, ts: nat, hours: map<nat, Bucket>,
                       table: map<HolderKey, Entry>, h: nat, w: Wallet)
    requires AreBuckets(Visible(snaps, ts), a, hours) && IsTable(snaps, a, table) && h in hours
    ensures var x, y := SharesIn(hours[h]), SharesIn(TableAt(table, h));
            && (w in x <==> LatestShare(Visible(snaps, ts), a, h, w).Some?)
            && (w in x ==> x[w] == LatestShare(Visible(snaps, ts), a, h, w).value)
            && (w in y <==> LatestShare(snaps, a, h, w).Some?)
            && (w in y ==> y[w] == LatestShare(snaps, a, h, w).value)
  {
    assert BucketHolds(Visible(snaps, ts), a, h, w, hours[h]) && BucketHolds(snaps, a, h, w, TableAt(table, h));
    BucketShares(Visible(snaps, ts), a, h, w, hours[h]);
    BucketShares(snaps, a, h, w, TableAt(table, h));
    hide *;
  }

  /** The table path reads an hour exactly when some wallet of it was last read by the decision. */
  lemma TableReadsExactly(snaps: seq<Snapshot>, a: Address, ts: nat, table: map<HolderKey, Entry>, h: nat)
    requires IsTable(snaps, a, table) && h * HOUR <= ts
    ensures h in TableView(table, ts) <==> exists w :: LastReadBy(snaps, a, ts, h, w)
  {
    TableHours(snaps, a, ts, table, h);
    forall w
      ensures w in TableAt(table, h) && TableAt(table, h)[w].observedAt <= ts <==> LastReadBy(snaps, a, ts, h, w)
    {
      assert BucketHolds(snaps, a, h, w, TableAt(table, h));
    }
    hide TableView, TableAt, IsTable, LastReadBy;
  }

  /** One hour in both views. */
  lemma SameHour(snaps: seq<Snapshot>, a: Address, ts: nat, hours: map<nat, Bucket>, table: map<HolderKey, Entry>,
                 h: nat)
    requires AreBuckets(Visible(snaps, ts), a, hours) && IsTable(snaps, a, table)
    requires EachHourIsReadable(snaps, a, ts) && OwnHourReadsTheSame(snaps, a, ts)
    ensures h in LakeView(hours, ts) <==> h in TableView(table, ts)
    ensures h in LakeView(hours, ts) ==> LakeView(hours, ts)[h] == TableView(table, ts)[h]
  {
    hide AreBuckets, IsTable, TableView, LakeView, Observed, ReadBy, LatestShare, LastReadBy, TableAt;
    LakeHours(snaps, a, ts, hours, h);
    TableHours(snaps, a, ts, table, h);
    ReadIsObserved(snaps, a, ts, h);
    ViewsAt(hours, table, ts, h);
    if h in hours {
      if h == ts / HOUR {
        TableReadsExactly(snaps, a, ts, table, h);
        SharesOfHour(snaps, a, ts, hours, table, h);
      } else {
        PastHour(snaps, a, ts, hours, table, h);
      }
    }
  }

  lemma ReadIsObserved(snaps: seq<Snapshot>, a: Address, ts: nat, h: nat)
    ensures ReadBy(snaps, a, ts, h) ==> Observed(snaps, a, ts, h)
  {
  }

  lemma SameViewsMean(snaps: seq<Snapshot>, a: Address, ts: nat, hours: map<nat, Bucket>, table: map<HolderKey, Entry>)
    requires AreBuckets(Visible(snaps, ts), a, hours) && IsTable(snaps, a, table)
    requires LakeView(hours, ts) == TableView(table, ts)
    ensures EachHourIsReadable(snaps, a, ts) && OwnHourReadsTheSame(snaps, a, ts)
  {
    hide AreBuckets, IsTable, TableView, LakeView, Observed, ReadBy, LatestShare, LastReadBy, TableAt;
    forall h | Observed(snaps, a, ts, h) ensures ReadBy(snaps, a, ts, h) {
      LakeHours(snaps, a, ts, hours, h);
      TableHours(snaps, a, ts, table, h);
    }
    var h := ts / HOUR;
    if Observed(snaps, a, ts, h) {
      LakeHours(snaps, a, ts, hours, h);
      ViewsAt(hours, table, ts, h);
      TableReadsExactly(snaps, a, ts, table, h);
      SharesOfHour(snaps, a, ts, hours, table, h);
    }
  }

  /**
    The lake and the table show the decision the same hours with the same wallets and shares if
    and only if each hour with a snapshot has one with an account to count, and in the decision's
    own hour, if observed by then, no later reading changes a share or adds a wallet and some
    wallet is not read again.
  */
  lemma ViewsAgreeExactlyWhen(snaps: seq<Snapshot>, a: Address, ts: nat, hours: map<nat, Bucket>,
                              table: map<HolderKey, Entry>)
    requires AreBuckets(Visible(snaps, ts), a, hours) && IsTable(snaps, a, table)
    ensures LakeView(hours, ts) == TableView(table, ts)
       <==> EachHourIsReadable(snaps, a, ts) && OwnHourReadsTheSame(snaps, a, ts)
  {
    hide *;
    if LakeView(hours, ts) == TableView(table, ts) {
      SameViewsMean(snaps, a, ts, hours, table);
    }
    if EachHourIsReadable(snaps, a, ts) && OwnHourReadsTheSame(snaps, a, ts) {
      forall h ensures h in LakeView(hours, ts) <==> h in TableView(table, ts)
               ensures h in LakeView(hours, ts) ==> LakeView(hours, ts)[h] == TableView(table, ts)[h] {
        SameHour(snaps, a, ts, hours, table, h);
      }
      assert LakeView(hours, ts) == TableView(table, ts);
    }
  }

  /** Then the two read paths give the same holder features. */
  lemma HolderPathsAgree(snaps: seq<Snapshot>, a: Address, ts: nat, hours: map<nat, Bucket>,
                         table: map<HolderKey, Entry>)
    requires AreBuckets(Visible(snaps, ts), a, hours) && IsTable(snaps, a, table)
    requires EachHourIsReadable(snaps, a, ts) && OwnHourReadsTheSame(snaps, a, ts)
    ensures LakePath(hours, ts) == TablePath(table, ts)
  {
    ViewsAgreeExactlyWhen(snaps, a, ts, hours, table);
  }

  // -------------------------------------------------------- exactly when the features agree

  lemma MaxIs(s: set<nat>, m: nat)
    requires m in s && forall x :: x in s ==> x <= m
    ensures MaxOf(s) == m
  {
  }

  /** What the features take from the latest hour, and the count they compare it with. */
  ghost function Head(view: View): Option<(nat, real)> {
    if view.Keys == {} then None else Some((|view[MaxOf(view.Keys)]|, Concentration(view[MaxOf(view.Keys)])))
  }

  ghost function PriorCount(view: View, ts: nat): Option<nat> {
    var prior := Prior(view.Keys, ts);
    if prior == {} then None else Some(|view[MaxOf(prior)]|)
  }

  lemma SummaryParts(u: View, v: View, ts: nat)
    ensures Summary(u, ts) == Summary(v, ts) <==> Head(u) == Head(v) && PriorCount(u, ts) == PriorCount(v, ts)
  {
    hide MaxOf, Concentration;
  }

  /** How the views differ at most: in the decision's own hour, and by the lake's hours without a wallet. */
  ghost predicate Related(lake: View, sql: View, own: nat) {
    && (forall h :: h in lake ==> h <= own)
    && (forall h :: h in sql ==> h in lake && |sql[h]| > 0)
    && (forall h :: h in lake && h != own ==> (h in sql <==> |lake[h]| > 0))
    && (forall h :: h in sql && h != own ==> sql[h] == lake[h])
  }

  /** The latest of the hours has a wallet. */
  ghost predicate LatestHasWallet(view: View, hours: set<nat>)
    requires hours <= view.Keys
  {
    hours != {} ==> |view[MaxOf(hours)]| > 0
  }

  /** Among hours before the own one the paths settle on the same hour if the lake's choice has a wallet. */
  lemma PastChoice(lake: View, sql: View, own: nat, p: set<nat>, q: set<nat>)
    requires Related(lake, sql, own) && p <= lake.Keys && own !in p && q == p * sql.Keys
    ensures p == {} ==> q == {} && LatestHasWallet(lake, p)
    ensures p != {} && LatestHasWallet(lake, p) ==>
              q != {} && MaxOf(q) == MaxOf(p) && sql[MaxOf(p)] == lake[MaxOf(p)]
    ensures p != {} && !LatestHasWallet(lake, p) ==> |lake[MaxOf(p)]| == 0
  {
    hide MaxOf;
    if p != {} {
      var m := MaxOf(p);
      assert m in p && m in lake && m != own;
      if |lake[m]| > 0 {
        assert m in q;
        hide Related;
        MaxIs(q, m);
      }
    }
  }

  lemma PriorAgrees(lake: View, sql: View, ts: nat)
    requires Related(lake, sql, ts / HOUR)
    ensures PriorCount(lake, ts) == PriorCount(sql, ts) <==> LatestHasWallet(lake, Prior(lake.Keys, ts))
  {
    var p, q := Prior(lake.Keys, ts), Prior(sql.Keys, ts);
    assert q == p * sql.Keys;
    PastChoice(lake, sql, ts / HOUR, p, q);
    hide MaxOf, LatestHasWallet;
  }

  /** `g` is the latest hour before the own one in which the lake has a wallet. */
  ghost predicate LatestBefore(lake: View, own: nat, g: nat) {
    && g in lake && g < own && |lake[g]| > 0
    && forall f :: f in lake && g < f < own ==> |lake[f]| == 0
  }

  ghost predicate HeadsMatch(lake: View, sql: View, own: nat) {
    if own !in lake then LatestHasWallet(lake, lake.Keys)
    else if own in sql then |lake[own]| == |sql[own]| && Concentration(lake[own]) == Concentration(sql[own])
    else exists g: nat :: LatestBefore(lake, own, g) && |lake[own]| == |lake[g]|
                     && Concentration(lake[own]) == Concentration(lake[g])
  }

  lemma HeadAgrees(lake: View, sql: View, own: nat)
    requires Related(lake, sql, own)
    ensures Head(lake) == Head(sql) <==> HeadsMatch(lake, sql, own)
  {
    hide Concentration;
    if own !in lake {
      assert sql.Keys == lake.Keys * sql.Keys;
      PastChoice(lake, sql, own, lake.Keys, sql.Keys);
    } else {
      MaxIs(lake.Keys, own);
      if own in sql {
        MaxIs(sql.Keys, own);
      } else {
        EarlierHead(lake, sql, own);
      }
    }
    hide MaxOf, LatestHasWallet;
  }

  /** When the table path passes the own hour over, it reports the latest hour before it that has a wallet. */
  lemma EarlierHead(lake: View, sql: View, own: nat)
    requires Related(lake, sql, own) && own in lake && own !in sql
    ensures forall g: nat :: LatestBefore(lake, own, g) <==> sql.Keys != {} && g == MaxOf(sql.Keys)
    ensures forall g :: g in sql ==> sql[g] == lake[g]
  {
    forall g: nat | LatestBefore(lake, own, g) ensures sql.Keys != {} && g == MaxOf(sql.Keys) {
      assert g in sql.Keys;
      forall f | f in sql.Keys ensures f <= g {
        assert f in lake && |lake[f]| > 0 && f < own;
      }
      MaxIs(sql.Keys, g);
    }
    if sql.Keys != {} {
      var m := MaxOf(sql.Keys);
      assert m in sql && m in lake && m < own;
      forall f | f in lake && m < f < own ensures |lake[f]| == 0 {
        assert f !in sql.Keys;
      }
      assert LatestBefore(lake, own, m);
    }
  }

  lemma HoursAreRelated(snaps: seq<Snapshot>, a: Address, ts: nat, hours: map<nat, Bucket>,
                        table: map<HolderKey, Entry>, h: nat)
    requires AreBuckets(Visible(snaps, ts), a, hours) && IsTable(snaps, a, table)
    ensures var lake, sql, own := LakeView(hours, ts), TableView(table, ts), ts / HOUR;
            && (h in lake <==> Observed(snaps, a, ts, h))
            && (h in lake ==> h <= own && h in hours)
            && (h in lake ==> (|lake[h]| > 0 <==> ReadBy(snaps, a, ts, h)))
            && (h in sql ==> h in lake && |sql[h]| > 0)
            && (h in lake && h != own ==> (h in sql <==> |lake[h]| > 0))
            && (h in sql && h != own ==> sql[h] == lake[h])
  {
    hide AreBuckets, IsTable, TableView, LakeView, Observed, ReadBy, TableAt;
    LakeHours(snaps, a, ts, hours, h);
    TableHours(snaps, a, ts, table, h);
    ReadIsObserved(snaps, a, ts, h);
    ViewsAt(hours, table, ts, h);
    if h in hours {
      BucketHasWallet(snaps, a, ts, hours, h);
      if h != ts / HOUR {
        PastHour(snaps, a, ts, hours, table, h);
      }
    }
  }

  lemma BucketHasWallet(snaps: seq<Snapshot>, a: Address, ts: nat, hours: map<nat, Bucket>, h: nat)
    requires AreBuckets(Visible(snaps, ts), a, hours) && h in hours
    ensures |hours[h]| > 0 <==> ReadBy(snaps, a, ts, h)
  {
    var seen := Visible(snaps, ts);
    if r :| SeenReadable(snaps, a, ts, h, r) {
      var acc :| acc in r.accounts && Parses(acc);
      SnapshotIsRead(seen, r, acc);
      assert BucketHolds(seen, a, h, acc.wallet.value, hours[h]);
      RowIsAReading(seen, a, h, acc.wallet.value, hours[h]);
      assert acc.wallet.value in hours[h].Keys;
    }
    if |hours[h]| > 0 {
      var w :| w in hours[h].Keys;
      assert BucketHolds(seen, a, h, w, hours[h]);
      RowIsAReading(seen, a, h, w, hours[h]);
      ReadingsComeFrom(seen, a, h, w, hours[h][w]);
      var r :| InHour(seen, a, h, r) && r.observedAt == hours[h][w].observedAt && Readable(r);
      assert SeenReadable(snaps, a, ts, h, r);
    }
  }

  ghost predicate IsLatest(snaps: seq<Snapshot>, a: Address, ts: nat, h: nat) {
    Observed(snaps, a, ts, h) && forall g: nat :: Observed(snaps, a, ts, g) ==> g <= h
  }

  /** The latest observed hour that began at least an hour before the decision. */
  ghost predicate IsPrior(snaps: seq<Snapshot>, a: Address, ts: nat, h: nat) {
    && Observed(snaps, a, ts, h) && (h + 1) * HOUR <= ts
    && forall g: nat :: Observed(snaps, a, ts, g) && (g + 1) * HOUR <= ts ==> g <= h
  }

  /** The latest observed hour has an account to count. */
  ghost predicate LatestIsReadable(snaps: seq<Snapshot>, a: Address, ts: nat) {
    forall h: nat :: IsLatest(snaps, a, ts, h) ==> ReadBy(snaps, a, ts, h)
  }

  ghost predicate PriorIsReadable(snaps: seq<Snapshot>, a: Address, ts: nat) {
    forall h: nat :: IsPrior(snaps, a, ts, h) ==> ReadBy(snaps, a, ts, h)
  }

  /** No wallet is first read after the decision in its hour. */
  ghost predicate NoNewWallet(snaps: seq<Snapshot>, a: Address, ts: nat) {
    forall w :: !FirstReadLater(snaps, a, ts, ts / HOUR, w)
  }

  /**
    What has to hold of the hour that is reported: if the decision's own hour is unobserved, the
    latest hour can be counted; if some of its wallets are last read by the decision, no wallet
    is new and the top ten sum to the same; and if all are read again, the table reports an
    earlier hour in its place, which has to have as many wallets and the same sum.
  */
  ghost predicate ReportedHourMatches(snaps: seq<Snapshot>, a: Address, ts: nat, hours: map<nat, Bucket>,
                                      table: map<HolderKey, Entry>)
    requires AreBuckets(Visible(snaps, ts), a, hours)
  {
    var own := ts / HOUR;
    if own !in hours then LatestIsReadable(snaps, a, ts)
    else if exists w :: LastReadBy(snaps, a, ts, own, w) then
      && NoNewWallet(snaps, a, ts)
      && Concentration(SharesIn(hours[own])) == Concentration(SharesIn(TableAt(table, own)))
    else
      exists g: nat ::
        && g in hours && g < own && ReadBy(snaps, a, ts, g)
        && (forall f: nat :: g < f < own ==> !ReadBy(snaps, a, ts, f))
        && |hours[own]| == |hours[g]| && Concentration(SharesIn(hours[own])) == Concentration(SharesIn(hours[g]))
  }

  /** The lake's view in terms of the snapshots. */
  ghost predicate Shows(lake: View, snaps: seq<Snapshot>, a: Address, ts: nat) {
    && (forall h: nat :: h in lake <==> Observed(snaps, a, ts, h))
    && (forall h: nat :: ReadBy(snaps, a, ts, h) <==> h in lake && |lake[h]| > 0)
  }

  lemma ViewsAreRelated(snaps: seq<Snapshot>, a: Address, ts: nat, hours: map<nat, Bucket>,
                        table: map<HolderKey, Entry>)
    requires AreBuckets(Visible(snaps, ts), a, hours) && IsTable(snaps, a, table)
    ensures Related(LakeView(hours, ts), TableView(table, ts), ts / HOUR)
    ensures Shows(LakeView(hours, ts), snaps, a, ts)
  {
    hide AreBuckets, IsTable, TableView, LakeView, Observed, ReadBy, TableAt;
    forall h: nat
      ensures var lake, sql, own := LakeView(hours, ts), TableView(table, ts), ts / HOUR;
              && (h in lake <==> Observed(snaps, a, ts, h))
              && (h in lake ==> h <= own)
              && (ReadBy(snaps, a, ts, h) <==> h in lake && |lake[h]| > 0)
              && (h in sql ==> h in lake && |sql[h]| > 0)
              && (h in lake && h != own ==> (h in sql <==> |lake[h]| > 0))
              && (h in sql && h != own ==> sql[h] == lake[h])
    {
      HoursAreRelated(snaps, a, ts, hours, table, h);
      ReadIsObserved(snaps, a, ts, h);
    }
  }

  lemma LatestMeans(lake: View, snaps: seq<Snapshot>, a: Address, ts: nat)
    requires Shows(lake, snaps, a, ts)
    ensures LatestHasWallet(lake, lake.Keys) <==> LatestIsReadable(snaps, a, ts)
  {
    hide Observed, ReadBy, MaxOf;
    if lake.Keys != {} {
      var m := MaxOf(lake.Keys);
      assert forall h: nat :: IsLatest(snaps, a, ts, h) <==> h == m;
    }
  }

  lemma PriorMeans(lake: View, snaps: seq<Snapshot>, a: Address, ts: nat)
    requires Shows(lake, snaps, a, ts)
    ensures LatestHasWallet(lake, Prior(lake.Keys, ts)) <==> PriorIsReadable(snaps, a, ts)
  {
    hide Observed, ReadBy, MaxOf;
    var prior := Prior(lake.Keys, ts);
    assert forall g: nat :: g in prior <==> Observed(snaps, a, ts, g) && (g + 1) * HOUR <= ts;
    if prior != {} {
      var m := MaxOf(prior);
      assert m in prior;
      assert forall h: nat :: IsPrior(snaps, a, ts, h) <==> h == m;
    } else {
      forall h: nat ensures !IsPrior(snaps, a, ts, h) {
        assert h !in prior;
      }
    }
  }

  /** The table path's earlier hour, in terms of the snapshots. */
  lemma EarlierMeans(lake: View, snaps: seq<Snapshot>, a: Address, ts: nat, own: nat, g: nat)
    requires Shows(lake, snaps, a, ts)
    ensures LatestBefore(lake, own, g)
       <==> g in lake && g < own && ReadBy(snaps, a, ts, g) && forall f: nat :: g < f < own ==> !ReadBy(snaps, a, ts, f)
  {
    hide Observed, ReadBy;
  }

  /** The two views of the own hour have equally many wallets exactly when none is new. */
  lemma OwnCountsMean(snaps: seq<Snapshot>, a: Address, ts: nat, hours: map<nat, Bucket>, table: map<HolderKey, Entry>)
    requires AreBuckets(Visible(snaps, ts), a, hours) && IsTable(snaps, a, table) && ts / HOUR in hours
    ensures |hours[ts / HOUR]| == |TableAt(table, ts / HOUR)| <==> NoNewWallet(snaps, a, ts)
  {
    hide AreBuckets, IsTable, TableAt, FirstReadLater;
    OwnHourCounts(snaps, a, ts, hours, table, ts / HOUR);
  }

  lemma HeadMeans(snaps: seq<Snapshot>, a: Address, ts: nat, hours: map<nat, Bucket>, table: map<HolderKey, Entry>)
    requires AreBuckets(Visible(snaps, ts), a, hours) && IsTable(snaps, a, table)
    ensures HeadsMatch(LakeView(hours, ts), TableView(table, ts), ts / HOUR)
       <==> ReportedHourMatches(snaps, a, ts, hours, table)
  {
    hide AreBuckets, IsTable, TableView, LakeView, Observed, ReadBy, LastReadBy, NoNewWallet, LatestIsReadable,
         LatestHasWallet, LatestBefore, Related, Shows, Concentration, TableAt, Visible, SharesIn;
    var lake, sql, own := LakeView(hours, ts), TableView(table, ts), ts / HOUR;
    ViewsAreRelated(snaps, a, ts, hours, table);
    LakeHours(snaps, a, ts, hours, own);
    forall h: nat
      ensures h in lake ==> h in hours && lake[h] == SharesIn(hours[h]) && |lake[h]| == |hours[h]|
      ensures h in sql ==> sql[h] == SharesIn(TableAt(table, h)) && |sql[h]| == |TableAt(table, h)|
      ensures h in lake <==> h in hours
    {
      ViewsAt(hours, table, ts, h);
      LakeHours(snaps, a, ts, hours, h);
    }
    if own !in hours {
      LatestMeans(lake, snaps, a, ts);
    } else {
      TableReadsExactly(snaps, a, ts, table, own);
      OwnCountsMean(snaps, a, ts, hours, table);
      forall g: nat ensures LatestBefore(lake, own, g)
        <==> g in lake && g < own && ReadBy(snaps, a, ts, g)
             && forall f: nat :: g < f < own ==> !ReadBy(snaps, a, ts, f)
      {
        EarlierMeans(lake, snaps, a, ts, own, g);
      }
    }
  }

  /**
    The two read paths give the same holder features if and only if the latest hour that began
    an hour before the decision can be counted and the hour that is reported matches.
  */
  lemma HolderPathsAgreeExactlyWhen(snaps: seq<Snapshot>, a: Address, ts: nat, hours: map<nat, Bucket>,
                                    table: map<HolderKey, Entry>)
    requires AreBuckets(Visible(snaps, ts), a, hours) && IsTable(snaps, a, table)
    ensures LakePath(hours, ts) == TablePath(table, ts)
       <==> PriorIsReadable(snaps, a, ts) && ReportedHourMatches(snaps, a, ts, hours, table)
  {
    hide AreBuckets, IsTable, TableView, LakeView, Summary, Head, PriorCount, HeadsMatch, ReportedHourMatches,
         LatestHasWallet, Related, Shows, PriorIsReadable;
    var lake, sql := LakeView(hours, ts), TableView(table, ts);
    ViewsAreRelated(snaps, a, ts, hours, table);
    SummaryParts(lake, sql, ts);
    PriorAgrees(lake, sql, ts);
    PriorMeans(lake, snaps, a, ts);
    HeadAgrees(lake, sql, ts / HOUR);
    HeadMeans(snaps, a, ts, hours, table);
  }

  /** Without an account to count, the lake reports an hour with no holders where the table reports nothing. */
  lemma EmptySnapshotSplitsThePaths(s: Snapshot, ts: nat, hours: map<nat, Bucket>, table: map<HolderKey, Entry>)
    requires s.observedAt <= ts && forall acc :: acc in s.accounts ==> !Parses(acc)
    requires AreBuckets(Visible([s], ts), s.mint, hours) && IsTable([s], s.mint, table)
    ensures LakePath(hours, ts).Holders? && TablePath(table, ts) == NoHolders
  {
    assert s in Visible([s], ts);
    assert s.observedAt / HOUR in hours;
    assert s.observedAt / HOUR in (map h | h in hours && h * HOUR <= ts :: hours[h]);
    forall k ensures k !in table {
      NothingParsed(s, s.accounts, k.wallet);
      assert [s][..0] == [];
      assert Readings([s], s.mint, k.hour, k.wallet) == [];
      assert BucketHolds([s], s.mint, k.hour, k.wallet, TableAt(table, k.hour));
      assert k in table ==> k.wallet in TableAt(table, k.hour);
    }
  }

  lemma {:induction false} NothingParsed(s: Snapshot, accounts: seq<Account>, w: Wallet)
    requires forall acc :: acc in accounts ==> !Parses(acc)
    ensures ReadingsIn(s, accounts, w) == []
  {
    if accounts != [] {
      var init := accounts[..|accounts| - 1];
      assert accounts == init + [accounts[|accounts| - 1]];
      NothingParsed(s, init, w);
    }
  }

  /** The decision's hour is the latest one of either view that has it. */
  lemma OwnHourIsLatest(view: View, ts: nat)
    requires ts / HOUR in view && forall h :: h in view ==> h * HOUR <= ts
    ensures Summary(view, ts).Holders? && Summary(view, ts).count == |view[ts / HOUR]|
  {
    hide MaxOf, Concentration, Prior;
    assert MaxOf(view.Keys) <= ts / HOUR;
  }

  lemma SubsetSize(x: Bucket, y: Bucket)
    requires forall w :: w in x ==> w in y
    ensures |x| <= |y| && (|x| == |y| <==> forall w :: w in y ==> w in x)
  {
    assert |y.Keys - x.Keys| == |y.Keys| - |x.Keys| by {
      assert y.Keys == x.Keys + (y.Keys - x.Keys);
    }
    assert |x| == |x.Keys| && |y| == |y.Keys|;
    if |x| == |y| {
      assert y.Keys - x.Keys == {};
      assert forall w :: w in y.Keys ==> w !in y.Keys - x.Keys;
    } else {
      assert y.Keys - x.Keys != {};
      var w :| w in y.Keys - x.Keys;
      assert w in y && w !in x;
    }
  }

  /**
    While both paths read the decision's hour, the table's count is the greater one: it is
    larger exactly when some wallet is first read after the decision in that hour.
  */
  lemma LaterWalletsRaiseTheCount(snaps: seq<Snapshot>, a: Address, ts: nat, hours: map<nat, Bucket>,
                                  table: map<HolderKey, Entry>)
    requires AreBuckets(Visible(snaps, ts), a, hours) && IsTable(snaps, a, table)
    requires ts / HOUR in LakeView(hours, ts) && ts / HOUR in TableView(table, ts)
    ensures var lake, sql := LakePath(hours, ts), TablePath(table, ts);
            && lake.Holders? && sql.Holders? && lake.count <= sql.count
            && (lake.count < sql.count <==> exists w :: FirstReadLater(snaps, a, ts, ts / HOUR, w))
  {
    hide Summary, FirstReadLater, AreBuckets, IsTable, TableAt, Visible;
    LakeHours(snaps, a, ts, hours, ts / HOUR);
    OwnHourIsLatest(LakeView(hours, ts), ts);
    OwnHourIsLatest(TableView(table, ts), ts);
    OwnHourCounts(snaps, a, ts, hours, table, ts / HOUR);
  }

  lemma OwnHourCounts(snaps: seq<Snapshot>, a: Address, ts: nat, hours: map<nat, Bucket>, table: map<HolderKey, Entry>,
                      h: nat)
    requires AreBuckets(Visible(snaps, ts), a, hours) && IsTable(snaps, a, table) && h in hours
    ensures |hours[h]| <= |TableAt(table, h)|
    ensures |hours[h]| < |TableAt(table, h)| <==> exists w :: FirstReadLater(snaps, a, ts, h, w)
  {
    hide *;
    var x, y := hours[h], TableAt(table, h);
    forall w ensures w in x ==> w in y
             ensures FirstReadLater(snaps, a, ts, h, w) <==> w in y && w !in x {
      OwnHourHolds(snaps, a, ts, hours, table, h, w);
    }
    SubsetSize(x, y);
    if |x| < |y| {
      var w :| w in y && w !in x;
      assert FirstReadLater(snaps, a, ts, h, w);
    }
    if w :| FirstReadLater(snaps, a, ts, h, w) {
      assert w in y && w !in x;
    }
  }

  lemma OwnHourHolds(snaps: seq<Snapshot>, a: Address, ts: nat, hours: map<nat, Bucket>, table: map<HolderKey, Entry>,
                     h: nat, w: Wallet)
    requires AreBuckets(Visible(snaps, ts), a, hours) && IsTable(snaps, a, table) && h in hours
    ensures w in hours[h] ==> w in TableAt(table, h)
    ensures FirstReadLater(snaps, a, ts, h, w) <==> w in TableAt(table, h) && w !in hours[h]
  {
    assert BucketHolds(Visible(snaps, ts), a, h, w, hours[h]) && BucketHolds(snaps, a, h, w, TableAt(table, h));
    RowIsAReading(Visible(snaps, ts), a, h, w, hours[h]);
    RowIsAReading(snaps, a, h, w, TableAt(table, h));
    VisibleReadingsRemain(snaps, a, ts, h, w);
  }

  lemma {:induction false} VisibleReadingsRemain(snaps: seq<Snapshot>, a: Address, ts: nat, h: nat, w: Wallet)
    ensures forall e :: e in Readings(Visible(snaps, ts), a, h, w) ==> e in Readings(snaps, a, h, w)
  {
    if snaps != [] {
      var init := snaps[..|snaps| - 1];
      var last := snaps[|snaps| - 1];
      VisibleReadingsRemain(init, a, ts, h, w);
      if last.observedAt <= ts {
        OneMoreReading(Visible(init, ts), last, a, h, w);
      } else {
        assert Visible(snaps, ts) == Visible(init, ts);
      }
    }
  }

  /**
    When every wallet that the lake shows in the decision's hour is read again later in that
    hour, the table path passes the hour over; if there is no earlier one, it finds no holders.
  */
  lemma ReReadHourIsPassedOver(snaps: seq<Snapshot>, a: Address, ts: nat, hours: map<nat, Bucket>,
                               table: map<HolderKey, Entry>)
    requires AreBuckets(Visible(snaps, ts), a, hours) && IsTable(snaps, a, table) && ts / HOUR in LakeView(hours, ts)
    requires forall w :: w in hours[ts / HOUR] ==>
               exists e :: e in Readings(snaps, a, ts / HOUR, w) && e.observedAt > ts
    ensures ts / HOUR !in TableView(table, ts) && LakePath(hours, ts).Holders?
    ensures hours.Keys == {ts / HOUR} ==> TablePath(table, ts) == NoHolders
  {
    var h := ts / HOUR;
    OwnHourIsLatest(LakeView(hours, ts), ts);
    forall k | k in table && k.hour == h ensures table[k].observedAt > ts {
      NotSeenByThen(snaps, a, ts, hours, table, k);
    }
    if hours.Keys == {h} {
      forall g ensures g !in TableView(table, ts) {
        TableHours(snaps, a, ts, table, g);
        LakeHours(snaps, a, ts, hours, g);
      }
      assert TableView(table, ts).Keys == {};
    }
  }

  lemma NotSeenByThen(snaps: seq<Snapshot>, a: Address, ts: nat, hours: map<nat, Bucket>, table: map<HolderKey, Entry>,
                      k: HolderKey)
    requires AreBuckets(Visible(snaps, ts), a, hours) && IsTable(snaps, a, table) && k in table && k.hour in hours
    requires forall w :: w in hours[k.hour] ==> exists e :: e in Readings(snaps, a, k.hour, w) && e.observedAt > ts
    ensures table[k].observedAt > ts
  {
    var h, w := k.hour, k.wallet;
    assert HolderKey(h, w) == k;
    assert BucketHolds(snaps, a, h, w, TableAt(table, h));
    assert BucketHolds(Visible(snaps, ts), a, h, w, hours[h]);
    RowIsAReading(snaps, a, h, w, TableAt(table, h));
    RowIsAReading(Visible(snaps, ts), a, h, w, hours[h]);
    if w !in hours[h] && table[k].observedAt <= ts {
      EarlyReadingIsVisible(snaps, a, ts, h, w, table[k]);
    }
  }

  lemma {:induction false} EarlyReadingIsVisible(snaps: seq<Snapshot>, a: Address, ts: nat, h: nat, w: Wallet, e: Entry)
    requires e in Readings(snaps, a, h, w) && e.observedAt <= ts
    ensures e in Readings(Visible(snaps, ts), a, h, w)
  {
    var init := snaps[..|snaps| - 1];
    var last := snaps[|snaps| - 1];
    ReadingsInAt(last, last.accounts, w);
    if last.observedAt <= ts {
      OneMoreReading(Visible(init, ts), last, a, h, w);
    } else {
      assert Visible(snaps, ts) == Visible(init, ts);
    }
    if e in Readings(init, a, h, w) {
      EarlyReadingIsVisible(init, a, ts, h, w, e);
    }
  }
}
