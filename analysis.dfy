/**
 * The analyze stage (`analyze_data`): group the cleaned rows by the pair
 * (`Month`, `Product`), aggregate `Sales` and `Revenue` in each group, and
 * flatten the result into one plain row per group.
 */
module Analysis {

  import opened Wrappers
  import opened Text
  import opened Frames

  /** The four fields of a cleaned row that the group-by reads. */
  datatype Record = Record(month: string, product: string, sales: int, revenue: int)

  /** A group key: the pair (`Month`, `Product`). */
  datatype Key = Key(month: string, product: string)

  function KeyOf(r: Record): Key { Key(r.month, r.product) }

  function SalesOf(r: Record): int { r.sales }

  function RevenueOf(r: Record): int { r.revenue }

  function One(r: Record): int { 1 }

  /** The distinct keys present in some records. */
  function KeySet(recs: seq<Record>): set<Key>
  {
    set r | r in recs :: KeyOf(r)
  }

  function ToRecord(r: CleanRow): Record
    requires r.product.Some?
  {
    Record(r.month, r.product.value, r.sales, r.revenue)
  }

  /** The cleaned rows as the group-by sees them, in the same order. */
  function Records(rows: seq<CleanRow>): (recs: seq<Record>)
    requires forall r :: r in rows ==> r.product.Some?
    ensures |recs| == |rows|
    ensures forall i :: 0 <= i < |rows| ==> recs[i] == ToRecord(rows[i])
  {
    if rows == [] then [] else [ToRecord(rows[0])] + Records(rows[1..])
  }

  // ---------------------------------------------------------------------
  // Sorted distinct keys (groupby sorts its keys by default).
  // ---------------------------------------------------------------------

  /** Tuples of strings compare by `Month` first, then by `Product`. */
  predicate KeyLess(a: Key, b: Key)
  {
    StrLess(a.month, b.month) || (a.month == b.month && StrLess(a.product, b.product))
  }

  lemma KeyLessIrreflexive(a: Key)
    ensures !KeyLess(a, a)
  {
    StrLessIrreflexive(a.month);
    StrLessIrreflexive(a.product);
  }

  lemma KeyLessTransitive(a: Key, b: Key, c: Key)
    requires KeyLess(a, b) && KeyLess(b, c)
    ensures KeyLess(a, c)
  {
    if StrLess(a.month, b.month) && StrLess(b.month, c.month) {
      StrLessTransitive(a.month, b.month, c.month);
    } else if a.month == b.month && b.month == c.month {
      StrLessTransitive(a.product, b.product, c.product);
    }
  }

  lemma KeyLessTotal(a: Key, b: Key)
    ensures a == b || KeyLess(a, b) || KeyLess(b, a)
  {
    StrLessTotal(a.month, b.month);
    StrLessTotal(a.product, b.product);
  }

  predicate StrictlySorted(ks: seq<Key>)
  {
    forall i, j :: 0 <= i < j < |ks| ==> KeyLess(ks[i], ks[j])
  }

  predicate Distinct(ks: seq<Key>)
  {
    forall i, j :: 0 <= i < j < |ks| ==> ks[i] != ks[j]
  }

  lemma SortedDistinct(ks: seq<Key>)
    requires StrictlySorted(ks)
    ensures Distinct(ks)
  {
    forall i, j | 0 <= i < j < |ks| ensures ks[i] != ks[j] {
      KeyLessIrreflexive(ks[i]);
    }
  }

  /** Adds a key to a sorted key list unless it is already there. */
  function Insert(k: Key, ks: seq<Key>): (r: seq<Key>)
    requires StrictlySorted(ks)
    ensures StrictlySorted(r)
    ensures forall x :: x in r <==> x == k || x in ks
  {
    if ks == [] then [k]
    else if k == ks[0] then ks
    else if KeyLess(k, ks[0]) then
      InsertFrontSorted(k, ks);
      [k] + ks
    else
      var rest := Insert(k, ks[1..]);
      InsertAfterSorted(k, ks, rest);
      [ks[0]] + rest
  }

  lemma InsertFrontSorted(k: Key, ks: seq<Key>)
    requires StrictlySorted(ks) && ks != [] && KeyLess(k, ks[0])
    ensures StrictlySorted([k] + ks)
  {
    forall j | 0 < j < |ks| ensures KeyLess(k, ks[j]) {
      KeyLessTransitive(k, ks[0], ks[j]);
    }
  }

  lemma InsertAfterSorted(k: Key, ks: seq<Key>, rest: seq<Key>)
    requires StrictlySorted(ks) && ks != [] && k != ks[0] && !KeyLess(k, ks[0])
    requires StrictlySorted(rest)
    requires forall x :: x in rest <==> x == k || x in ks[1..]
    ensures StrictlySorted([ks[0]] + rest)
  {
    KeyLessTotal(k, ks[0]);
    forall j | 0 <= j < |rest| ensures KeyLess(ks[0], rest[j]) {
      assert rest[j] in rest;
    }
    var r := [ks[0]] + rest;
    forall i, j | 0 <= i < j < |r| ensures KeyLess(r[i], r[j]) {
      if i > 0 {
        assert r[i] == rest[i - 1] && r[j] == rest[j - 1];
      }
    }
  }

  /** The group keys of some records, sorted and without repetition. */
  function GroupKeys(recs: seq<Record>): (ks: seq<Key>)
    ensures StrictlySorted(ks)
    ensures forall k :: k in ks <==> k in KeySet(recs)
  {
    if recs == [] then []
    else
      assert forall k :: k in KeySet(recs) <==> k == KeyOf(recs[0]) || k in KeySet(recs[1..]) by {
        assert recs == [recs[0]] + recs[1..];
      }
      Insert(KeyOf(recs[0]), GroupKeys(recs[1..]))
  }

  /** A list of distinct keys has as many elements as the set it enumerates. */
  lemma {:induction false} DistinctCardinality(ks: seq<Key>, s: set<Key>)
    requires Distinct(ks)
    requires forall k :: k in ks <==> k in s
    ensures |ks| == |s|
  {
    if ks != [] {
      var rest := ks[1..];
      assert forall k :: k in rest <==> k in s - {ks[0]} by {
        forall k ensures k in rest <==> k in s - {ks[0]} {
          if k in rest {
            var j :| 0 <= j < |rest| && rest[j] == k;
            assert ks[j + 1] == k;
          }
          if k in s - {ks[0]} {
            assert k in ks;
            var j :| 0 <= j < |ks| && ks[j] == k;
            assert j != 0;
            assert rest[j - 1] == k;
          }
        }
      }
      DistinctCardinality(rest, s - {ks[0]});
    }
  }

  // ---------------------------------------------------------------------
  // Groups and their aggregates.
  // ---------------------------------------------------------------------

  /** The records of one group, in their original order. */
  function Members(recs: seq<Record>, k: Key): (g: seq<Record>)
    ensures |g| <= |recs|
    ensures forall r :: r in g <==> r in recs && KeyOf(r) == k
  {
    if recs == [] then []
    else (if KeyOf(recs[0]) == k then [recs[0]] else []) + Members(recs[1..], k)
  }

  function SumBy(recs: seq<Record>, f: Record -> int): int
  {
    if recs == [] then 0 else f(recs[0]) + SumBy(recs[1..], f)
  }

  lemma {:induction false} SumByOneIsCount(recs: seq<Record>)
    ensures SumBy(recs, One) == |recs|
  {
    if recs != [] {
      SumByOneIsCount(recs[1..]);
    }
  }

  function Mean(sum: int, count: nat): real
    requires count > 0
  {
    sum as real / count as real
  }

  /** One flattened output row: `Month`, `Product`, `Sales_sum`,
    * `Sales_mean`, `Revenue_sum`, `Revenue_mean`. */
  datatype Aggregate = Aggregate(
    month: string, product: string,
    salesSum: int, salesMean: real, revenueSum: int, revenueMean: real)

  function AggregateKey(a: Aggregate): Key { Key(a.month, a.product) }

  function Aggregated(recs: seq<Record>, k: Key): Aggregate
    requires k in KeySet(recs)
  {
    MembersNonEmpty(recs, k);
    var g := Members(recs, k);
    Aggregate(k.month, k.product,
              SumBy(g, SalesOf), Mean(SumBy(g, SalesOf), |g|),
              SumBy(g, RevenueOf), Mean(SumBy(g, RevenueOf), |g|))
  }

  lemma MembersNonEmpty(recs: seq<Record>, k: Key)
    requires k in KeySet(recs)
    ensures |Members(recs, k)| > 0
  {
    var r :| r in recs && KeyOf(r) == k;
    assert r in Members(recs, k);
  }

  function Aggregates(recs: seq<Record>, ks: seq<Key>): (rows: seq<Aggregate>)
    requires forall k :: k in ks ==> k in KeySet(recs)
    ensures |rows| == |ks|
    ensures forall i :: 0 <= i < |ks| ==> AggregateKey(rows[i]) == ks[i]
  {
    if ks == [] then [] else [Aggregated(recs, ks[0])] + Aggregates(recs, ks[1..])
  }

  /** `analyze_data`: the group-by fails when the table has no `Product` column. */
  function Analyze(c: CleanFrame): Result<seq<Aggregate>, Cause>
  {
    if ProductCol !in c.columns then Err(MissingColumn(ProductCol))
    else
      var recs := Records(c.rows);
      Ok(Aggregates(recs, GroupKeys(recs)))
  }

  /** The records of a cleaned table that has a `Product` column. */
  function RecordsOf(c: CleanFrame): seq<Record>
    requires ProductCol in c.columns
  {
    Records(c.rows)
  }

  /** `analysis['Sales_sum'].sum()` */
  function SalesSumTotal(rows: seq<Aggregate>): int
  {
    if rows == [] then 0 else rows[0].salesSum + SalesSumTotal(rows[1..])
  }

  /** `analysis['Revenue_sum'].sum()` */
  function RevenueSumTotal(rows: seq<Aggregate>): int
  {
    if rows == [] then 0 else rows[0].revenueSum + RevenueSumTotal(rows[1..])
  }

  // ---------------------------------------------------------------------
  // Properties of the analyze stage.
  // ---------------------------------------------------------------------

  /** The sum of `f` within each group, added up over the keys `ks`. */
  function GroupTotal(recs: seq<Record>, ks: seq<Key>, f: Record -> int): int
  {
    if ks == [] then 0 else SumBy(Members(recs, ks[0]), f) + GroupTotal(recs, ks[1..], f)
  }

  lemma {:induction false} GroupTotalSplit(r: Record, rest: seq<Record>, ks: seq<Key>, f: Record -> int)
    requires Distinct(ks)
    ensures GroupTotal([r] + rest, ks, f) == (if KeyOf(r) in ks then f(r) else 0) + GroupTotal(rest, ks, f)
  {
    if ks != [] {
      var recs := [r] + rest;
      assert recs[1..] == rest;
      var here := if KeyOf(r) == ks[0] then [r] else [];
      assert Members(recs, ks[0]) == here + Members(rest, ks[0]);
      assert SumBy(Members(recs, ks[0]), f) == (if KeyOf(r) == ks[0] then f(r) else 0) + SumBy(Members(rest, ks[0]), f) by {
        if here == [] {
          assert here + Members(rest, ks[0]) == Members(rest, ks[0]);
        } else {
          assert (here + Members(rest, ks[0]))[1..] == Members(rest, ks[0]);
        }
      }
      assert Distinct(ks[1..]);
      GroupTotalSplit(r, rest, ks[1..], f);
      if KeyOf(r) == ks[0] {
        assert KeyOf(r) !in ks[1..];
      } else {
        assert KeyOf(r) in ks <==> KeyOf(r) in ks[1..];
      }
    }
  }

  /** Each record falls in exactly one group, so the per-group sums add up
    * to the sum over all records. */
  lemma {:induction false} GroupTotalNoRecords(ks: seq<Key>, f: Record -> int)
    ensures GroupTotal([], ks, f) == 0
  {
    if ks != [] {
      GroupTotalNoRecords(ks[1..], f);
    }
  }

  lemma {:induction false} GroupTotalIsTotal(recs: seq<Record>, ks: seq<Key>, f: Record -> int)
    requires Distinct(ks)
    requires forall r :: r in recs ==> KeyOf(r) in ks
    ensures GroupTotal(recs, ks, f) == SumBy(recs, f)
  {
    if recs == [] {
      GroupTotalNoRecords(ks, f);
    } else {
      var r, rest := recs[0], recs[1..];
      assert recs == [r] + rest;
      assert r in recs;
      GroupTotalSplit(r, rest, ks, f);
      GroupTotalIsTotal(rest, ks, f);
      calc {
        GroupTotal(recs, ks, f);
        GroupTotal([r] + rest, ks, f);
        f(r) + GroupTotal(rest, ks, f);
        f(r) + SumBy(rest, f);
        SumBy(recs, f);
      }
    }
  }

  lemma {:induction false} AggregatesTotals(recs: seq<Record>, ks: seq<Key>)
    requires forall k :: k in ks ==> k in KeySet(recs)
    ensures SalesSumTotal(Aggregates(recs, ks)) == GroupTotal(recs, ks, SalesOf)
    ensures RevenueSumTotal(Aggregates(recs, ks)) == GroupTotal(recs, ks, RevenueOf)
  {
    if ks != [] {
      var rows := Aggregates(recs, ks);
      assert rows[1..] == Aggregates(recs, ks[1..]);
      AggregatesTotals(recs, ks[1..]);
    }
  }

  lemma {:induction false} AggregatesAt(recs: seq<Record>, ks: seq<Key>, i: nat)
    requires forall k :: k in ks ==> k in KeySet(recs)
    requires i < |ks|
    ensures Aggregates(recs, ks)[i] == Aggregated(recs, ks[i])
  {
    if i > 0 {
      AggregatesAt(recs, ks[1..], i - 1);
    }
  }

  /** `analyze_data` fails exactly when the cleaned table has no `Product` column. */
  lemma AnalyzeFailure(c: CleanFrame)
    ensures Analyze(c).Err? <==> ProductCol !in c.columns
    ensures Analyze(c).Err? ==> Analyze(c).error == MissingColumn(ProductCol)
  {
  }

  /**
   * One output row per distinct (`Month`, `Product`) pair of the cleaned
   * table, in ascending key order, each carrying its key as plain columns.
   */
  lemma AnalyzeGroups(c: CleanFrame)
    requires ProductCol in c.columns
    ensures var rows, recs := Analyze(c).value, RecordsOf(c);
      && |rows| == |KeySet(recs)|
      && (forall i :: 0 <= i < |rows| ==> AggregateKey(rows[i]) in KeySet(recs))
      && (forall k :: k in KeySet(recs) ==> exists i :: 0 <= i < |rows| && AggregateKey(rows[i]) == k)
      && (forall i, j :: 0 <= i < j < |rows| ==> KeyLess(AggregateKey(rows[i]), AggregateKey(rows[j])))
  {
    var recs := RecordsOf(c);
    var ks := GroupKeys(recs);
    var rows := Analyze(c).value;
    SortedDistinct(ks);
    DistinctCardinality(ks, KeySet(recs));
    forall k | k in KeySet(recs) ensures exists i :: 0 <= i < |rows| && AggregateKey(rows[i]) == k {
      var i :| 0 <= i < |ks| && ks[i] == k;
      assert AggregateKey(rows[i]) == k;
    }
  }

  /**
   * Each output row aggregates exactly the cleaned rows with its key: its
   * `Sales_sum` and `Revenue_sum` are their sums, the group is not empty,
   * and each mean times the group size is the matching sum.
   */
  lemma AnalyzeGroupValues(c: CleanFrame, i: nat)
    requires ProductCol in c.columns
    requires i < |Analyze(c).value|
    ensures var row, recs := Analyze(c).value[i], RecordsOf(c);
            var g := Members(recs, AggregateKey(row));
      && |g| > 0
      && (forall r :: r in g <==> r in recs && KeyOf(r) == AggregateKey(row))
      && row.salesSum == SumBy(g, SalesOf)
      && row.revenueSum == SumBy(g, RevenueOf)
      && IsMeanOf(row.salesMean, row.salesSum as real, |g|)
      && IsMeanOf(row.revenueMean, row.revenueSum as real, |g|)
  {
    var recs := RecordsOf(c);
    var ks := GroupKeys(recs);
    AggregatesAt(recs, ks, i);
    assert ks[i] in ks;
    AggregatedValues(recs, ks[i]);
  }

  lemma AggregatedValues(recs: seq<Record>, k: Key)
    requires k in KeySet(recs)
    ensures var row, g := Aggregated(recs, k), Members(recs, k);
      && AggregateKey(row) == k
      && |g| > 0
      && row.salesSum == SumBy(g, SalesOf)
      && row.revenueSum == SumBy(g, RevenueOf)
      && IsMeanOf(row.salesMean, row.salesSum as real, |g|)
      && IsMeanOf(row.revenueMean, row.revenueSum as real, |g|)
  {
    var g := Members(recs, k);
    MembersNonEmpty(recs, k);
    var n := |g|;
    var sales, revenue := SumBy(g, SalesOf), SumBy(g, RevenueOf);
    var row := Aggregated(recs, k);
    assert row.salesSum == sales && row.salesMean == Mean(sales, n);
    assert row.revenueSum == revenue && row.revenueMean == Mean(revenue, n);
    MeanTimesCount(sales, n);
    MeanTimesCount(revenue, n);
  }

  /** `mean` is the average of `count` values that add up to `sum`. */
  predicate IsMeanOf(mean: real, sum: real, count: nat)
  {
    mean * count as real == sum
  }

  lemma MeanTimesCount(sum: int, count: nat)
    requires count > 0
    ensures IsMeanOf(Mean(sum, count), sum as real, count)
  {
  }

  /**
   * The groups partition the cleaned rows: the group sizes add up to the
   * row count, and adding `Sales_sum` (or `Revenue_sum`) over all groups
   * gives the total `Sales` (or `Revenue`) of the cleaned table.
   */
  lemma AnalyzeSumsAddUp(c: CleanFrame)
    requires ProductCol in c.columns
    ensures var rows, recs := Analyze(c).value, RecordsOf(c);
      && GroupTotal(recs, GroupKeys(recs), One) == |c.rows|
      && SalesSumTotal(rows) == SumBy(recs, SalesOf)
      && RevenueSumTotal(rows) == SumBy(recs, RevenueOf)
  {
    var recs := RecordsOf(c);
    var ks := GroupKeys(recs);
    SortedDistinct(ks);
    assert forall r :: r in recs ==> KeyOf(r) in ks;
    GroupTotalIsTotal(recs, ks, One);
    SumByOneIsCount(recs);
    GroupTotalIsTotal(recs, ks, SalesOf);
    GroupTotalIsTotal(recs, ks, RevenueOf);
    AggregatesTotals(recs, ks);
  }

  /** The analysis names exactly the products that occur in the cleaned table. */
  lemma AnalyzeProducts(c: CleanFrame)
    requires ProductCol in c.columns
    ensures (set a | a in Analyze(c).value :: a.product) == (set r | r in RecordsOf(c) :: r.product)
  {
    AnalyzeGroups(c);
    AnalyzedProductsSold(c);
    SoldProductsAnalyzed(c);
  }

  lemma AnalyzedProductsSold(c: CleanFrame)
    requires ProductCol in c.columns
    requires forall i :: 0 <= i < |Analyze(c).value| ==> AggregateKey(Analyze(c).value[i]) in KeySet(RecordsOf(c))
    ensures forall a :: a in Analyze(c).value ==> exists r :: r in RecordsOf(c) && r.product == a.product
  {
    var rows, recs := Analyze(c).value, RecordsOf(c);
    forall a | a in rows
      ensures exists r :: r in recs && r.product == a.product
    {
      var i :| 0 <= i < |rows| && rows[i] == a;
      assert AggregateKey(rows[i]) in KeySet(recs);
      var r :| r in recs && KeyOf(r) == AggregateKey(rows[i]);
    }
  }

  lemma SoldProductsAnalyzed(c: CleanFrame)
    requires ProductCol in c.columns
    requires forall k :: k in KeySet(RecordsOf(c)) ==>
               exists i :: 0 <= i < |Analyze(c).value| && AggregateKey(Analyze(c).value[i]) == k
    ensures forall r :: r in RecordsOf(c) ==> exists a :: a in Analyze(c).value && a.product == r.product
  {
    var rows, recs := Analyze(c).value, RecordsOf(c);
    forall r | r in recs
      ensures exists a :: a in rows && a.product == r.product
    {
      assert KeyOf(r) in KeySet(recs);
      var i :| 0 <= i < |rows| && AggregateKey(rows[i]) == KeyOf(r);
      assert rows[i] in rows;
    }
  }


  // ---------------------------------------------------------------------
  // Only the revenue columns depend on the random draw.
  // ---------------------------------------------------------------------

  /** Two record lists that agree everywhere except possibly in `Revenue`. */
  predicate SameButRevenue(r1: seq<Record>, r2: seq<Record>)
  {
    |r1| == |r2| && forall i :: 0 <= i < |r1| ==> r1[i].(revenue := 0) == r2[i].(revenue := 0)
  }

  lemma SameButRevenueSplit(r1: seq<Record>, r2: seq<Record>)
    requires SameButRevenue(r1, r2) && r1 != []
    ensures KeyOf(r1[0]) == KeyOf(r2[0]) && r1[0].sales == r2[0].sales
    ensures SameButRevenue(r1[1..], r2[1..])
  {
    assert r1[0].(revenue := 0) == r2[0].(revenue := 0);
    forall i | 0 <= i < |r1| - 1
      ensures r1[1..][i].(revenue := 0) == r2[1..][i].(revenue := 0)
    {
      assert r1[1..][i] == r1[i + 1] && r2[1..][i] == r2[i + 1];
    }
  }

  /** The group keys do not depend on `Revenue`. */
  lemma {:induction false} GroupKeysIgnoreRevenue(r1: seq<Record>, r2: seq<Record>)
    requires SameButRevenue(r1, r2)
    ensures KeySet(r1) == KeySet(r2)
    ensures GroupKeys(r1) == GroupKeys(r2)
  {
    if r1 != [] {
      SameButRevenueSplit(r1, r2);
      GroupKeysIgnoreRevenue(r1[1..], r2[1..]);
      assert r1 == [r1[0]] + r1[1..] && r2 == [r2[0]] + r2[1..];
      assert KeySet(r1) == {KeyOf(r1[0])} + KeySet(r1[1..]);
      assert KeySet(r2) == {KeyOf(r2[0])} + KeySet(r2[1..]);
    }
  }

  /** Each group holds the same records up to `Revenue`. */
  lemma {:induction false} MembersIgnoreRevenue(r1: seq<Record>, r2: seq<Record>, k: Key)
    requires SameButRevenue(r1, r2)
    ensures SameButRevenue(Members(r1, k), Members(r2, k))
  {
    if r1 != [] {
      SameButRevenueSplit(r1, r2);
      MembersIgnoreRevenue(r1[1..], r2[1..], k);
      var m1, m2 := Members(r1[1..], k), Members(r2[1..], k);
      if KeyOf(r1[0]) == k {
        var g1, g2 := [r1[0]] + m1, [r2[0]] + m2;
        forall i | 0 <= i < |g1|
          ensures g1[i].(revenue := 0) == g2[i].(revenue := 0)
        {
          if i > 0 {
            assert g1[i] == m1[i - 1] && g2[i] == m2[i - 1];
          }
        }
      } else {
        assert Members(r1, k) == m1 && Members(r2, k) == m2;
      }
    }
  }

  lemma {:induction false} SalesSumIgnoresRevenue(r1: seq<Record>, r2: seq<Record>)
    requires SameButRevenue(r1, r2)
    ensures SumBy(r1, SalesOf) == SumBy(r2, SalesOf)
  {
    if r1 != [] {
      SameButRevenueSplit(r1, r2);
      SalesSumIgnoresRevenue(r1[1..], r2[1..]);
    }
  }

  /** An output row with its revenue columns blanked out. */
  function WithoutRevenue(a: Aggregate): Aggregate
  {
    a.(revenueSum := 0, revenueMean := 0.0)
  }

  lemma AggregatedIgnoresRevenue(r1: seq<Record>, r2: seq<Record>, k: Key)
    requires SameButRevenue(r1, r2)
    requires k in KeySet(r1) && k in KeySet(r2)
    ensures WithoutRevenue(Aggregated(r1, k)) == WithoutRevenue(Aggregated(r2, k))
  {
    MembersIgnoreRevenue(r1, r2, k);
    SalesSumIgnoresRevenue(Members(r1, k), Members(r2, k));
  }

  /**
   * Cleaned tables that agree except in `Revenue` give analyses that agree
   * except in `Revenue_sum` and `Revenue_mean`: the same success, the same
   * number of rows, and in each row the same key, `Sales_sum` and
   * `Sales_mean`.
   */
  lemma AnalyzeIgnoresRevenue(c1: CleanFrame, c2: CleanFrame)
    requires c1.columns == c2.columns && |c1.rows| == |c2.rows|
    requires forall i :: 0 <= i < |c1.rows| ==> c1.rows[i].(revenue := 0) == c2.rows[i].(revenue := 0)
    ensures Analyze(c1).Ok? <==> Analyze(c2).Ok?
    ensures Analyze(c1).Ok? ==>
      var a1, a2 := Analyze(c1).value, Analyze(c2).value;
      && |a1| == |a2|
      && forall i :: 0 <= i < |a1| ==> WithoutRevenue(a1[i]) == WithoutRevenue(a2[i])
  {
    if ProductCol in c1.columns {
      var r1, r2 := RecordsOf(c1), RecordsOf(c2);
      forall i | 0 <= i < |r1|
        ensures r1[i].(revenue := 0) == r2[i].(revenue := 0)
      {
        assert c1.rows[i].(revenue := 0) == c2.rows[i].(revenue := 0);
        assert c1.rows[i].month == c2.rows[i].month && c1.rows[i].product == c2.rows[i].product;
        assert c1.rows[i].sales == c2.rows[i].sales;
      }
      GroupKeysIgnoreRevenue(r1, r2);
      var ks := GroupKeys(r1);
      var a1, a2 := Analyze(c1).value, Analyze(c2).value;
      forall i | 0 <= i < |a1|
        ensures WithoutRevenue(a1[i]) == WithoutRevenue(a2[i])
      {
        AggregatesAt(r1, ks, i);
        AggregatesAt(r2, ks, i);
        assert ks[i] in ks;
        AggregatedIgnoresRevenue(r1, r2, ks[i]);
      }
    }
  }


  // ---------------------------------------------------------------------
  // Flattened column names.
  // ---------------------------------------------------------------------

  /** The aggregations requested, as (metric, aggregate) column pairs. */
  const Aggregations: seq<(string, string)> :=
    [("Sales", "sum"), ("Sales", "mean"), ("Revenue", "sum"), ("Revenue", "mean")]

  predicate IsSpace(c: char)
  {
    c == ' ' || c == '\t' || c == '\n' || c == '\r' || c == '\U{000B}' || c == '\U{000C}'
  }

  function TrimStart(s: string): (r: string)
    ensures |r| <= |s|
    ensures r != [] ==> !IsSpace(r[0])
  {
    if s != [] && IsSpace(s[0]) then TrimStart(s[1..]) else s
  }

  function TrimEnd(s: string): (r: string)
    ensures |r| <= |s|
    ensures r != [] ==> !IsSpace(r[|r| - 1])
  {
    if s != [] && IsSpace(s[|s| - 1]) then TrimEnd(s[..|s| - 1]) else s
  }

  /** `str.strip` for the ASCII white space characters. */
  function Strip(s: string): (r: string)
  {
    TrimEnd(TrimStart(s))
  }

  /** `'_'.join(col).strip()` */
  function FlatName(col: (string, string)): (name: string)
  {
    Strip(col.0 + "_" + col.1)
  }

  /** The analysis table's header: the group keys (from `reset_index`) then
    * one flattened name per aggregation. Column by column it names the fields
    * of `Aggregate`: `Month` is `month`, `Product` is `product`, `Sales_sum`
    * is `salesSum`, `Sales_mean` is `salesMean`, `Revenue_sum` is
    * `revenueSum` and `Revenue_mean` is `revenueMean`; the summary reads
    * those fields. */
  function AnalysisColumns(): (names: seq<string>)
  {
    ["Month", "Product"] + seq(|Aggregations|, i requires 0 <= i < |Aggregations| => FlatName(Aggregations[i]))
  }

  lemma StripUnpadded(s: string)
    requires s != [] && !IsSpace(s[0]) && !IsSpace(s[|s| - 1])
    ensures Strip(s) == s
  {
  }

  lemma FlatNameUnpadded(metric: string, aggregate: string)
    requires metric != [] && aggregate != []
    requires !IsSpace(metric[0]) && !IsSpace(aggregate[|aggregate| - 1])
    ensures FlatName((metric, aggregate)) == metric + "_" + aggregate
  {
    var s := metric + "_" + aggregate;
    assert s[0] == metric[0] && s[|s| - 1] == aggregate[|aggregate| - 1];
    StripUnpadded(s);
  }

  /** The flattened header is exactly the one the summary and the charts read. */
  lemma AnalysisColumnNames()
    ensures AnalysisColumns() == ["Month", "Product", "Sales_sum", "Sales_mean", "Revenue_sum", "Revenue_mean"]
  {
    FlatNameUnpadded("Sales", "sum");
    FlatNameUnpadded("Sales", "mean");
    FlatNameUnpadded("Revenue", "sum");
    FlatNameUnpadded("Revenue", "mean");
    var names := AnalysisColumns();
    assert names[2] == FlatName(("Sales", "sum")) == "Sales_sum";
    assert names[3] == FlatName(("Sales", "mean")) == "Sales_mean";
    assert names[4] == FlatName(("Revenue", "sum")) == "Revenue_sum";
    assert names[5] == FlatName(("Revenue", "mean")) == "Revenue_mean";
  }
}
