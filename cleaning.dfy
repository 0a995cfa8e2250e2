/**
 * The clean stage (`clean_data`): drop every row with a missing value, then
 * add `Month` (from `Date`) and `Revenue` (`Sales` times a random multiplier).
 */
module Cleaning {

  import opened Wrappers
  import opened Dates
  import opened Frames

  /** The rows `dropna` keeps, in their original order. */
  function DropNA(cols: set<Column>, rows: seq<RawRow>): (kept: seq<RawRow>)
    ensures |kept| <= |rows|
    ensures forall r :: r in kept <==> r in rows && Complete(cols, r)
  {
    if rows == [] then []
    else (if Complete(cols, rows[0]) then [rows[0]] else []) + DropNA(cols, rows[1..])
  }

  /** `dropna` treats each row on its own: the rows kept from a concatenation
    * are the rows kept from each part, in the same order. */
  lemma {:induction false} DropNAConcat(cols: set<Column>, a: seq<RawRow>, b: seq<RawRow>)
    ensures DropNA(cols, a + b) == DropNA(cols, a) + DropNA(cols, b)
  {
    if a == [] {
      assert a + b == b;
    } else {
      assert (a + b)[1..] == a[1..] + b;
      DropNAConcat(cols, a[1..], b);
    }
  }

  /** A table with no missing value loses no row. */
  lemma {:induction false} DropNANoMissing(cols: set<Column>, rows: seq<RawRow>)
    requires forall r :: r in rows ==> Complete(cols, r)
    ensures DropNA(cols, rows) == rows
  {
    if rows != [] {
      DropNANoMissing(cols, rows[1..]);
    }
  }

  /** `Sales` added up over some raw rows, skipping missing values as pandas does. */
  function SalesColumnSum(rows: seq<RawRow>): int
  {
    if rows == [] then 0
    else (match rows[0].sales case Some(v) => v case None => 0) + SalesColumnSum(rows[1..])
  }

  /** The first kept date that `to_datetime` cannot read, if any. */
  function FirstInvalidDate(rows: seq<RawRow>): (bad: Option<Date>)
    requires forall r :: r in rows ==> r.date.Some?
    ensures bad.None? <==> forall r :: r in rows ==> ValidDate(r.date.value)
    ensures bad.Some? ==> !ValidDate(bad.value) && exists r :: r in rows && r.date == bad
    ensures bad.Some? ==> exists i :: 0 <= i < |rows| && rows[i].date == bad &&
                            (forall j :: 0 <= j < i ==> ValidDate(rows[j].date.value))
  {
    if rows == [] then None
    else if !ValidDate(rows[0].date.value) then rows[0].date
    else FirstInvalidDate(rows[1..])
  }

  /** A kept row whose date exists and whose `Sales` is a column. */
  predicate Ready(r: RawRow)
  {
    r.date.Some? && ValidDate(r.date.value) && r.sales.Some?
  }

  /** A kept row with its two derived fields. */
  function Extend(r: RawRow, multiplier: int): CleanRow
    requires Ready(r)
  {
    CleanRow(r.date.value, r.product, r.sales.value, r.region,
             MonthKey(r.date.value), r.sales.value * multiplier)
  }

  /** The new columns, row by row: the i-th kept row takes the i-th draw. */
  function Annotate(kept: seq<RawRow>, multiplier: nat -> int): (rows: seq<CleanRow>)
    requires forall i :: 0 <= i < |kept| ==> Ready(kept[i])
    ensures |rows| == |kept|
    ensures forall i :: 0 <= i < |kept| ==> rows[i] == Extend(kept[i], multiplier(i))
  {
    seq(|kept|, i requires 0 <= i < |kept| => Extend(kept[i], multiplier(i)))
  }

  /**
   * `clean_data`. `multiplier(i)` is the i-th value of the uniform draw that
   * scales the i-th kept row's `Sales` into its `Revenue`. The lookups of
   * `Date` and then `Sales` fail when the column is absent, and reading the
   * dates fails on the first date that does not exist.
   */
  function Clean(raw: RawFrame, multiplier: nat -> int): Result<CleanFrame, Cause>
  {
    if DateCol !in raw.columns then Err(MissingColumn(DateCol))
    else
      var kept := DropNA(raw.columns, raw.rows);
      match FirstInvalidDate(kept)
      case Some(d) => Err(InvalidDate(d))
      case None =>
        if SalesCol !in raw.columns then Err(MissingColumn(SalesCol))
        else
          KeptReady(raw, kept);
          var rows := Annotate(kept, multiplier);
          AnnotatedShaped(raw, kept, multiplier);
          Ok(Cleaned(raw.columns, rows))
  }

  /** Once `Date` and `Sales` are columns and every kept date exists, each
    * kept row is ready for its derived columns. */
  lemma KeptReady(raw: RawFrame, kept: seq<RawRow>)
    requires DateCol in raw.columns && SalesCol in raw.columns
    requires kept == DropNA(raw.columns, raw.rows)
    requires FirstInvalidDate(kept).None?
    ensures forall i :: 0 <= i < |kept| ==> Ready(kept[i])
  {
    forall i | 0 <= i < |kept|
      ensures Ready(kept[i])
    {
      assert kept[i] in kept;
    }
  }

  /** The annotated kept rows have a value in `Product` and `Region` exactly
    * when those are columns. */
  lemma AnnotatedShaped(raw: RawFrame, kept: seq<RawRow>, multiplier: nat -> int)
    requires DateCol in raw.columns && SalesCol in raw.columns
    requires kept == DropNA(raw.columns, raw.rows)
    requires forall i :: 0 <= i < |kept| ==> Ready(kept[i])
    ensures Cleaned(raw.columns, Annotate(kept, multiplier)).Shaped()
  {
    var rows := Annotate(kept, multiplier);
    forall r | r in rows
      ensures (r.product.Some? <==> ProductCol in raw.columns)
      ensures (r.region.Some? <==> RegionCol in raw.columns)
    {
      var i :| 0 <= i < |rows| && rows[i] == r;
      assert kept[i] in kept;
      assert kept[i] in raw.rows && Fits(raw.columns, kept[i]);
    }
  }

  /** Cleaning fails exactly when `Date` or `Sales` is not a column or a kept
    * row's date does not exist, and it reports the first of these that the
    * code reaches. */
  lemma CleanFailure(raw: RawFrame, multiplier: nat -> int)
    ensures Clean(raw, multiplier).Err? <==>
      || DateCol !in raw.columns
      || SalesCol !in raw.columns
      || exists r :: r in DropNA(raw.columns, raw.rows) && !ValidDate(r.date.value)
    ensures DateCol !in raw.columns ==> Clean(raw, multiplier) == Err(MissingColumn(DateCol))
    ensures DateCol in raw.columns && SalesCol !in raw.columns
            && (forall r :: r in DropNA(raw.columns, raw.rows) ==> ValidDate(r.date.value))
            ==> Clean(raw, multiplier) == Err(MissingColumn(SalesCol))
    ensures DateCol in raw.columns
            && (exists r :: r in DropNA(raw.columns, raw.rows) && !ValidDate(r.date.value))
            ==> Clean(raw, multiplier).Err? && Clean(raw, multiplier).error.InvalidDate?
    ensures Clean(raw, multiplier).Err? && Clean(raw, multiplier).error.InvalidDate? ==>
      DateCol in raw.columns &&
      exists r :: r in raw.rows && r.date == Some(Clean(raw, multiplier).error.date)
                 && Complete(raw.columns, r) && !ValidDate(r.date.value)
  {
  }

  /**
   * What a successful clean produces: the same columns, one row per kept
   * raw row in the same order, each carrying that row's values unchanged
   * plus its `Month` key and its `Revenue`.
   */
  lemma CleanOutput(raw: RawFrame, multiplier: nat -> int)
    requires Clean(raw, multiplier).Ok?
    ensures var out := Clean(raw, multiplier).value;
            var kept := DropNA(raw.columns, raw.rows);
      && out.columns == raw.columns
      && |out.rows| == |kept| <= |raw.rows|
      && forall i :: 0 <= i < |out.rows| ==>
           && Some(out.rows[i].date) == kept[i].date
           && out.rows[i].product == kept[i].product
           && Some(out.rows[i].sales) == kept[i].sales
           && out.rows[i].region == kept[i].region
           && ParseMonthKey(out.rows[i].month) == Some((out.rows[i].date.year, out.rows[i].date.month))
           && out.rows[i].revenue == out.rows[i].sales * multiplier(i)
  {
    var out := Clean(raw, multiplier).value;
    var kept := DropNA(raw.columns, raw.rows);
    assert DateCol in raw.columns && SalesCol in raw.columns;
    assert FirstInvalidDate(kept).None?;
    assert forall i :: 0 <= i < |kept| ==> kept[i] in kept && Ready(kept[i]);
    assert Clean(raw, multiplier) == Ok(Cleaned(raw.columns, Annotate(kept, multiplier)));
    forall i | 0 <= i < |out.rows|
      ensures && Some(out.rows[i].date) == kept[i].date
              && out.rows[i].product == kept[i].product
              && Some(out.rows[i].sales) == kept[i].sales
              && out.rows[i].region == kept[i].region
              && ParseMonthKey(out.rows[i].month) == Some((out.rows[i].date.year, out.rows[i].date.month))
              && out.rows[i].revenue == out.rows[i].sales * multiplier(i)
    {
      assert kept[i] in kept;
      assert out.rows[i] == Extend(kept[i], multiplier(i));
      MonthKeyRoundTrip(out.rows[i].date);
    }
  }

  /**
   * Only `Revenue` depends on the random draw: two runs on the same input
   * agree on success, on the failure cause, on the columns, on the row count
   * and on every other field of every row.
   */
  lemma CleanStructureIgnoresDraw(raw: RawFrame, m1: nat -> int, m2: nat -> int)
    ensures Clean(raw, m1).Ok? <==> Clean(raw, m2).Ok?
    ensures Clean(raw, m1).Err? ==> Clean(raw, m1) == Clean(raw, m2)
    ensures Clean(raw, m1).Ok? ==>
      var c1, c2 := Clean(raw, m1).value, Clean(raw, m2).value;
      && c1.columns == c2.columns && |c1.rows| == |c2.rows|
      && forall i :: 0 <= i < |c1.rows| ==> c1.rows[i].(revenue := 0) == c2.rows[i].(revenue := 0)
  {
  }
}
