/**
 * The tables that flow between the pipeline's stages: the raw sales table,
 * the cleaned table, and the causes for which a stage fails.
 */
module Frames {

  import opened Wrappers
  import opened Dates

  /** The columns of the raw sales table. */
  datatype Column = DateCol | ProductCol | SalesCol | RegionCol

  /** Why a stage raises. */
  datatype Cause =
    | MissingColumn(column: Column)   // a KeyError on a column lookup
    | InvalidDate(date: Date)         // to_datetime cannot read a date
    | MissingInput(node: string)      // a task's input data node was never written
    | WrongInput(node: string)        // a task's input data node holds another kind of table

  /** One raw row; `None` is a missing value (NaN, NaT or None). */
  datatype RawRow = RawRow(date: Option<Date>, product: Option<string>, sales: Option<int>, region: Option<string>)

  /** A value can only be present in a column the table has. */
  predicate Fits(cols: set<Column>, r: RawRow)
  {
    && (r.date.Some? ==> DateCol in cols)
    && (r.product.Some? ==> ProductCol in cols)
    && (r.sales.Some? ==> SalesCol in cols)
    && (r.region.Some? ==> RegionCol in cols)
  }

  /** No column of the table is missing a value in this row (what `dropna` keeps). */
  predicate Complete(cols: set<Column>, r: RawRow)
  {
    && (DateCol in cols ==> r.date.Some?)
    && (ProductCol in cols ==> r.product.Some?)
    && (SalesCol in cols ==> r.sales.Some?)
    && (RegionCol in cols ==> r.region.Some?)
  }

  datatype Frame = Frame(columns: set<Column>, rows: seq<RawRow>)
  {
    predicate Shaped() { forall r :: r in rows ==> Fits(columns, r) }
  }

  /** The raw table: an ordered sequence of rows over a set of columns. */
  type RawFrame = f: Frame | f.Shaped() witness Frame({}, [])

  /** A cleaned row: a complete raw row plus the derived `Month` and `Revenue`. */
  datatype CleanRow = CleanRow(
    date: Date, product: Option<string>, sales: int, region: Option<string>,
    month: string, revenue: int)

  datatype Cleaned = Cleaned(columns: set<Column>, rows: seq<CleanRow>)
  {
    /** `Date` and `Sales` are columns (cleaning needs them); `Product` and
      * `Region` hold a value in every row exactly when they are columns. */
    predicate Shaped()
    {
      && DateCol in columns && SalesCol in columns
      && forall r :: r in rows ==>
           (r.product.Some? <==> ProductCol in columns) && (r.region.Some? <==> RegionCol in columns)
    }
  }

  /** The cleaned table; it always has `Month` and `Revenue` besides `columns`. */
  type CleanFrame = c: Cleaned | c.Shaped() witness Cleaned({DateCol, SalesCol}, [])
}
