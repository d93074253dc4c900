/**
 * The shapes of the data the script passes from step to step: the rows of
 * the loaded table while its columns are being overwritten, the cleaned
 * transaction rows the aggregations read, and the fatal errors.
 */
module Frame {
  import opened Wrappers

  /** The only game whose rows are analysed. */
  const TargetGame: string := "Counter-Strike 2"

  /**
   * The day and month an "Acted On" cell names. The export has no year;
   * every date falls in one (parser-chosen) year, so a date is an opaque key.
   */
  datatype Date = Date(month: nat, day: nat)

  /**
   * One row of the loaded table, restricted to the five columns the
   * analysis reads. A cell may be missing (NaN). `P` is the type of the price
   * cell and `D` that of the date cell: the script overwrites both columns
   * in place with parsed values, which changes their type.
   */
  datatype FrameRow<P, D> = FrameRow(
    game: Option<string>,
    actedOn: Option<D>,
    typ: Option<string>,
    item: Option<string>,
    price: Option<P>)

  /** A row as loaded: every cell is text or missing. */
  type RawRow = FrameRow<string, string>

  /** A row once every cell of it has been checked and parsed. */
  datatype Row = Row(game: string, date: Date, typ: string, item: string, priceCents: int)

  /** The fatal conditions that stop the run with exit status 1. */
  datatype Failure =
    | NoPriceColumn(available: seq<string>)
    | MissingColumns(missing: seq<string>, available: seq<string>)
    | NoValidTransactions
}
