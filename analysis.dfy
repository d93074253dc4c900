/**
 * The whole run after loading: header handling, the row pipeline and the
 * aggregations, stopping at the first fatal condition.
 */
module Analysis {
  import opened Wrappers
  import opened Strings
  import opened Frame
  import opened Headers
  import opened Pipeline
  import opened Aggregates
  import opened Categories
  import TypeNormalizer
  import Seqs

  /** The loaded CSV: the header names as written and the cells of every data row. */
  datatype Table = Table(columns: seq<string>, cells: seq<seq<Option<string>>>)

  /** The position of the first column named `name` (pandas' `df[name]`). */
  function IndexOf(names: seq<string>, name: string): (i: nat)
    requires name in names
    ensures i < |names| && names[i] == name
    ensures forall j :: 0 <= j < i ==> names[j] != name
  {
    if names[0] == name then 0 else 1 + IndexOf(names[1..], name)
  }

  /** A cell of a data row; a short row lacks its trailing cells. */
  function CellAt(cells: seq<Option<string>>, i: nat): Option<string> {
    if i < |cells| then cells[i] else None
  }

  /** The header row holds every required column. */
  predicate HasRequiredColumns(names: seq<string>) {
    forall c :: c in RequiredCols ==> c in names
  }

  /** The five cells of one data row the analysis reads. */
  function ProjectRow(h: Columns, cells: seq<Option<string>>): RawRow
    requires HasRequiredColumns(h.names)
  {
    FrameRow(
      CellAt(cells, IndexOf(h.names, "Game Name")),
      CellAt(cells, IndexOf(h.names, "Acted On")),
      CellAt(cells, IndexOf(h.names, "Type")),
      CellAt(cells, IndexOf(h.names, "Market Name")),
      CellAt(cells, h.price))
  }

  function Project(table: Table, h: Columns): seq<RawRow>
    requires HasRequiredColumns(h.names)
  {
    Seqs.Map(table.cells, cells => ProjectRow(h, cells))
  }

  /**
   * The script from line 15 on. A header failure is reported as it is;
   * otherwise the run fails exactly when no surviving row is a purchase or
   * a sale, and else produces the report of the surviving rows.
   */
  method Analyze(table: Table, toNumeric: string -> Option<int>, parseDate: string -> Option<Date>)
    returns (res: Result<Report, Failure>)
    ensures CheckHeaders(table.columns).Failure? ==> res == Failure(CheckHeaders(table.columns).error)
    ensures CheckHeaders(table.columns).Success? ==>
      var rows := Survivors(Project(table, CheckHeaders(table.columns).value), toNumeric, parseDate);
      && (res.Success? <==> HasTrade(rows))
      && (res.Success? ==> res.value == BuildReport(rows))
      && (res.Failure? ==> res.error == NoValidTransactions)
  {
    var h := CheckHeaders(table.columns);
    if h.Failure? {
      return Failure(h.error);
    }
    var raw := Project(table, h.value);
    var prepared := Prepare(raw, toNumeric, parseDate);
    if prepared.Failure? {
      return Failure(prepared.error);
    }
    return Success(BuildReport(prepared.value));
  }

  /** An item name in which none of the category markers occurs. */
  lemma RedlineIsWeapon()
    ensures Categorize(Some("AK-47 | Redline")) == Weapons
  {
    var s := "AK-47 | Redline";
    assert forall i :: 0 <= i < |s| ==> s[i] != 'C' && s[i] != 'S';
    AbsentFirstChar(s, "Capsule");
    AbsentFirstChar(s, "Case");
    AbsentFirstChar(s, "Charm");
    AbsentFirstChar(s, "Sticker");
  }

  /**
   * A sold AK-47 priced "1050,00" survives as a sale of 1050 cents, and a
   * row of another game is dropped whatever its other cells hold.
   */
  lemma SoldRowScenario(toNumeric: string -> Option<int>, parseDate: string -> Option<Date>, d: Date)
    requires toNumeric("1050,00") == Some(1050) && parseDate("05 Jan") == Some(d)
    ensures Survive(toNumeric, parseDate,
      FrameRow(Some(TargetGame), Some("05 Jan"), Some("Sold"), Some("AK-47 | Redline"), Some("1050,00")))
      == Some(Row(TargetGame, d, TypeNormalizer.Sale, "AK-47 | Redline", 1050))
    ensures CategoryOf(Row(TargetGame, d, TypeNormalizer.Sale, "AK-47 | Redline", 1050)) == Weapons
    ensures Survive(toNumeric, parseDate,
      FrameRow(Some("Dota 2"), Some("05 Jan"), Some("Sold"), Some("AK-47 | Redline"), Some("1050,00"))) == None
  {
    TypeNormalizer.NormalizeTypeExamples();
    RedlineIsWeapon();
    assert "Dota 2"[0] != TargetGame[0];
  }
}
