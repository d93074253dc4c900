/**
 * The row pipeline of lines 31-61: keep the target game's rows, normalise
 * the type column, coerce the price column, drop incomplete rows, parse
 * the dates, drop undated rows, and stop when no purchase or sale is left.
 */
module Pipeline {
  import opened Wrappers
  import opened Seqs
  import opened Frame
  import opened TypeNormalizer

  /** The mask of line 31. */
  predicate IsTargetGame(r: RawRow) {
    r.game == Some(TargetGame)
  }

  /** Line 45: the type cell overwritten with its normalised value. */
  function NormalizeTypeCell<P, D>(r: FrameRow<P, D>): FrameRow<P, D> {
    r.(typ := NormalizeType(r.typ))
  }

  /** Line 49: the price cell overwritten by `pd.to_numeric(..., errors="coerce")`. */
  function CoercePrice<D>(toNumeric: string -> Option<int>, r: FrameRow<string, D>): FrameRow<int, D> {
    FrameRow(r.game, r.actedOn, r.typ, r.item,
      match r.price
      case None => None
      case Some(s) => toNumeric(s))
  }

  /** The mask of line 50: price, date, type and item cells all present. */
  predicate HasRequiredCells<P, D>(r: FrameRow<P, D>) {
    r.price.Some? && r.actedOn.Some? && r.typ.Some? && r.item.Some?
  }

  /** Line 54: the date cell overwritten by `pd.to_datetime(..., errors="coerce")`. */
  function ParseDateCell<P>(parseDate: string -> Option<Date>, r: FrameRow<P, string>): FrameRow<P, Date> {
    FrameRow(r.game,
      match r.actedOn
      case None => None
      case Some(s) => parseDate(s),
      r.typ, r.item, r.price)
  }

  /** The mask of line 55. */
  predicate HasDate<P, D>(r: FrameRow<P, D>) {
    r.actedOn.Some?
  }

  function NormalizeTypes<P, D>(t: seq<FrameRow<P, D>>): seq<FrameRow<P, D>> {
    Map(t, NormalizeTypeCell)
  }

  function CoercePrices<D>(t: seq<FrameRow<string, D>>, toNumeric: string -> Option<int>): seq<FrameRow<int, D>> {
    Map(t, r => CoercePrice(toNumeric, r))
  }

  function ParseDates<P>(t: seq<FrameRow<P, string>>, parseDate: string -> Option<Date>): seq<FrameRow<P, Date>> {
    Map(t, r => ParseDateCell(parseDate, r))
  }

  /** The six table steps of lines 31-55, one after the other. */
  function Stages(raw: seq<RawRow>, toNumeric: string -> Option<int>, parseDate: string -> Option<Date>)
    : seq<FrameRow<int, Date>>
  {
    var cs2 := Filter(raw, IsTargetGame);
    var typed := NormalizeTypes(cs2);
    var numeric := Filter(CoercePrices(typed, toNumeric), HasRequiredCells);
    Filter(ParseDates(numeric, parseDate), HasDate)
  }

  /** A row every cell of which has been filled and parsed. */
  predicate Complete(r: FrameRow<int, Date>) {
    r.game.Some? && HasRequiredCells(r)
  }

  function ToRow(r: FrameRow<int, Date>): Row
    requires Complete(r)
  {
    Row(r.game.value, r.actedOn.value, r.typ.value, r.item.value, r.price.value)
  }

  function ToRows(t: seq<FrameRow<int, Date>>): (rows: seq<Row>)
    requires forall i :: 0 <= i < |t| ==> Complete(t[i])
    ensures |rows| == |t|
    ensures forall i :: 0 <= i < |t| ==> rows[i] == ToRow(t[i])
  {
    seq(|t|, i requires 0 <= i < |t| => ToRow(t[i]))
  }

  /**
   * The reference for one raw row: it survives exactly when it belongs to
   * the target game, its type, item, price and date cells are present,
   * and its price and date parse; it then comes out with the same game,
   * item, parsed price and parsed date, and its type normalised.
   */
  function Survive(toNumeric: string -> Option<int>, parseDate: string -> Option<Date>, r: RawRow): (o: Option<Row>)
    ensures o.Some? <==>
      && r.game == Some(TargetGame)
      && r.typ.Some?
      && r.item.Some?
      && r.price.Some? && toNumeric(r.price.value).Some?
      && r.actedOn.Some? && parseDate(r.actedOn.value).Some?
    ensures o.Some? ==>
      && o.value.game == TargetGame
      && Some(o.value.item) == r.item
      && Some(o.value.typ) == NormalizeType(r.typ)
      && Some(o.value.priceCents) == toNumeric(r.price.value)
      && Some(o.value.date) == parseDate(r.actedOn.value)
  {
    if && r.game == Some(TargetGame)
       && r.typ.Some? && r.item.Some?
       && r.price.Some? && toNumeric(r.price.value).Some?
       && r.actedOn.Some? && parseDate(r.actedOn.value).Some?
    then
      Some(Row(TargetGame, parseDate(r.actedOn.value).value, NormalizeType(r.typ).value,
               r.item.value, toNumeric(r.price.value).value))
    else None
  }

  /** The rows that survive, in table order. */
  function Survivors(raw: seq<RawRow>, toNumeric: string -> Option<int>, parseDate: string -> Option<Date>)
    : seq<Row>
  {
    FilterMap(raw, r => Survive(toNumeric, parseDate, r))
  }

  /** What the table steps leave of a one-row table, step by step. */
  function StageOne(x: RawRow, toNumeric: string -> Option<int>, parseDate: string -> Option<Date>)
    : seq<FrameRow<int, Date>>
  {
    if !IsTargetGame(x) then [] else
    var y := CoercePrice(toNumeric, NormalizeTypeCell(x));
    if !HasRequiredCells(y) then [] else
    var z := ParseDateCell(parseDate, y);
    if HasDate(z) then [z] else []
  }

  lemma MapEmpty<T, U>(f: T -> U)
    ensures Map([], f) == []
  {
  }

  lemma MapSingle<T, U>(x: T, f: T -> U)
    ensures Map([x], f) == [f(x)]
  {
  }

  lemma StagesOne(x: RawRow, toNumeric: string -> Option<int>, parseDate: string -> Option<Date>)
    ensures Stages([x], toNumeric, parseDate) == StageOne(x, toNumeric, parseDate)
  {
    FilterSingle(x, IsTargetGame);
    if IsTargetGame(x) {
      MapSingle(x, NormalizeTypeCell);
      var y := CoercePrice(toNumeric, NormalizeTypeCell(x));
      MapSingle(NormalizeTypeCell(x), r => CoercePrice(toNumeric, r));
      FilterSingle(y, HasRequiredCells);
      if HasRequiredCells(y) {
        var z := ParseDateCell(parseDate, y);
        MapSingle(y, r => ParseDateCell(parseDate, r));
        FilterSingle(z, HasDate);
      } else {
        MapEmpty((r: FrameRow<int, string>) => ParseDateCell(parseDate, r));
      }
    } else {
      MapEmpty<RawRow, RawRow>(NormalizeTypeCell);
    }
  }

  lemma StageOneSurvives(x: RawRow, toNumeric: string -> Option<int>, parseDate: string -> Option<Date>)
    ensures var t := StageOne(x, toNumeric, parseDate);
      && (forall i :: 0 <= i < |t| ==> Complete(t[i]))
      && ToRows(t) == Survivors([x], toNumeric, parseDate)
  {
    FilterMapSingle(x, r => Survive(toNumeric, parseDate, r));
  }

  /** The table steps of a one-row table agree with the reference. */
  lemma StagesSingle(x: RawRow, toNumeric: string -> Option<int>, parseDate: string -> Option<Date>)
    ensures var t := Stages([x], toNumeric, parseDate);
      && (forall i :: 0 <= i < |t| ==> Complete(t[i]))
      && ToRows(t) == Survivors([x], toNumeric, parseDate)
  {
    StagesOne(x, toNumeric, parseDate);
    StageOneSurvives(x, toNumeric, parseDate);
  }

  /** Every table step acts row by row, so the steps distribute over concatenation. */
  lemma StagesConcat(a: seq<RawRow>, b: seq<RawRow>, toNumeric: string -> Option<int>, parseDate: string -> Option<Date>)
    ensures Stages(a + b, toNumeric, parseDate) == Stages(a, toNumeric, parseDate) + Stages(b, toNumeric, parseDate)
  {
    FilterConcat(a, b, IsTargetGame);
    var ca := Filter(a, IsTargetGame);
    var cb := Filter(b, IsTargetGame);
    MapConcat(ca, cb, NormalizeTypeCell);
    var ta := NormalizeTypes(ca);
    var tb := NormalizeTypes(cb);
    MapConcat(ta, tb, r => CoercePrice(toNumeric, r));
    var pa := CoercePrices(ta, toNumeric);
    var pb := CoercePrices(tb, toNumeric);
    FilterConcat(pa, pb, HasRequiredCells);
    var na := Filter(pa, HasRequiredCells);
    var nb := Filter(pb, HasRequiredCells);
    MapConcat(na, nb, r => ParseDateCell(parseDate, r));
    FilterConcat(ParseDates(na, parseDate), ParseDates(nb, parseDate), HasDate);
  }

  lemma ToRowsConcat(a: seq<FrameRow<int, Date>>, b: seq<FrameRow<int, Date>>)
    requires forall i :: 0 <= i < |a| ==> Complete(a[i])
    requires forall i :: 0 <= i < |b| ==> Complete(b[i])
    ensures forall i :: 0 <= i < |a + b| ==> Complete((a + b)[i])
    ensures ToRows(a + b) == ToRows(a) + ToRows(b)
  {
  }

  /**
   * The table steps of lines 31-55 keep exactly the rows the per-row
   * reference keeps, converted the same way and in the same order.
   */
  lemma {:induction false} StagesMatchSurvivors(raw: seq<RawRow>, toNumeric: string -> Option<int>, parseDate: string -> Option<Date>)
    ensures var t := Stages(raw, toNumeric, parseDate);
      && (forall i :: 0 <= i < |t| ==> Complete(t[i]))
      && ToRows(t) == Survivors(raw, toNumeric, parseDate)
  {
    if raw != [] {
      var x := raw[0];
      var rest := raw[1..];
      assert raw == [x] + rest;
      StagesSingle(x, toNumeric, parseDate);
      StagesMatchSurvivors(rest, toNumeric, parseDate);
      StagesConcat([x], rest, toNumeric, parseDate);
      FilterMapConcat([x], rest, r => Survive(toNumeric, parseDate, r));
      ToRowsConcat(Stages([x], toNumeric, parseDate), Stages(rest, toNumeric, parseDate));
    } else {
      assert Filter<RawRow>([], IsTargetGame) == [];
      assert Stages([], toNumeric, parseDate) == [];
    }
  }

  /**
   * Filtering only removes rows: the k-th surviving row comes from the
   * k-th kept raw row, kept positions are in increasing order, and a raw
   * row is kept exactly when the reference accepts it.
   */
  lemma SurvivorsKeepOrder(raw: seq<RawRow>, toNumeric: string -> Option<int>, parseDate: string -> Option<Date>)
    ensures var rows := Survivors(raw, toNumeric, parseDate);
      var kept := KeptIndices(raw, r => Survive(toNumeric, parseDate, r));
      && |kept| == |rows|
      && Increasing(kept)
      && (forall k :: 0 <= k < |kept| ==> Survive(toNumeric, parseDate, raw[kept[k]]) == Some(rows[k]))
      && (forall i :: 0 <= i < |raw| ==> (Survive(toNumeric, parseDate, raw[i]).Some? <==> i in kept))
  {
    FilterMapKeeps(raw, r => Survive(toNumeric, parseDate, r));
  }

  /** Every surviving row belongs to the target game and came from a complete raw row. */
  lemma SurvivorsAreClean(raw: seq<RawRow>, toNumeric: string -> Option<int>, parseDate: string -> Option<Date>)
    ensures forall k :: 0 <= k < |Survivors(raw, toNumeric, parseDate)| ==>
      var row := Survivors(raw, toNumeric, parseDate)[k];
      && row.game == TargetGame
      && exists i :: 0 <= i < |raw| && Survive(toNumeric, parseDate, raw[i]) == Some(row)
  {
    SurvivorsKeepOrder(raw, toNumeric, parseDate);
  }

  /** The check of line 59: some row is typed `purchase` or `sale`. */
  predicate HasTrade(rows: seq<Row>) {
    exists i :: 0 <= i < |rows| && (rows[i].typ == Purchase || rows[i].typ == Sale)
  }

  /**
   * Lines 31-61 as the script runs them, rebinding the table after each
   * step; the run stops when no surviving row is a purchase or a sale.
   */
  method Prepare(raw: seq<RawRow>, toNumeric: string -> Option<int>, parseDate: string -> Option<Date>)
    returns (res: Result<seq<Row>, Failure>)
    ensures res.Success? <==> HasTrade(Survivors(raw, toNumeric, parseDate))
    ensures res.Success? ==> res.value == Survivors(raw, toNumeric, parseDate)
    ensures res.Failure? ==> res.error == NoValidTransactions
  {
    var cs2 := Filter(raw, IsTargetGame);
    cs2 := NormalizeTypes(cs2);
    var numeric := CoercePrices(cs2, toNumeric);
    numeric := Filter(numeric, HasRequiredCells);
    var dated := ParseDates(numeric, parseDate);
    dated := Filter(dated, HasDate);
    assert dated == Stages(raw, toNumeric, parseDate);
    StagesMatchSurvivors(raw, toNumeric, parseDate);
    var rows := ToRows(dated);
    if !HasTrade(rows) {
      return Failure(NoValidTransactions);
    }
    return Success(rows);
  }
}
