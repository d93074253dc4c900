/**
 * The aggregations of lines 64-150 over the cleaned rows, in integer
 * cents: the summary totals and counts, the most-purchased item, the
 * highest transaction, per-item details, per-category bars, the per-day
 * per-item series and the purchase/sale distribution.
 */
module Aggregates {
  import opened Wrappers
  import opened Seqs
  import opened Groups
  import opened Frame
  import opened Categories
  import opened TypeNormalizer
  import opened Strings

  predicate IsPurchase(r: Row) { r.typ == Purchase }

  predicate IsSale(r: Row) { r.typ == Sale }

  predicate IsTrade(r: Row) { IsPurchase(r) || IsSale(r) }

  function PriceOf(r: Row): int { r.priceCents }

  function ItemOf(r: Row): string { r.item }

  function TypeOf(r: Row): string { r.typ }

  /** Line 122: the category column. */
  function CategoryOf(r: Row): Category { Categorize(Some(r.item)) }

  /** Line 132: the grouping key of the series (the date stands for its ISO string). */
  function DateItemOf(r: Row): (Date, string) { (r.date, r.item) }

  /** Lines 64-65: the purchase and sale sub-tables. */
  function Purchases(rows: seq<Row>): seq<Row> { Filter(rows, IsPurchase) }

  function Sales(rows: seq<Row>): seq<Row> { Filter(rows, IsSale) }

  /** Line 66, in cents. */
  function TotalSpent(rows: seq<Row>): int { Total(Purchases(rows), PriceOf) }

  /** Line 67, in cents. */
  function TotalEarned(rows: seq<Row>): int { Total(Sales(rows), PriceOf) }

  // ---------------------------------------------------------------- totals

  /**
   * Lines 66-68 for a history whose prices are not negative: neither total
   * is negative, so the net flow never exceeds the earnings.
   */
  lemma TotalsNonNegative(rows: seq<Row>)
    requires forall i :: 0 <= i < |rows| ==> rows[i].priceCents >= 0
    ensures 0 <= TotalSpent(rows) && 0 <= TotalEarned(rows)
    ensures TotalEarned(rows) - TotalSpent(rows) <= TotalEarned(rows)
  {
    var p := Purchases(rows);
    var q := Sales(rows);
    assert forall i :: 0 <= i < |p| ==> PriceOf(p[i]) >= 0 by {
      forall i | 0 <= i < |p| ensures PriceOf(p[i]) >= 0 {
        var j :| 0 <= j < |rows| && rows[j] == p[i];
      }
    }
    assert forall i :: 0 <= i < |q| ==> PriceOf(q[i]) >= 0 by {
      forall i | 0 <= i < |q| ensures PriceOf(q[i]) >= 0 {
        var j :| 0 <= j < |rows| && rows[j] == q[i];
      }
    }
    TotalNonNegative(p, PriceOf);
    TotalNonNegative(q, PriceOf);
  }

  /**
   * Lines 69-70: every purchase or sale row is counted once, in exactly
   * one of the two counts, and rows of any other type in neither.
   */
  lemma {:induction false} TradeCounts(rows: seq<Row>)
    ensures |Purchases(rows)| + |Sales(rows)| == |Filter(rows, IsTrade)|
    ensures |Filter(rows, IsTrade)| <= |rows|
  {
    if rows != [] {
      TradeCounts(rows[1..]);
    }
  }

  // ------------------------------------------------------ highest transaction

  /** `idxmax` over the prices: the first position holding the largest price. */
  function FirstMaxIndex(rows: seq<Row>): (k: nat)
    requires rows != []
    ensures k < |rows|
    ensures forall j :: 0 <= j < |rows| ==> rows[j].priceCents <= rows[k].priceCents
    ensures forall j :: 0 <= j < k ==> rows[j].priceCents < rows[k].priceCents
  {
    if |rows| == 1 then 0
    else
      var k := FirstMaxIndex(rows[1..]) + 1;
      assert forall j :: 1 <= j < |rows| ==> rows[j] == rows[1..][j - 1];
      if rows[0].priceCents >= rows[k].priceCents then 0 else k
  }

  /** The `highest_transaction` record of the summary. */
  datatype Highest = Highest(marketName: string, priceCents: int, typ: string)

  /**
   * Lines 72 and 94-98: the first row with the largest price, or the
   * defaults "None", 0 and "" for an empty table.
   */
  function HighestTransaction(rows: seq<Row>): (h: Highest)
    ensures rows == [] ==> h == Highest("None", 0, "")
    ensures rows != [] ==> exists k ::
      && 0 <= k < |rows|
      && h == Highest(rows[k].item, rows[k].priceCents, rows[k].typ)
      && (forall j :: 0 <= j < |rows| ==> rows[j].priceCents <= h.priceCents)
      && (forall j :: 0 <= j < k ==> rows[j].priceCents < h.priceCents)
  {
    if rows == [] then Highest("None", 0, "")
    else
      var k := FirstMaxIndex(rows);
      Highest(rows[k].item, rows[k].priceCents, rows[k].typ)
  }

  // --------------------------------------------------------- most purchased

  /** How many purchase rows name `item` (`purchases["Market Name"].value_counts()`). */
  function PurchaseCountOf(rows: seq<Row>, item: string): int {
    GroupTotal(Purchases(rows), ItemOf, item, One)
  }

  /**
   * Line 71: "None" when nothing was bought, and otherwise an item bought
   * at least as often as any other. Ties are left to the implementation.
   */
  function MostPurchased(rows: seq<Row>): (m: string)
    ensures Purchases(rows) == [] ==> m == "None"
    ensures Purchases(rows) != [] ==> PurchaseCountOf(rows, m) >= 1
    ensures Purchases(rows) != [] ==>
      forall item :: PurchaseCountOf(rows, item) <= PurchaseCountOf(rows, m)
  {
    var p := Purchases(rows);
    if p == [] then "None"
    else
      var items := DistinctKeys(p, ItemOf);
      assert ItemOf(p[0]) in items;
      var m := ArgMax(items, item => PurchaseCountOf(rows, item));
      assert PurchaseCountOf(rows, m) >= 1 by {
        GroupOfPresentKey(p, ItemOf, m);
        TotalOne(WithKey(p, ItemOf, m));
      }
      assert forall item :: PurchaseCountOf(rows, item) <= PurchaseCountOf(rows, m) by {
        forall item ensures PurchaseCountOf(rows, item) <= PurchaseCountOf(rows, m) {
          if !HasKey(p, ItemOf, item) {
            GroupOfAbsentKey(p, ItemOf, item);
          }
        }
      }
      m
  }

  // ----------------------------------------------------------- item details

  /** One entry of a `type_breakdown`: a type and how many rows have it. */
  datatype TypeCount = TypeCount(typ: string, count: int)

  /** One record of `item_details`. */
  datatype ItemDetail = ItemDetail(item: string, transactionCount: int, priceSum: int, typeBreakdown: seq<TypeCount>)

  function BreakdownFor(mine: seq<Row>, types: seq<string>): seq<TypeCount> {
    if types == [] then []
    else [TypeCount(types[0], GroupTotal(mine, TypeOf, types[0], One))] + BreakdownFor(mine, types[1..])
  }

  /** `x.value_counts().to_dict()` over the type cells of one item's rows. */
  function Breakdown(mine: seq<Row>): seq<TypeCount> {
    BreakdownFor(mine, DistinctKeys(mine, TypeOf))
  }

  /** The record of line 75-84 for one item. */
  function DetailOf(rows: seq<Row>, item: string): ItemDetail {
    ItemDetail(item,
      GroupTotal(rows, ItemOf, item, One),
      GroupTotal(rows, ItemOf, item, PriceOf),
      Breakdown(WithKey(rows, ItemOf, item)))
  }

  function DetailsFor(rows: seq<Row>, items: seq<string>): seq<ItemDetail> {
    if items == [] then [] else [DetailOf(rows, items[0])] + DetailsFor(rows, items[1..])
  }

  /** Lines 75-84: one record per distinct item (in order of first occurrence). */
  function ItemDetails(rows: seq<Row>): seq<ItemDetail> {
    DetailsFor(rows, DistinctKeys(rows, ItemOf))
  }

  function SumTransactionCounts(ds: seq<ItemDetail>): int {
    if ds == [] then 0 else ds[0].transactionCount + SumTransactionCounts(ds[1..])
  }

  function SumPriceSums(ds: seq<ItemDetail>): int {
    if ds == [] then 0 else ds[0].priceSum + SumPriceSums(ds[1..])
  }

  function SumTypeCounts(bs: seq<TypeCount>): int {
    if bs == [] then 0 else bs[0].count + SumTypeCounts(bs[1..])
  }

  lemma {:induction false} DetailsForSums(rows: seq<Row>, items: seq<string>)
    ensures SumTransactionCounts(DetailsFor(rows, items)) == SumOverKeys(rows, ItemOf, One, items)
    ensures SumPriceSums(DetailsFor(rows, items)) == SumOverKeys(rows, ItemOf, PriceOf, items)
  {
    if items != [] {
      DetailsForSums(rows, items[1..]);
    }
  }

  lemma {:induction false} BreakdownForSum(mine: seq<Row>, types: seq<string>)
    ensures SumTypeCounts(BreakdownFor(mine, types)) == SumOverKeys(mine, TypeOf, One, types)
  {
    if types != [] {
      BreakdownForSum(mine, types[1..]);
    }
  }

  /**
   * Conservation across `item_details`: the transaction counts add up to
   * the number of rows and the price sums to the total of all prices.
   */
  lemma ItemDetailsConserve(rows: seq<Row>)
    ensures SumTransactionCounts(ItemDetails(rows)) == |rows|
    ensures SumPriceSums(ItemDetails(rows)) == Total(rows, PriceOf)
  {
    DetailsForSums(rows, DistinctKeys(rows, ItemOf));
    GroupsAddUp(rows, ItemOf, One);
    GroupsAddUp(rows, ItemOf, PriceOf);
    TotalOne(rows);
  }

  /** Each item's `type_breakdown` counts add up to its `transaction_count`. */
  lemma {:induction false} BreakdownConserves(rows: seq<Row>, item: string)
    ensures SumTypeCounts(DetailOf(rows, item).typeBreakdown) == DetailOf(rows, item).transactionCount
  {
    var mine := WithKey(rows, ItemOf, item);
    BreakdownForSum(mine, DistinctKeys(mine, TypeOf));
    GroupsAddUp(mine, TypeOf, One);
  }

  lemma {:induction false} DetailsForItems(rows: seq<Row>, items: seq<string>)
    ensures |DetailsFor(rows, items)| == |items|
    ensures forall i :: 0 <= i < |items| ==> DetailsFor(rows, items)[i] == DetailOf(rows, items[i])
  {
    if items != [] {
      var tail := items[1..];
      DetailsForItems(rows, tail);
      var ds := DetailsFor(rows, items);
      assert ds == [DetailOf(rows, items[0])] + DetailsFor(rows, tail);
      forall i | 0 <= i < |items| ensures ds[i] == DetailOf(rows, items[i]) {
        if i > 0 {
          assert ds[i] == DetailsFor(rows, tail)[i - 1];
          assert tail[i - 1] == items[i];
        }
      }
    }
  }

  /** The records of `DetailsFor` name the given items, in order. */
  lemma {:induction false} DetailsForNames(rows: seq<Row>, items: seq<string>)
    ensures |DetailsFor(rows, items)| == |items|
    ensures forall i :: 0 <= i < |items| ==> DetailsFor(rows, items)[i].item == items[i]
  {
    if items != [] {
      var tail := items[1..];
      DetailsForNames(rows, tail);
      var ds := DetailsFor(rows, items);
      assert ds == [DetailOf(rows, items[0])] + DetailsFor(rows, tail);
      forall i | 0 <= i < |items| ensures ds[i].item == items[i] {
        if i > 0 {
          assert ds[i] == DetailsFor(rows, tail)[i - 1];
          assert tail[i - 1] == items[i];
        }
      }
    }
  }

  /** Every item of the table has a record. */
  lemma ItemDetailsCover(rows: seq<Row>)
    ensures forall i :: 0 <= i < |rows| ==>
      exists j :: 0 <= j < |ItemDetails(rows)| && ItemDetails(rows)[j].item == rows[i].item
  {
    var items := DistinctKeys(rows, ItemOf);
    DetailsForNames(rows, items);
    forall i | 0 <= i < |rows|
      ensures exists j :: 0 <= j < |ItemDetails(rows)| && ItemDetails(rows)[j].item == rows[i].item
    {
      var j :| 0 <= j < |items| && items[j] == ItemOf(rows[i]);
      assert ItemDetails(rows)[j].item == rows[i].item;
    }
  }

  /** No item has two records. */
  lemma ItemDetailsDistinct(rows: seq<Row>)
    ensures forall i, j :: 0 <= i < j < |ItemDetails(rows)| ==> ItemDetails(rows)[i].item != ItemDetails(rows)[j].item
  {
    DetailsForNames(rows, DistinctKeys(rows, ItemOf));
  }

  /** Every record counts at least one row, and its breakdown adds up to that count. */
  lemma ItemDetailsCounts(rows: seq<Row>)
    ensures forall j :: 0 <= j < |ItemDetails(rows)| ==>
      && ItemDetails(rows)[j].transactionCount >= 1
      && SumTypeCounts(ItemDetails(rows)[j].typeBreakdown) == ItemDetails(rows)[j].transactionCount
  {
    var items := DistinctKeys(rows, ItemOf);
    DetailsForItems(rows, items);
    forall j | 0 <= j < |items|
      ensures ItemDetails(rows)[j].transactionCount >= 1
      ensures SumTypeCounts(ItemDetails(rows)[j].typeBreakdown) == ItemDetails(rows)[j].transactionCount
    {
      GroupOfPresentKey(rows, ItemOf, items[j]);
      TotalOne(WithKey(rows, ItemOf, items[j]));
      BreakdownConserves(rows, items[j]);
    }
  }

  // -------------------------------------------------------------- bar data

  /** One record of `bar_data`, in cents. */
  datatype BarEntry = BarEntry(category: Category, spent: int, earned: int)

  /** The price of a purchase row, zero for any other row. */
  function SpentWeight(r: Row): int { if IsPurchase(r) then r.priceCents else 0 }

  /** The price of a sale row, zero for any other row. */
  function EarnedWeight(r: Row): int { if IsSale(r) then r.priceCents else 0 }

  function BarsFor(rows: seq<Row>, cats: seq<Category>): seq<BarEntry> {
    if cats == [] then []
    else [BarEntry(cats[0], GroupTotal(rows, CategoryOf, cats[0], SpentWeight),
                   GroupTotal(rows, CategoryOf, cats[0], EarnedWeight))]
         + BarsFor(rows, cats[1..])
  }

  /**
   * Lines 122-126 as evidently intended: one record per category that
   * occurs, with its purchase and sale sums, a missing combination being 0.
   */
  function BarData(rows: seq<Row>): seq<BarEntry> {
    BarsFor(rows, DistinctKeys(rows, CategoryOf))
  }

  /**
   * Lines 122-126 as written: `melt(value_vars=["purchase", "sale"])`
   * fails unless both types occur in the table, naming the absent ones.
   */
  function BarDataAsWritten(rows: seq<Row>): (r: Result<seq<BarEntry>, seq<string>>)
    ensures r.Failure? <==> Purchases(rows) == [] || Sales(rows) == []
    ensures r.Failure? ==>
      && (Purchase in r.error <==> Purchases(rows) == [])
      && (Sale in r.error <==> Sales(rows) == [])
    ensures r.Success? ==> r.value == BarData(rows)
  {
    var missing := (if Purchases(rows) == [] then [Purchase] else []) + (if Sales(rows) == [] then [Sale] else []);
    if missing != [] then Failure(missing) else Success(BarData(rows))
  }

  lemma FractureCaseIsCase()
    ensures Categorize(Some("Fracture Case")) == Cases
  {
    var s := "Fracture Case";
    assert OccursAt(s, "Case", 9);
    forall i: nat | i + 7 <= |s| ensures !OccursAt(s, "Capsule", i) {
      assert s[i] != 'C';
      assert s[i..i + 7][0] == s[i];
    }
  }

  /** The one-row history of the counterexample: a single case bought for 50 cents. */
  function CaseBought(): Row {
    Row(TargetGame, Date(1, 5), Purchase, "Fracture Case", 50)
  }

  /** A history with a purchase and no sale makes the written bar step fail. */
  lemma OnlyPurchasesBreakBars()
    ensures BarDataAsWritten([CaseBought()]) == Failure([Sale])
  {
    var r := CaseBought();
    FilterSingle(r, IsPurchase);
    FilterSingle(r, IsSale);
    assert IsPurchase(r);
    assert !IsSale(r) by {
      assert r.typ[0] != Sale[0];
    }
    assert Purchases([r]) == [r];
    assert Sales([r]) == [];
    var none: seq<string> := [];
    assert none + [Sale] == [Sale];
  }

  /** For that history the intended bars exist: one category, spent 50, earned 0. */
  lemma OnlyPurchasesIntendedBars()
    ensures BarData([CaseBought()]) == [BarEntry(Cases, 50, 0)]
  {
    var r := CaseBought();
    var rows := [r];
    FractureCaseIsCase();
    assert DistinctKeys(rows, CategoryOf) == [Cases] by {
      assert rows[..0] == [];
    }
    assert WithKey(rows, CategoryOf, Cases) == [r] by {
      assert rows[1..] == [];
    }
    assert Total([r], SpentWeight) == 50 && Total([r], EarnedWeight) == 0 by {
      assert [r][1..] == [];
    }
    assert BarsFor(rows, [Cases]) == [BarEntry(Cases, 50, 0)] + BarsFor(rows, []);
  }

  function SumSpent(bars: seq<BarEntry>): int {
    if bars == [] then 0 else bars[0].spent + SumSpent(bars[1..])
  }

  function SumEarned(bars: seq<BarEntry>): int {
    if bars == [] then 0 else bars[0].earned + SumEarned(bars[1..])
  }

  lemma {:induction false} BarsForSums(rows: seq<Row>, cats: seq<Category>)
    ensures SumSpent(BarsFor(rows, cats)) == SumOverKeys(rows, CategoryOf, SpentWeight, cats)
    ensures SumEarned(BarsFor(rows, cats)) == SumOverKeys(rows, CategoryOf, EarnedWeight, cats)
  {
    if cats != [] {
      BarsForSums(rows, cats[1..]);
    }
  }

  /** The `spent` bars add up to `total_spent` and the `earned` bars to `total_earned`. */
  lemma BarDataConserves(rows: seq<Row>)
    ensures SumSpent(BarData(rows)) == TotalSpent(rows)
    ensures SumEarned(BarData(rows)) == TotalEarned(rows)
  {
    BarsForSums(rows, DistinctKeys(rows, CategoryOf));
    GroupsAddUp(rows, CategoryOf, SpentWeight);
    GroupsAddUp(rows, CategoryOf, EarnedWeight);
    TotalMasked(rows, IsPurchase, PriceOf, SpentWeight);
    TotalMasked(rows, IsSale, PriceOf, EarnedWeight);
  }

  // ------------------------------------------------------------- line data

  /** One record of `line_data`: a day, an item, the price sum in cents and the row count. */
  datatype LineEntry = LineEntry(date: Date, item: string, value: int, count: int)

  function LinesFor(rows: seq<Row>, keys: seq<(Date, string)>): seq<LineEntry> {
    if keys == [] then []
    else [LineEntry(keys[0].0, keys[0].1, GroupTotal(rows, DateItemOf, keys[0], PriceOf),
                    GroupTotal(rows, DateItemOf, keys[0], One))]
         + LinesFor(rows, keys[1..])
  }

  /** Lines 132-141: one record per (day, item) that occurs. */
  function LineData(rows: seq<Row>): seq<LineEntry> {
    LinesFor(rows, DistinctKeys(rows, DateItemOf))
  }

  function SumLineValues(lines: seq<LineEntry>): int {
    if lines == [] then 0 else lines[0].value + SumLineValues(lines[1..])
  }

  function SumLineCounts(lines: seq<LineEntry>): int {
    if lines == [] then 0 else lines[0].count + SumLineCounts(lines[1..])
  }

  lemma {:induction false} LinesForSums(rows: seq<Row>, keys: seq<(Date, string)>)
    ensures SumLineValues(LinesFor(rows, keys)) == SumOverKeys(rows, DateItemOf, PriceOf, keys)
    ensures SumLineCounts(LinesFor(rows, keys)) == SumOverKeys(rows, DateItemOf, One, keys)
  {
    if keys != [] {
      LinesForSums(rows, keys[1..]);
    }
  }

  /** The series' counts add up to the row count and its values to the total price. */
  lemma LineDataConserves(rows: seq<Row>)
    ensures SumLineCounts(LineData(rows)) == |rows|
    ensures SumLineValues(LineData(rows)) == Total(rows, PriceOf)
  {
    LinesForSums(rows, DistinctKeys(rows, DateItemOf));
    GroupsAddUp(rows, DateItemOf, PriceOf);
    GroupsAddUp(rows, DateItemOf, One);
    TotalOne(rows);
  }

  // -------------------------------------------------------------- pie data

  /** One slice of `pie_data`. */
  datatype PieEntry = PieEntry(name: string, value: nat)

  /** Lines 147-150. */
  function PieData(rows: seq<Row>): (pie: seq<PieEntry>)
    ensures |pie| == 2 && pie[0].name == "Purchases" && pie[1].name == "Sales"
    ensures pie[0].value == |Purchases(rows)| && pie[1].value == |Sales(rows)|
    ensures pie[0].value + pie[1].value == |Filter(rows, IsTrade)|
  {
    TradeCounts(rows);
    [PieEntry("Purchases", |Purchases(rows)|), PieEntry("Sales", |Sales(rows)|)]
  }

  // --------------------------------------------------------------- summary

  /** `summary.json`, with money in cents. */
  datatype Summary = Summary(
    totalSpent: int,
    totalEarned: int,
    netFlow: int,
    purchaseCount: nat,
    saleCount: nat,
    mostPurchased: string,
    highest: Highest,
    itemDetails: seq<ItemDetail>)

  /**
   * Lines 64-100. The net flow is exactly the earnings minus the spending,
   * the two counts cover exactly the purchase and sale rows, and the item
   * details account for every row and every cent.
   */
  function BuildSummary(rows: seq<Row>): (s: Summary)
    ensures s.totalSpent == TotalSpent(rows) && s.totalEarned == TotalEarned(rows)
    ensures s.purchaseCount == |Purchases(rows)| && s.saleCount == |Sales(rows)|
    ensures s.mostPurchased == MostPurchased(rows) && s.highest == HighestTransaction(rows)
    ensures s.itemDetails == ItemDetails(rows)
    ensures s.netFlow == s.totalEarned - s.totalSpent
    ensures s.purchaseCount + s.saleCount == |Filter(rows, IsTrade)| <= |rows|
    ensures SumTransactionCounts(s.itemDetails) == |rows|
    ensures SumPriceSums(s.itemDetails) == Total(rows, PriceOf)
    ensures rows != [] ==> forall j :: 0 <= j < |rows| ==> rows[j].priceCents <= s.highest.priceCents
  {
    TradeCounts(rows);
    ItemDetailsConserve(rows);
    var spent := TotalSpent(rows);
    var earned := TotalEarned(rows);
    Summary(spent, earned, earned - spent, |Purchases(rows)|, |Sales(rows)|,
      MostPurchased(rows), HighestTransaction(rows), ItemDetails(rows))
  }

  /** The four JSON documents a run writes. */
  datatype Report = Report(summary: Summary, bars: seq<BarEntry>, lines: seq<LineEntry>, pie: seq<PieEntry>)

  /**
   * Lines 64-150: the four documents agree with each other. The bars add
   * up to the summary's totals, the series and the item details to the
   * same count and price total, and the pie to the summary's counts.
   */
  function BuildReport(rows: seq<Row>): (rep: Report)
    ensures SumSpent(rep.bars) == rep.summary.totalSpent
    ensures SumEarned(rep.bars) == rep.summary.totalEarned
    ensures SumLineCounts(rep.lines) == SumTransactionCounts(rep.summary.itemDetails) == |rows|
    ensures SumLineValues(rep.lines) == SumPriceSums(rep.summary.itemDetails)
    ensures |rep.pie| == 2
      && rep.pie[0].value == rep.summary.purchaseCount
      && rep.pie[1].value == rep.summary.saleCount
  {
    BarDataConserves(rows);
    LineDataConserves(rows);
    Report(BuildSummary(rows), BarData(rows), LineData(rows), PieData(rows))
  }
}
