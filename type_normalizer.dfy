/** `normalize_type`: folds the spellings of a transaction type onto two labels. */
module TypeNormalizer {
  import opened Wrappers
  import opened Strings

  const Purchase: string := "purchase"
  const Sale: string := "sale"

  /** The spellings that mean a purchase, once trimmed and lower-cased. */
  const PurchaseWords: seq<string> := ["purchase", "buy", "bought"]

  /** The spellings that mean a sale, once trimmed and lower-cased. */
  const SaleWords: seq<string> := ["sale", "sell", "sold"]

  /** `str(v).strip().lower()`. */
  function Canonical(s: string): string {
    Lower(Strip(s))
  }

  /** A canonical string is trimmed and has no upper-case letters. */
  lemma CanonicalIsCanonical(s: string)
    ensures IsStrippedBy(Canonical(s), IsSpace)
    ensures IsLower(Canonical(s))
  {
    StripLowerCommute(s);
    LowerIsLower(Strip(s));
  }

  /** The two labels are canonical, distinct, and each belongs to its own word list only. */
  lemma LabelFacts()
    ensures IsStrippedBy(Purchase, IsSpace) && IsLower(Purchase)
    ensures IsStrippedBy(Sale, IsSpace) && IsLower(Sale)
    ensures Purchase in PurchaseWords && Purchase !in SaleWords
    ensures Sale in SaleWords && Sale !in PurchaseWords
    ensures Purchase != Sale
  {
    assert Purchase[0] != Sale[0];
    assert forall w <- SaleWords :: w[0] == 's';
    assert forall w <- PurchaseWords :: w[0] != 's';
  }

  /**
   * A missing type stays missing; a present one becomes `purchase` exactly
   * when it spells a purchase, `sale` exactly when it spells a sale, and
   * otherwise comes out trimmed and lower-cased. Every result is canonical.
   */
  function NormalizeType(v: Option<string>): (r: Option<string>)
    ensures r.None? <==> v.None?
    ensures r.Some? ==> IsStrippedBy(r.value, IsSpace) && IsLower(r.value)
    ensures r.Some? ==> (r.value == Purchase <==> Canonical(v.value) in PurchaseWords)
    ensures r.Some? ==> (r.value == Sale <==> Canonical(v.value) in SaleWords)
    ensures r.Some? && r.value != Purchase && r.value != Sale ==> r.value == Canonical(v.value)
  {
    match v
    case None => None
    case Some(s) =>
      var t := Canonical(s);
      CanonicalIsCanonical(s);
      LabelFacts();
      if t in PurchaseWords then Some(Purchase)
      else if t in SaleWords then Some(Sale)
      else Some(t)
  }

  /** Normalising twice is normalising once, pass-through labels included. */
  lemma NormalizeTypeIdempotent(v: Option<string>)
    ensures NormalizeType(NormalizeType(v)) == NormalizeType(v)
  {
    var r := NormalizeType(v);
    if r.Some? {
      StripByStripped(r.value, IsSpace);
      LowerIsLower(r.value);
      assert Canonical(r.value) == r.value;
    }
  }

  /** Letter case makes no difference: `"BUY"`, `"Buy"` and `"buy"` are one type. */
  lemma NormalizeTypeIgnoresCase(s: string)
    ensures NormalizeType(Some(Lower(s))) == NormalizeType(Some(s))
  {
    StripLowerCommute(s);
    var t := Strip(s);
    LowerIsLower(t);
    assert Lower(Lower(t)) == Lower(t);
  }

  /** Surrounding whitespace makes no difference. */
  lemma NormalizeTypeIgnoresPadding(s: string)
    ensures NormalizeType(Some(Strip(s))) == NormalizeType(Some(s))
  {
    StripByIdempotent(s, IsSpace);
  }

  /** Canonical form of a string that carries no surrounding whitespace. */
  lemma CanonicalOfTrimmed(s: string)
    requires IsStrippedBy(s, IsSpace)
    ensures Canonical(s) == Lower(s)
  {
    StripByStripped(s, IsSpace);
  }

  /** Upper- and mixed-case spellings of both labels. */
  lemma NormalizeTypeExamples()
    ensures NormalizeType(Some("BUY")) == Some(Purchase)
    ensures NormalizeType(Some("Purchase")) == Some(Purchase)
    ensures NormalizeType(Some("Sold")) == Some(Sale)
    ensures NormalizeType(None) == None
  {
    UpperBuy();
    TitlePurchase();
    TitleSold();
  }

  lemma UpperBuy()
    ensures NormalizeType(Some("BUY")) == Some(Purchase)
  {
    assert Lower("BUY") == "buy";
    SpelledOut("BUY", "buy");
    assert "buy" in PurchaseWords;
  }

  lemma TitlePurchase()
    ensures NormalizeType(Some("Purchase")) == Some(Purchase)
  {
    assert Lower("Purchase") == "purchase";
    SpelledOut("Purchase", "purchase");
    assert "purchase" in PurchaseWords;
  }

  lemma TitleSold()
    ensures NormalizeType(Some("Sold")) == Some(Sale)
  {
    assert Lower("Sold") == "sold";
    SpelledOut("Sold", "sold");
    assert "sold" !in PurchaseWords && "sold" in SaleWords;
  }

  /** An unpadded spelling is looked up lower-cased. */
  lemma SpelledOut(s: string, lower: string)
    requires IsStrippedBy(s, IsSpace)
    requires Lower(s) == lower
    ensures NormalizeType(Some(s)) ==
      if lower in PurchaseWords then Some(Purchase)
      else if lower in SaleWords then Some(Sale)
      else Some(lower)
  {
    CanonicalOfTrimmed(s);
  }

  /** A padded spelling is trimmed before the lookup. */
  lemma NormalizeTypePaddedSynonym()
    ensures NormalizeType(Some(" Bought ")) == Some(Purchase)
  {
    var s := " Bought ";
    assert LeadCount(s[1..], IsSpace) == 0;
    assert LeadCount(s, IsSpace) == 1;
    assert KeepLength(s[..7], IsSpace) == 7;
    assert KeepLength(s, IsSpace) == 7;
    assert s[1..7] == "Bought";
    assert Lower("Bought") == "bought";
  }

  /** A pass-through value comes out trimmed and lower-cased. */
  lemma NormalizeTypePaddedOther()
    ensures NormalizeType(Some("Trade ")) == Some("trade")
  {
    var s := "Trade ";
    assert LeadCount(s, IsSpace) == 0;
    assert KeepLength(s[..5], IsSpace) == 5;
    assert KeepLength(s, IsSpace) == 5;
    assert s[0..5] == "Trade";
    assert Lower("Trade") == "trade";
    assert "trade" !in PurchaseWords && "trade" !in SaleWords;
  }
}
