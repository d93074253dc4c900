/**
 * Header handling: the header names are cleaned, the price column is the
 * first one mentioning both "Price" and "Cents", and the four other
 * columns the analysis reads must all be present.
 */
module Headers {
  import opened Wrappers
  import opened Strings
  import Seqs
  import opened Frame

  /** The columns the analysis needs besides the price column, in reporting order. */
  const RequiredCols: seq<string> := ["Game Name", "Acted On", "Type", "Market Name"]

  /** A character header cleaning may cut from either end. */
  predicate IsHeaderPadding(c: char) {
    IsSpace(c) || IsQuote(c) || IsApostrophe(c)
  }

  /** `col.strip().strip('"').strip("'")`. */
  function CleanHeader(col: string): (r: string)
    ensures |r| > 0 ==> !IsApostrophe(r[0]) && !IsApostrophe(r[|r| - 1])
  {
    StripBy(StripBy(Strip(col), IsQuote), IsApostrophe)
  }

  /** Every character of `x` is accepted by `pad`. */
  predicate AllPad(x: string, pad: char -> bool) {
    forall i :: 0 <= i < |x| ==> pad(x[i])
  }

  lemma AllPadConcat(x: string, y: string, pad: char -> bool)
    requires AllPad(x, pad) && AllPad(y, pad)
    ensures AllPad(x + y, pad)
  {
  }

  /** A strip splits its input into a dropped prefix, the result and a dropped suffix. */
  lemma StripBySplit(s: string, drop: char -> bool, pad: char -> bool) returns (pre: string, post: string)
    requires forall c :: drop(c) ==> pad(c)
    ensures s == pre + StripBy(s, drop) + post
    ensures AllPad(pre, pad) && AllPad(post, pad)
  {
    var a := LeadCount(s, drop);
    var r := StripBy(s, drop);
    var b := a + |r|;
    pre := s[..a];
    post := s[b..];
    assert s == pre + s[a..b] + post;
    forall i | 0 <= i < |pre| ensures pad(pre[i]) {
      assert drop(s[i]);
    }
    forall i | 0 <= i < |post| ensures pad(post[i]) {
      assert drop(s[b + i]);
    }
  }

  /** A padded run of a padded run of `col` is a padded run of `col`. */
  lemma PadCompose(col: string, s: string, r: string, pre1: string, post1: string,
                   pre2: string, post2: string, pad: char -> bool)
    requires col == pre1 + s + post1 && AllPad(pre1, pad) && AllPad(post1, pad)
    requires s == pre2 + r + post2 && AllPad(pre2, pad) && AllPad(post2, pad)
    ensures col == (pre1 + pre2) + r + (post2 + post1)
    ensures AllPad(pre1 + pre2, pad) && AllPad(post2 + post1, pad)
  {
    AllPadConcat(pre1, pre2, pad);
    AllPadConcat(post2, post1, pad);
  }

  /** Three strips in a row, each dropping only `pad` characters, cut only `pad` characters. */
  lemma StripThriceSplit(col: string, d1: char -> bool, d2: char -> bool, d3: char -> bool, pad: char -> bool)
    returns (pre: string, post: string)
    requires forall c :: d1(c) ==> pad(c)
    requires forall c :: d2(c) ==> pad(c)
    requires forall c :: d3(c) ==> pad(c)
    ensures col == pre + StripBy(StripBy(StripBy(col, d1), d2), d3) + post
    ensures AllPad(pre, pad) && AllPad(post, pad)
  {
    var s1 := StripBy(col, d1);
    var s2 := StripBy(s1, d2);
    var pre1, post1 := StripBySplit(col, d1, pad);
    var pre2, post2 := StripBySplit(s1, d2, pad);
    var pre3, post3 := StripBySplit(s2, d3, pad);
    PadCompose(col, s1, s2, pre1, post1, pre2, post2, pad);
    PadCompose(col, s2, StripBy(s2, d3), pre1 + pre2, post2 + post1, pre3, post3, pad);
    pre, post := pre1 + pre2 + pre3, post3 + (post2 + post1);
  }

  /**
   * Cleaning only cuts padding characters off the ends: the original is the
   * cleaned name with only whitespace and quote characters before and after it.
   */
  lemma CleanHeaderCutsPadding(col: string)
    ensures exists pre, post :: && col == pre + CleanHeader(col) + post
                                && AllPad(pre, IsHeaderPadding) && AllPad(post, IsHeaderPadding)
  {
    var pre, post := StripThriceSplit(col, IsSpace, IsQuote, IsApostrophe, IsHeaderPadding);
  }

  /** Cleaning is not idempotent: a second pass can cut quotes the first pass exposed. */
  lemma CleanHeaderNotIdempotent()
    ensures CleanHeader("'\"a\"'") == "\"a\""
    ensures CleanHeader(CleanHeader("'\"a\"'")) == "a"
  {
    CleanQuotedOnce();
    CleanQuotedTwice();
  }

  lemma CleanQuotedOnce()
    ensures CleanHeader("'\"a\"'") == "\"a\""
  {
    var s := "'\"a\"'";
    StripByStripped(s, IsSpace);
    StripByStripped(s, IsQuote);
    StripByOnePair(s, IsApostrophe);
    assert s[1..4] == "\"a\"";
  }

  lemma CleanQuotedTwice()
    ensures CleanHeader("\"a\"") == "a"
  {
    var t := "\"a\"";
    StripByStripped(t, IsSpace);
    StripByOnePair(t, IsQuote);
    assert t[1..2] == "a";
    StripByStripped("a", IsApostrophe);
  }

  /** The cleaned header row (line 15). */
  function CleanHeaders(cols: seq<string>): (names: seq<string>)
    ensures |names| == |cols|
    ensures forall i :: 0 <= i < |names| ==> names[i] == CleanHeader(cols[i])
  {
    Seqs.Map(cols, CleanHeader)
  }

  /** A header that mentions both "Price" and "Cents" (case-sensitive). */
  predicate IsPriceColumn(name: string) {
    Contains(name, "Price") && Contains(name, "Cents")
  }

  /**
   * The index of the first price column, or `None` when no header
   * qualifies (`next(..., None)` at line 18).
   */
  function PriceColumn(names: seq<string>): (r: Option<nat>)
    ensures r.Some? ==> r.value < |names| && IsPriceColumn(names[r.value])
    ensures r.Some? ==> forall j :: 0 <= j < r.value ==> !IsPriceColumn(names[j])
    ensures r.None? ==> forall j :: 0 <= j < |names| ==> !IsPriceColumn(names[j])
  {
    if names == [] then None
    else if IsPriceColumn(names[0]) then Some(0)
    else match PriceColumn(names[1..])
      case None => None
      case Some(k) => Some(k + 1)
  }

  /** The names of `wanted` that are not among `names`, in the order of `wanted`. */
  function Absent(wanted: seq<string>, names: seq<string>): (m: seq<string>)
    ensures forall c :: c in m <==> c in wanted && c !in names
    ensures Seqs.Subsequence(m, wanted)
  {
    if wanted == [] then []
    else
      var rest := Absent(wanted[1..], names);
      if wanted[0] !in names then [wanted[0]] + rest else rest
  }

  /** `missing_cols` (line 25): the required columns the header row lacks. */
  function MissingColumnsOf(names: seq<string>): seq<string> {
    Absent(RequiredCols, names)
  }

  /** The outcome of header handling: the cleaned names and the price column's index. */
  datatype Columns = Columns(names: seq<string>, price: nat)

  /**
   * Lines 15-28: clean the headers, then stop if there is no price column,
   * then stop if a required column is missing, listing the missing ones
   * in the order of `RequiredCols`.
   */
  function CheckHeaders(cols: seq<string>): (r: Result<Columns, Failure>)
    ensures r.Failure? ==> r.error.NoPriceColumn? || r.error.MissingColumns?
    ensures r.Success? ==> r.value.names == CleanHeaders(cols)
    ensures r.Success? ==>
      && r.value.price < |r.value.names|
      && IsPriceColumn(r.value.names[r.value.price])
      && (forall j :: 0 <= j < r.value.price ==> !IsPriceColumn(r.value.names[j]))
    ensures r.Success? ==> forall c :: c in RequiredCols ==> c in r.value.names
    ensures (r.Failure? && r.error.NoPriceColumn?) <==>
      forall j :: 0 <= j < |cols| ==> !IsPriceColumn(CleanHeaders(cols)[j])
    ensures r.Failure? && r.error.NoPriceColumn? ==> r.error.available == CleanHeaders(cols)
    ensures r.Failure? && r.error.MissingColumns? ==>
      && r.error.missing != []
      && (forall c :: c in r.error.missing <==> c in RequiredCols && c !in CleanHeaders(cols))
      && Seqs.Subsequence(r.error.missing, RequiredCols)
      && r.error.available == CleanHeaders(cols)
  {
    var names := CleanHeaders(cols);
    match PriceColumn(names)
    case None => Failure(NoPriceColumn(names))
    case Some(p) =>
      var missing := MissingColumnsOf(names);
      if missing != [] then Failure(MissingColumns(missing, names))
      else Success(Columns(names, p))
  }
}
