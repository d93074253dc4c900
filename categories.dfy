/** `categorize_item`: a first-match-wins substring classifier of item names. */
module Categories {
  import opened Wrappers
  import opened Strings

  /** The five buckets of the bar chart, plus the label for a missing name. */
  datatype Category = Capsules | Cases | Charms | Stickers | Weapons | Unknown

  /**
   * A missing name is `Unknown`; otherwise the first of "Capsule",
   * "Case", "Charm", "Sticker" that occurs in the name picks the
   * category, and a name containing none of them is `Weapons`.
   */
  function Categorize(name: Option<string>): (c: Category)
    ensures c == Unknown <==> name.None?
    ensures name.Some? ==> (c == Capsules <==> Occurs(name.value, "Capsule"))
    ensures name.Some? ==> (c == Cases <==>
      !Occurs(name.value, "Capsule") && Occurs(name.value, "Case"))
    ensures name.Some? ==> (c == Charms <==>
      !Occurs(name.value, "Capsule") && !Occurs(name.value, "Case") && Occurs(name.value, "Charm"))
    ensures name.Some? ==> (c == Stickers <==>
      !Occurs(name.value, "Capsule") && !Occurs(name.value, "Case") && !Occurs(name.value, "Charm")
      && Occurs(name.value, "Sticker"))
    ensures name.Some? ==> (c == Weapons <==>
      !Occurs(name.value, "Capsule") && !Occurs(name.value, "Case") && !Occurs(name.value, "Charm")
      && !Occurs(name.value, "Sticker"))
  {
    match name
    case None => Unknown
    case Some(n) =>
      ContainsIff(n, "Capsule");
      ContainsIff(n, "Case");
      ContainsIff(n, "Charm");
      ContainsIff(n, "Sticker");
      if Contains(n, "Capsule") then Capsules
      else if Contains(n, "Case") then Cases
      else if Contains(n, "Charm") then Charms
      else if Contains(n, "Sticker") then Stickers
      else Weapons
  }

  /** "Capsule" wins over every later marker, "Case" above all. */
  lemma CapsuleBeatsCase(name: string)
    requires Occurs(name, "Capsule") && Occurs(name, "Case")
    ensures Categorize(Some(name)) == Capsules
  {
  }

  /** A sample name for each bucket, including a weapon skin whose name mentions "Case". */
  lemma CategorizeExamples()
    ensures Categorize(Some("Sticker Capsule Case")) == Capsules
    ensures Categorize(Some("AK-47 | Case Hardened")) == Cases
    ensures Categorize(None) == Unknown
  {
    assert OccursAt("Sticker Capsule Case", "Capsule", 8);
    assert OccursAt("AK-47 | Case Hardened", "Case", 8);
    NoCapsuleInSkin();
  }

  lemma NoCapsuleInSkin()
    ensures !Occurs("AK-47 | Case Hardened", "Capsule")
  {
    var s := "AK-47 | Case Hardened";
    forall i: nat | i + 7 <= |s| ensures !OccursAt(s, "Capsule", i) {
      assert s[i] != 'C' || s[i + 2] != 'p';
      assert s[i..i + 7][0] == s[i] && s[i..i + 7][2] == s[i + 2];
    }
  }
}
