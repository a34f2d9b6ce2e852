/**
 * The unit tests of src/gildedrose.rs as lemmas, each stating what one pass makes of a
 * one-item collection, plus two further one-item cases (Aged Brie past its date at 49, and a
 * Conjured item). Beside them sit helper lemmas about the test names and one client that runs
 * a test through the shop class itself.
 */
module Scenarios {
  import opened Strings
  import opened Aging
  import opened Rules

  /** A name without a capital S contains neither spelling of Sulfuras. */
  lemma WithoutCapitalS(name: string)
    requires 'S' !in name
    ensures !Contains(name, Sulfuras) && !Contains(name, Sulfaras)
  {
    AbsentFirstChar(name, Sulfuras);
    AbsentFirstChar(name, Sulfaras);
  }

  /** A name without a capital S or B contains none of the markers. */
  lemma WithoutCapitals(name: string)
    requires 'S' !in name && 'B' !in name
    ensures !Contains(name, Sulfuras) && !Contains(name, Sulfaras) && !Contains(name, BackstagePasses)
  {
    WithoutCapitalS(name);
    AbsentFirstChar(name, BackstagePasses);
  }

  /** "Item" contains none of the markers. */
  lemma ItemName()
    ensures IsNormal("Item") && !Contains("Item", Sulfaras)
  {
  }

  /** "Backstage passes" is a pass and contains neither spelling of Sulfuras. */
  lemma PassName()
    ensures Contains(BackstagePasses, BackstagePasses)
    ensures !Contains(BackstagePasses, Sulfuras) && !Contains(BackstagePasses, Sulfaras)
  {
    ContainsSelf(BackstagePasses);
    WithoutCapitalS(BackstagePasses);
  }

  /** "Sulfuras" is legendary and does not contain "Sulfaras". */
  lemma SulfurasName()
    ensures IsLegendary(Sulfuras) && !Contains(Sulfuras, Sulfaras)
  {
  }

  /** "Conjured Mana Cake" contains none of the markers. */
  lemma ConjuredName()
    ensures IsNormal("Conjured Mana Cake") && !Contains("Conjured Mana Cake", Sulfaras)
  {
    WithoutCapitals("Conjured Mana Cake");
  }

  /** Sulfuras at 20 days and quality 80 keeps both. */
  lemma SulfurasUnchanged()
    ensures Tick([Item(Sulfuras, 20, 80)]) == [Item(Sulfuras, 20, 80)]
  {
  }

  /** A normal item at quality 80 drops to 79 (no cap from above) and its sell_in to 9. */
  lemma NormalItemDecreases()
    ensures Tick([Item("Item", 10, 80)]) == [Item("Item", 9, 79)]
  {
  }

  /** A normal item at quality 0 stays at 0. */
  lemma NormalItemFloor()
    ensures Tick([Item("Item", 10, 0)]) == [Item("Item", 9, 0)]
  {
  }

  /** Past the sell-by date a normal item loses two. */
  lemma NormalItemPastSellBy()
    ensures Tick([Item("Item", 0, 4)]) == [Item("Item", -1, 2)]
  {
  }

  /** Aged Brie gains one and its sell_in drops by one. */
  lemma AgedBrieIncreases()
    ensures Tick([Item(AgedBrie, 2, 10)]) == [Item(AgedBrie, 1, 11)]
  {
    AgedBrieIsNoPass();
  }

  /** Aged Brie at 50 stays at 50. */
  lemma AgedBrieCapped()
    ensures Tick([Item(AgedBrie, 20, 50)]) == [Item(AgedBrie, 19, 50)]
  {
    AgedBrieIsNoPass();
  }

  /** Aged Brie past the date at 49 reaches 50 and no further. */
  lemma AgedBriePastSellBy()
    ensures Tick([Item(AgedBrie, 0, 49)]) == [Item(AgedBrie, -1, 50)]
  {
    AgedBrieIsNoPass();
  }

  /** A pass 11 days ahead gains 1. */
  lemma BackstageFar()
    ensures Tick([Item(BackstagePasses, 11, 10)]) == [Item(BackstagePasses, 10, 11)]
  {
    PassName();
  }

  /** A pass 10 days ahead gains 2. */
  lemma BackstageTenDays()
    ensures Tick([Item(BackstagePasses, 10, 10)]) == [Item(BackstagePasses, 9, 12)]
  {
    PassName();
  }

  /** A pass 5 days ahead gains 3. */
  lemma BackstageFiveDays()
    ensures Tick([Item(BackstagePasses, 5, 10)]) == [Item(BackstagePasses, 4, 13)]
  {
    PassName();
  }

  /** A pass on the day of the concert falls to 0. */
  lemma BackstageConcertPassed()
    ensures Tick([Item(BackstagePasses, 0, 10)]) == [Item(BackstagePasses, -1, 0)]
  {
    PassName();
  }

  /** A pass's sell_in drops by one. */
  lemma BackstageSellIn()
    ensures Tick([Item(BackstagePasses, 2, 0)]) == [Item(BackstagePasses, 1, 3)]
  {
    PassName();
  }

  /** There is no Conjured kind: such an item ages exactly like any normal one, not twice as fast. */
  lemma ConjuredIsNormal()
    ensures Tick([Item("Conjured Mana Cake", 3, 6)]) == [Item("Conjured Mana Cake", 2, 5)]
  {
    ConjuredName();
  }

  /** The Sulfuras test run through the shop object itself. */
  method SulfurasThroughShop()
  {
    var rose := new GildedRose([Item(Sulfuras, 20, 80)]);
    rose.UpdateQuality();
    SulfurasUnchanged();
    assert rose.items[0].quality == 80;
    assert rose.items[0].sellIn == 20;
  }
}
