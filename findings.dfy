/**
 * Two places where the pass as written departs from what its tests and names say it means,
 * each shown on a concrete collection, and the pass as it was evidently meant to be.
 */
module Findings {
  import opened Strings
  import opened Aging
  import opened Rules
  import opened Scenarios

  // ---------------------------------------------------------------------------------------
  // As written

  /** The normal branch reads item 0: a normal item behind a Brie of quality 10 drops from 30
      to 10 in one day, where its own quality would give 29. */
  lemma CrossItemRead()
    ensures Tick([Item(AgedBrie, 5, 10), Item("Item", 10, 30)])
         == [Item(AgedBrie, 4, 11), Item("Item", 9, 10)]
  {
    AgedBrieIsNoPass();
    ItemName();
    var s := [Item(AgedBrie, 5, 10), Item("Item", 10, 30)];
    assert Tick(s)[1] == Step(s[1], Tick(s)[0].quality);
  }

  /** Through the same read, a Sulfuras of quality 80 at index 0 lifts the normal item behind
      it from 5 to 79, above the 0..50 range the other kinds keep. */
  lemma LegendaryLeaksQuality()
    ensures Tick([Item(Sulfuras, 20, 80), Item("Item", 10, 5)])
         == [Item(Sulfuras, 20, 80), Item("Item", 9, 79)]
  {
  }

  /** The past-sell-by exemption tests "Sulfaras", so Sulfuras on its sell-by day loses a
      point of quality, although it is meant never to change. */
  lemma SulfurasPastSellBy()
    ensures Tick([Item(Sulfuras, 0, 80)]) == [Item(Sulfuras, 0, 79)]
  {
  }

  // ---------------------------------------------------------------------------------------
  // As intended

  /**
   * One item's day as the pass evidently means it: the normal branch reads the item's own
   * quality, and past the sell-by date Sulfuras is left alone instead of losing a point
   * (correcting the spelling alone would zero it, since the else branch is the passes' one).
   */
  function IntendedStep(it: Item): (r: Item)
  {
    var q1 :=
      if it.name == AgedBrie || Contains(it.name, BackstagePasses) then
        var a := Inc(it.quality);
        if Contains(it.name, BackstagePasses) then
          var b := if it.sellIn < 11 then Inc(a) else a;
          if it.sellIn < 6 then Inc(b) else b
        else a
      else if Contains(it.name, Sulfuras) then it.quality
      else Max(it.quality - 1, MinQuality);
    var q2 :=
      if it.sellIn < 1 then
        if it.name != AgedBrie then
          if Contains(it.name, BackstagePasses) then 0
          else if Contains(it.name, Sulfuras) then q1
          else Dec(q1)
        else Inc(q1)
      else q1;
    var sellIn := if !Contains(it.name, Sulfuras) then it.sellIn - 1 else it.sellIn;
    Item(it.name, sellIn, q2)
  }

  /** The intended pass: every item is aged on its own values alone, keeping order. */
  function IntendedTick(s: seq<Item>): (r: seq<Item>)
    ensures |r| == |s|
    ensures forall k :: 0 <= k < |s| ==> r[k] == IntendedStep(s[k])
    decreases |s|
  {
    if s == [] then [] else [IntendedStep(s[0])] + IntendedTick(s[1..])
  }

  /** Under the intended pass, Sulfuras never changes, whatever its sell_in. */
  lemma IntendedLegendary(it: Item)
    requires IsLegendary(it.name)
    ensures IntendedStep(it) == it
  {
    AgedBrieIsNoPass();
  }

  /** Under the intended pass, what becomes of item `k` depends on item `k` alone. */
  lemma IntendedPerItem(s: seq<Item>, t: seq<Item>, k: nat)
    requires k < |s| && k < |t| && s[k] == t[k]
    ensures IntendedTick(s)[k] == IntendedTick(t)[k]
  {
  }

  /** A normal item loses one point a day from its own quality, two past the date, floored at 0. */
  lemma IntendedNormal(it: Item)
    requires IsNormal(it.name)
    ensures IntendedStep(it).quality ==
      Max(it.quality - (if it.sellIn < 1 then 2 else 1), MinQuality)
  {
  }

  /** The two passes agree on a one-item collection unless the item's name contains "Sulfaras"
      or it is Sulfuras past its sell-by date. */
  lemma TickMatchesIntendedOnSingle(s: seq<Item>)
    requires |s| == 1 && !Contains(s[0].name, Sulfaras)
    requires IsLegendary(s[0].name) ==> s[0].sellIn >= 1
    ensures Tick(s) == IntendedTick(s)
  {
  }

  /** Under the corrected pass every item other than Sulfuras that starts in 0..50 stays there,
      whatever else the collection holds. */
  lemma IntendedKeepsNonLegendaryInRange(s: seq<Item>)
    requires NonLegendaryInRange(s)
    ensures NonLegendaryInRange(IntendedTick(s))
  {
  }
}
