/**
 * The behaviour of one aging pass, stated per kind of item in closed form, and what holds
 * over several days.
 */
module Rules {
  import opened Strings
  import opened Aging

  /** How much a backstage pass gains before the cap: 1, plus 1 below 11 days, plus 1 below 6. */
  function BackstageGain(sellIn: int): (g: int)
    ensures 1 <= g <= 3
    ensures g == 1 <==> sellIn >= 11
    ensures g == 3 <==> sellIn < 6
  {
    1 + (if sellIn < 11 then 1 else 0) + (if sellIn < 6 then 1 else 0)
  }

  /** Names that take the normal branch: neither Aged Brie nor a pass nor Sulfuras. */
  predicate IsNormal(name: string)
  {
    name != AgedBrie && !Contains(name, BackstagePasses) && !Contains(name, Sulfuras)
  }

  /** Names that take the Sulfuras branch: it contains "Sulfuras" but is no pass. */
  predicate IsLegendary(name: string)
  {
    Contains(name, Sulfuras) && !Contains(name, BackstagePasses)
  }

  lemma AgedBrieIsNoPass()
    ensures !Contains(AgedBrie, BackstagePasses) && !Contains(AgedBrie, Sulfuras)
  {
    AbsentFirstChar(AgedBrie, Sulfuras);
  }

  // ---------------------------------------------------------------------------------------
  // One item, one iteration

  /** The name never changes; only a name containing "Sulfuras" keeps its sell_in, every
      other drops by exactly one, with no lower bound. */
  lemma StepSellIn(it: Item, base: int)
    ensures Step(it, base).name == it.name
    ensures Step(it, base).sellIn == if Contains(it.name, Sulfuras) then it.sellIn else it.sellIn - 1
  {
  }

  /** Aged Brie gains one, and one more once past the sell-by date, each step capped at 50. */
  lemma StepAgedBrie(it: Item, base: int)
    requires it.name == AgedBrie
    ensures Step(it, base).quality == Min(it.quality + (if it.sellIn < 1 then 2 else 1), MaxQuality)
    ensures it.quality <= MaxQuality ==> it.quality <= Step(it, base).quality <= MaxQuality
    ensures it.quality == MaxQuality ==> Step(it, base).quality == MaxQuality
  {
  }

  /** A backstage pass gains 1, 2 or 3 capped at 50 while the concert is ahead, and is worth
      exactly 0 once the pass starts the day with sell_in below 1. */
  lemma StepBackstage(it: Item, base: int)
    requires Contains(it.name, BackstagePasses)
    ensures it.sellIn < 1 ==> Step(it, base).quality == 0
    ensures it.sellIn >= 1 ==>
      Step(it, base).quality == Min(it.quality + BackstageGain(it.sellIn), MaxQuality)
    ensures it.sellIn >= 1 && it.quality < MaxQuality ==> Step(it, base).quality > it.quality
  {
  }

  /** Sulfuras keeps its quality while sell_in is at least 1. Below that it loses one, floored
      at 0, because the exemption tests "Sulfaras"; a name with that spelling drops to 0. */
  lemma StepSulfuras(it: Item, base: int)
    requires IsLegendary(it.name)
    ensures Step(it, base).sellIn == it.sellIn
    ensures it.sellIn >= 1 ==> Step(it, base).quality == it.quality
    ensures it.sellIn < 1 ==> (Step(it, base).quality ==
      if Contains(it.name, Sulfaras) then 0 else Max(it.quality - 1, MinQuality))
  {
    AgedBrieIsNoPass();
  }

  /** A normal item's new quality is computed from `base`, not from its own quality: one less,
      two less past the sell-by date, never below 0 and with no cap from above. */
  lemma StepNormal(it: Item, base: int)
    requires IsNormal(it.name)
    ensures it.sellIn >= 1 ==> Step(it, base).quality == Max(base - 1, MinQuality)
    ensures it.sellIn < 1 ==> (Step(it, base).quality ==
      if Contains(it.name, Sulfaras) then 0 else Max(base - 2, MinQuality))
    ensures Step(it, base).quality >= MinQuality
  {
  }

  /** Only the normal branch reads `base`: every other item's step ignores item 0. */
  lemma StepIgnoresBase(it: Item, b1: int, b2: int)
    requires !IsNormal(it.name)
    ensures Step(it, b1) == Step(it, b2)
  {
  }

  /** A step keeps an item's quality in 0..50 when its own quality and `base` are in 0..50. */
  lemma StepInRange(it: Item, base: int)
    requires MinQuality <= it.quality <= MaxQuality && MinQuality <= base <= MaxQuality
    ensures MinQuality <= Step(it, base).quality <= MaxQuality
  {
  }

  // ---------------------------------------------------------------------------------------
  // The whole collection, one pass

  /** Every quality of the collection lies in 0..50. */
  ghost predicate AllInRange(s: seq<Item>)
  {
    forall k :: 0 <= k < |s| ==> MinQuality <= s[k].quality <= MaxQuality
  }

  /** How many items there are, their order and their names survive a pass; each sell_in
      follows the sell-in rule, computed from its own pre-tick value. */
  lemma TickFrame(s: seq<Item>, k: nat)
    requires k < |s|
    ensures |Tick(s)| == |s|
    ensures Tick(s)[k].name == s[k].name
    ensures Tick(s)[k].sellIn == if Contains(s[k].name, Sulfuras) then s[k].sellIn else s[k].sellIn - 1
  {
  }

  /** Item 0, if normal, ages from its own quality. */
  lemma TickNormalFirst(s: seq<Item>)
    requires |s| > 0 && IsNormal(s[0].name)
    ensures s[0].sellIn >= 1 ==> Tick(s)[0].quality == Max(s[0].quality - 1, MinQuality)
    ensures s[0].sellIn < 1 ==> (Tick(s)[0].quality ==
      if Contains(s[0].name, Sulfaras) then 0 else Max(s[0].quality - 2, MinQuality))
  {
  }

  /** A normal item after index 0 ages from item 0's quality as already updated in this pass. */
  lemma TickNormalLater(s: seq<Item>, k: nat)
    requires 0 < k < |s| && IsNormal(s[k].name)
    ensures s[k].sellIn >= 1 ==> Tick(s)[k].quality == Max(Tick(s)[0].quality - 1, MinQuality)
    ensures s[k].sellIn < 1 ==> (Tick(s)[k].quality ==
      if Contains(s[k].name, Sulfaras) then 0 else Max(Tick(s)[0].quality - 2, MinQuality))
  {
  }

  /** Items of every other kind age from their own values alone, whatever their position. */
  lemma TickNotNormal(s: seq<Item>, k: nat)
    requires k < |s| && !IsNormal(s[k].name)
    ensures Tick(s)[k] == Step(s[k], s[k].quality)
  {
  }

  /** In a one-item collection the transition depends on that item alone. */
  lemma TickSingle(s: seq<Item>)
    requires |s| == 1
    ensures Tick(s) == [Step(s[0], s[0].quality)]
  {
  }

  /** Qualities that start in 0..50 stay in 0..50 after a pass. */
  lemma TickKeepsInRange(s: seq<Item>)
    requires AllInRange(s)
    ensures AllInRange(Tick(s))
  {
    var r := Tick(s);
    if |s| > 0 {
      StepInRange(s[0], s[0].quality);
      forall k | 0 < k < |s| ensures MinQuality <= r[k].quality <= MaxQuality {
        StepInRange(s[k], r[0].quality);
      }
    }
  }

  /** Every item other than Sulfuras has its quality in 0..50; Sulfuras may hold any quality. */
  ghost predicate NonLegendaryInRange(s: seq<Item>)
  {
    forall k :: 0 <= k < |s| && !IsLegendary(s[k].name) ==> MinQuality <= s[k].quality <= MaxQuality
  }

  /** Item 0, when it is Sulfuras, has quality at most 51, so the normal items that read it
      after their decrement stay at or below 50. */
  ghost predicate FirstLegendaryBounded(s: seq<Item>)
  {
    |s| > 0 && IsLegendary(s[0].name) ==> s[0].quality <= MaxQuality + 1
  }

  /** The 0..50 range of the items other than Sulfuras survives a pass as long as a Sulfuras at
      index 0 is at most 51; without that bound the read of item 0 can break it. */
  lemma TickKeepsNonLegendaryInRange(s: seq<Item>)
    requires NonLegendaryInRange(s) && FirstLegendaryBounded(s)
    ensures NonLegendaryInRange(Tick(s)) && FirstLegendaryBounded(Tick(s))
  {
    if |s| > 0 {
      var r := Tick(s);
      if IsLegendary(s[0].name) {
        StepSulfuras(s[0], s[0].quality);
      } else {
        StepInRange(s[0], s[0].quality);
      }
      forall k | 0 <= k < |s| && !IsLegendary(r[k].name)
        ensures MinQuality <= r[k].quality <= MaxQuality
      {
        TickFrame(s, k);
        if IsNormal(s[k].name) {
          if k > 0 {
            TickNormalLater(s, k);
          } else {
            TickNormalFirst(s);
          }
        } else {
          TickNotNormal(s, k);
          StepInRange(s[k], s[k].quality);
        }
      }
      TickFrame(s, 0);
    }
  }

  // ---------------------------------------------------------------------------------------
  // Several days

  /** The collection after `n` calls of the pass. */
  function Days(s: seq<Item>, n: nat): (r: seq<Item>)
    ensures |r| == |s|
    ensures forall k :: 0 <= k < |s| ==> r[k].name == s[k].name
    decreases n
  {
    if n == 0 then s
    else
      var p := Days(s, n - 1);
      assert forall k :: 0 <= k < |s| ==> Tick(p)[k].name == p[k].name by {
        forall k | 0 <= k < |s| ensures Tick(p)[k].name == p[k].name {
          TickFrame(p, k);
        }
      }
      Tick(p)
  }

  /** Qualities in 0..50 stay there for any number of days. */
  lemma {:induction false} DaysKeepInRange(s: seq<Item>, n: nat)
    requires AllInRange(s)
    ensures AllInRange(Days(s, n))
    decreases n
  {
    if n > 0 {
      DaysKeepInRange(s, n - 1);
      TickKeepsInRange(Days(s, n - 1));
    }
  }

  /** A Sulfuras item with sell_in at least 1 never changes, however many days pass. */
  lemma {:induction false} DaysLegendary(s: seq<Item>, n: nat, k: nat)
    requires k < |s| && IsLegendary(s[k].name) && s[k].sellIn >= 1
    ensures Days(s, n)[k] == s[k]
    decreases n
  {
    if n > 0 {
      DaysLegendary(s, n - 1, k);
      var p := Days(s, n - 1);
      TickNotNormal(p, k);
      StepSulfuras(p[k], p[k].quality);
    }
  }

  /** The same bound holds for any number of days. */
  lemma {:induction false} DaysKeepNonLegendaryInRange(s: seq<Item>, n: nat)
    requires NonLegendaryInRange(s) && FirstLegendaryBounded(s)
    ensures NonLegendaryInRange(Days(s, n))
    ensures FirstLegendaryBounded(Days(s, n))
    decreases n
  {
    if n > 0 {
      DaysKeepNonLegendaryInRange(s, n - 1);
      TickKeepsNonLegendaryInRange(Days(s, n - 1));
    }
  }
}
