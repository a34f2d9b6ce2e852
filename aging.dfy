/**
 * The daily aging pass of the Gilded Rose inventory (`GildedRose::update_quality`), modelled
 * as the code is written: the normal-item branch reads the quality of item 0, the
 * past-sell-by exemption tests the name "Sulfaras", and every increment and decrement is
 * clamped on its own.
 */
module Aging {
  import opened Strings

  const AgedBrie := "Aged Brie"
  const BackstagePasses := "Backstage passes"
  const Sulfuras := "Sulfuras"
  /** The spelling the past-sell-by branch tests for; it differs from `Sulfuras`. */
  const Sulfaras := "Sulfaras"

  /** Upper cap that the increments apply (`.min(50)`). */
  const MaxQuality := 50
  /** Lower floor that the decrements apply (`.max(0)`). */
  const MinQuality := 0

  /** Bounds of Rust's `i32`, the type of `sell_in` and `quality`. */
  const I32Min := -0x8000_0000
  const I32Max := 0x7fff_ffff

  predicate IsI32(x: int)
  {
    I32Min <= x <= I32Max
  }

  /** One inventory record; `Item::new` is this datatype's constructor. */
  datatype Item = Item(name: string, sellIn: int, quality: int)

  /** An item for which one pass cannot overflow `i32` whatever the rest of the collection holds. */
  predicate NoOverflow(it: Item)
  {
    I32Min < it.quality < I32Max && I32Min < it.sellIn <= I32Max
  }

  function Min(a: int, b: int): (m: int) { if a <= b then a else b }
  function Max(a: int, b: int): (m: int) { if a >= b then a else b }

  /** `(q + 1).min(50)` */
  function Inc(q: int): (r: int) { Min(q + 1, MaxQuality) }
  /** `(q - 1).max(0)` */
  function Dec(q: int): (r: int) { Max(q - 1, MinQuality) }

  /**
   * What one iteration of the loop makes of item `it`, where `base` is the quality that the
   * normal branch reads from item 0 at that moment. Every test on `sellIn` sees the value
   * before the tick, since the decrement is the iteration's last statement.
   */
  function Step(it: Item, base: int): (r: Item)
  {
    var q1 :=
      if it.name == AgedBrie || Contains(it.name, BackstagePasses) then
        var a := Inc(it.quality);
        if Contains(it.name, BackstagePasses) then
          var b := if it.sellIn < 11 then Inc(a) else a;
          if it.sellIn < 6 then Inc(b) else b
        else a
      else if Contains(it.name, Sulfuras) then it.quality
      else Max(base - 1, MinQuality);
    var q2 :=
      if it.sellIn < 1 then
        if it.name != AgedBrie then
          if !Contains(it.name, BackstagePasses) && !Contains(it.name, Sulfaras) then Dec(q1) else 0
        else Inc(q1)
      else q1;
    var sellIn := if !Contains(it.name, Sulfuras) then it.sellIn - 1 else it.sellIn;
    Item(it.name, sellIn, q2)
  }

  /** The collection after the first `i` iterations of the loop, each reading item 0 as it then is. */
  function Pass(s: seq<Item>, i: nat): (r: seq<Item>)
    requires i <= |s|
    ensures |r| == |s|
    ensures forall k :: 0 <= k < |s| ==> r[k].name == s[k].name
    decreases i
  {
    if i == 0 then s
    else
      var p := Pass(s, i - 1);
      p[i - 1 := Step(p[i - 1], p[0].quality)]
  }

  /** Item 0 after its own iteration: its normal branch reads its own quality. */
  function First(s: seq<Item>): (r: Item)
    requires |s| > 0
  {
    Step(s[0], s[0].quality)
  }

  /**
   * After `i` iterations, item 0 (once done) is `First(s)`, every later finished item was
   * stepped against `First(s)`'s quality, and the items not yet reached are untouched.
   */
  lemma {:induction false} PassAt(s: seq<Item>, i: nat, k: nat)
    requires i <= |s| && k < |s|
    ensures Pass(s, i)[k] ==
      if k >= i then s[k]
      else if k == 0 then First(s)
      else Step(s[k], First(s).quality)
    decreases i
  {
    if i > 0 {
      PassAt(s, i - 1, k);
      PassAt(s, i - 1, 0);
      PassAt(s, i - 1, i - 1);
    }
  }

  lemma PassAll(s: seq<Item>)
    ensures |s| > 0 ==> Pass(s, |s|)[0] == First(s)
    ensures forall k :: 0 < k < |s| ==> Pass(s, |s|)[k] == Step(s[k], First(s).quality)
  {
    if |s| > 0 {
      PassAt(s, |s|, 0);
    }
    forall k | 0 < k < |s| ensures Pass(s, |s|)[k] == Step(s[k], First(s).quality) {
      PassAt(s, |s|, k);
    }
  }

  /**
   * One whole pass. Item 0 is stepped against its own quality; every other item against
   * the quality item 0 already has after this pass, not against its own.
   */
  function Tick(s: seq<Item>): (r: seq<Item>)
    ensures |r| == |s|
    ensures |s| > 0 ==> r[0] == Step(s[0], s[0].quality)
    ensures forall k :: 0 < k < |s| ==> r[k] == Step(s[k], r[0].quality)
  {
    PassAll(s);
    Pass(s, |s|)
  }

  /** The shop: owns the items and ages them in place. */
  class GildedRose {
    var items: array<Item>

    /** `GildedRose::new`: takes the items over, in order. */
    constructor (initial: seq<Item>)
      ensures fresh(items)
      ensures items[..] == initial
    {
      items := new Item[|initial|](k requires 0 <= k < |initial| => initial[k]);
    }

    /**
     * `update_quality`: one iteration per index, in order, each rewriting `items[i]` in place.
     * Under the precondition no arithmetic step leaves `i32`, so the Rust code does not panic.
     */
    method UpdateQuality()
      requires forall k :: 0 <= k < items.Length ==> NoOverflow(items[k])
      modifies items
      ensures items[..] == Tick(old(items[..]))
      ensures forall k :: 0 <= k < items.Length ==> IsI32(items[k].sellIn) && IsI32(items[k].quality)
    {
      ghost var s := items[..];
      for i := 0 to items.Length
        invariant items[..] == Pass(s, i)
        invariant forall k :: 0 <= k < i ==> IsI32(items[k].sellIn) && I32Min < items[k].quality < I32Max
        invariant forall k :: i <= k < items.Length ==> items[k] == s[k]
      {
        AgeItem(i);
      }
    }

    /**
     * The body of the loop for index `i`: rewrites `items[i]` only, reading `items[0]` in the
     * normal branch.
     */
    method AgeItem(i: nat)
      requires i < items.Length
      requires NoOverflow(items[i]) && I32Min < items[0].quality < I32Max
      modifies items
      ensures items[..] == old(items[..])[i := Step(old(items[i]), old(items[0].quality))]
      ensures IsI32(items[i].sellIn) && I32Min < items[i].quality < I32Max
    {
      if items[i].name == AgedBrie || Contains(items[i].name, BackstagePasses) {
        assert IsI32(items[i].quality + 1);
        items[i] := items[i].(quality := Min(items[i].quality + 1, MaxQuality));
        if Contains(items[i].name, BackstagePasses) {
          if items[i].sellIn < 11 {
            assert IsI32(items[i].quality + 1);
            items[i] := items[i].(quality := Min(items[i].quality + 1, MaxQuality));
          }
          if items[i].sellIn < 6 {
            assert IsI32(items[i].quality + 1);
            items[i] := items[i].(quality := Min(items[i].quality + 1, MaxQuality));
          }
        }
      } else if Contains(items[i].name, Sulfuras) {
        // legendary: quality untouched here
      } else {
        assert IsI32(items[0].quality - 1);
        var newDecreasedQuality := items[0].quality - 1;
        items[i] := items[i].(quality := Max(newDecreasedQuality, MinQuality));
      }

      if items[i].sellIn < 1 {
        if items[i].name != AgedBrie {
          if !Contains(items[i].name, BackstagePasses) && !Contains(items[i].name, Sulfaras) {
            assert IsI32(items[i].quality - 1);
            items[i] := items[i].(quality := Max(items[i].quality - 1, MinQuality));
          } else {
            items[i] := items[i].(quality := 0);
          }
        } else {
          assert IsI32(items[i].quality + 1);
          items[i] := items[i].(quality := Min(items[i].quality + 1, MaxQuality));
        }
      }

      if !Contains(items[i].name, Sulfuras) {
        assert IsI32(items[i].sellIn - 1);
        items[i] := items[i].(sellIn := items[i].sellIn - 1);
      }
    }
  }
}
