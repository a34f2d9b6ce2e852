# Gilded Rose aging pass, modelled in Dafny

The Gilded Rose shop holds an ordered collection of items, each with a `name`, a `sell_in`
counter (days until the sell-by date) and a `quality` score. Once per simulated day,
`GildedRose::update_quality` walks the collection by index and rewrites each item in place.
The name selects the rules:

- exactly `"Aged Brie"`: quality goes up, capped at 50 (a Brie above 50 falls to 50);
- any name containing `"Backstage passes"`: quality goes up faster as the concert nears, capped at 50 (a pass above 50 falls to 50), then drops to 0;
- any name containing `"Sulfuras"`: the legendary item, whose `sell_in` never changes;
- every other name: a normal item. Its quality is computed by subtracting from item 0's quality,
  not its own (see below). Item 0 itself goes down, floored at 0; a later normal item can even rise.

This project models that pass as the Rust code is written, and proves what it does:

- `strings.dfy` (module `Strings`): `Contains`, the substring test on names, proved equal to
  "there is a position where the pattern occurs".
- `aging.dfy` (module `Aging`): the `Item` datatype and the shop class `GildedRose`, which owns an
  `array<Item>`. `UpdateQuality` is an index loop that rewrites `items[i]` in place, statement by
  statement as the source does. Its loop body is the method `AgeItem`. The method is proved
  against `Tick`, a function on sequences. `Tick` in turn is built from `Pass`, the state after
  the first `i` iterations, and `Step`, what one iteration makes of one item.
- `rules.dfy` (module `Rules`): closed-form rules per kind of item, lemmas about the whole pass,
  and lemmas over any number of days.
- `scenarios.dfy` (module `Scenarios`): the repository's unit tests, stated as lemmas, plus two
  further one-item cases (Aged Brie past its date at 49, and a Conjured item). Helper lemmas
  about the test names and one client of the shop class sit beside them.
- `findings.dfy` (module `Findings`): two defects of the code, each shown on a concrete input,
  next to a corrected pass with its intended properties proved.

Quirks of the code that the model keeps:

- The normal branch reads `items[0].quality`, not the item's own quality (src/gildedrose.rs:50).
  Item 0 therefore ages from its own value. Every later normal item ages from item 0's value,
  as item 0 already is after this pass.
- The past-sell-by exemption tests the misspelt name `"Sulfaras"` (src/gildedrose.rs:56). So
  Sulfuras with `sell_in < 1` loses one point, floored at 0. A name containing `"Sulfaras"`
  drops to 0 once past its date.
- Each increment is clamped to at most 50 and each decrement to at least 0, one step at a
  time. A normal item's quality is never capped from above: 80 becomes 79.
- There is no "Conjured" kind. A "Conjured Mana Cake" ages exactly like any normal item (see above); it does not lose quality twice as fast.
- Every test on `sell_in` sees the value from before the pass, because the decrement is the
  last statement of each iteration.

The rules the system is meant to follow differ from the code in four ways, and the model
follows the code. By the intended rules:

- each item ages on its own values alone;
- quality is clamped once, to 0..50, after the whole day's change;
- Sulfuras never changes;
- Conjured items lose quality twice as fast.

The code instead reads item 0, clamps per step with no upper clamp for normal items, lets
Sulfuras lose quality past its date, and has no Conjured branch. `Findings` shows two of these
as counterexamples, because they are evidently defects: the read of item 0 and the Sulfuras
exemption.

`Item::new` is the `Item` datatype's constructor. `GildedRose::new` is the class constructor,
which copies the given sequence into a fresh array.

## Model

| member | source | states |
|---|---|---|
| Strings.Contains | src/gildedrose.rs:36 | the substring test of Rust's `str::contains`, used by every name test (lines 36, 39, 48, 56, 66); `Strings.ContainsIffOccurs` states its meaning and `Strings.AbsentFirstChar` a consequence |
| Strings.ContainsIffOccurs | src/gildedrose.rs:36 | the scanning substring test holds exactly when the pattern occurs at some position of the name, in both directions |
| Strings.AbsentFirstChar | src/gildedrose.rs:39 | a name without the pattern's first character does not contain the pattern |
| Aging.Step | src/gildedrose.rs:36-68 | one iteration on one item, with `base` the item-0 quality read at line 50; its properties are the `Rules.Step*` lemmas (name kept, `sell_in` rule, closed form per kind, only the normal branch reads `base`, range kept) |
| Aging.Pass | src/gildedrose.rs:35-69 | however many iterations have run, the collection keeps its length and every item keeps its name |
| Aging.PassAt | src/gildedrose.rs:35-69 | after `i` iterations, items at index `i` and beyond still hold their pre-tick values; item 0 is aged from its own quality; every later finished item is aged from item 0's updated quality |
| Aging.Tick | src/gildedrose.rs:34-70 | one pass keeps the length; item 0 becomes `Step(s[0], s[0].quality)`; every other item `k` becomes `Step(s[k], r[0].quality)`, using item 0's value already updated in this pass |
| Aging.GildedRose.constructor | src/gildedrose.rs:30-32 | the shop owns a fresh array holding the given items in order |
| Aging.GildedRose.UpdateQuality | src/gildedrose.rs:34-70 | the array afterwards equals `Tick` of the array before; every resulting `sell_in` and `quality` fits in `i32` |
| Aging.GildedRose.AgeItem | src/gildedrose.rs:36-68 | one iteration changes only `items[i]`, into `Step` of its old value with item 0's quality as read at line 50, and no intermediate sum leaves `i32` |
| Rules.IsNormal | src/gildedrose.rs:36-49 | the names that reach the normal branch at line 49: not exactly "Aged Brie", no "Backstage passes", no "Sulfuras"; `Rules.StepNormal` and `Rules.StepIgnoresBase` state what the branch does |
| Rules.IsLegendary | src/gildedrose.rs:36-48 | the names that reach the Sulfuras branch at line 48; `Rules.StepSulfuras` and `Rules.DaysLegendary` state what happens to them |
| Rules.BackstageGain | src/gildedrose.rs:38-46 | a pass gains 1 at 11 days or more, 3 below 6 days, and 2 in between |
| Rules.AgedBrieIsNoPass | src/gildedrose.rs:36 | the name "Aged Brie" contains neither "Backstage passes" nor "Sulfuras" |
| Rules.StepSellIn | src/gildedrose.rs:66-68 | the name never changes; a name containing "Sulfuras" keeps its `sell_in`, every other `sell_in` drops by exactly 1 with no lower bound |
| Rules.StepAgedBrie | src/gildedrose.rs:36-62 | Aged Brie's quality becomes `min(q + 1, 50)`, or `min(q + 2, 50)` when the pre-tick `sell_in` is below 1; it never decreases from a value up to 50 and 50 stays 50 |
| Rules.StepBackstage | src/gildedrose.rs:38-59 | a pass with pre-tick `sell_in` below 1 drops to exactly 0; otherwise it gains `BackstageGain(sell_in)` capped at 50, and strictly increases below 50 |
| Rules.StepSulfuras | src/gildedrose.rs:48-57 | Sulfuras keeps its `sell_in`; its quality is unchanged when `sell_in` is at least 1; below 1 it becomes `max(q - 1, 0)`, or 0 when the name also contains "Sulfaras" |
| Rules.StepNormal | src/gildedrose.rs:49-57 | a normal item's quality becomes `max(base - 1, 0)` from the quality `base` read at line 50, or `max(base - 2, 0)` past the date (0 for a name containing "Sulfaras"); it is never negative and has no upper cap |
| Rules.StepIgnoresBase | src/gildedrose.rs:36-52 | only the normal branch reads item 0: the step of any other item does not depend on it |
| Rules.StepInRange | src/gildedrose.rs:36-64 | when the item's quality and item 0's quality are in 0..50, the new quality is in 0..50 |
| Rules.TickFrame | src/gildedrose.rs:35-69 | after a pass the number of items, their order and every name are unchanged, and each `sell_in` follows the Sulfuras rule from its own pre-tick value |
| Rules.TickNormalFirst | src/gildedrose.rs:50-57 | a normal item at index 0 ages from its own quality: `max(q - 1, 0)`, or `max(q - 2, 0)` past the date |
| Rules.TickNormalLater | src/gildedrose.rs:50-57 | a normal item at index `k > 0` ages from item 0's quality after this pass: `max(r0 - 1, 0)`, or `max(r0 - 2, 0)` past the date |
| Rules.TickNotNormal | src/gildedrose.rs:35-69 | Aged Brie, passes and Sulfuras age from their own values alone, at every index |
| Rules.TickSingle | src/gildedrose.rs:50-51 | in a one-item collection the pass depends on that item alone |
| Rules.TickKeepsInRange | src/gildedrose.rs:34-70 | if every quality, Sulfuras included, is in 0..50 before a pass, every quality is in 0..50 after it |
| Rules.TickKeepsNonLegendaryInRange | src/gildedrose.rs:34-70 | if every item other than Sulfuras is in 0..50 and a Sulfuras at index 0 is at most 51, the same holds after a pass; Sulfuras elsewhere may hold any quality, such as its usual 80 |
| Rules.Days | src/gildedrose.rs:34-70 | any number of passes keeps the number of items and every name |
| Rules.DaysKeepInRange | src/gildedrose.rs:34-70 | qualities in 0..50 stay in 0..50 for any number of days |
| Rules.DaysKeepNonLegendaryInRange | src/gildedrose.rs:34-70 | the bound of `TickKeepsNonLegendaryInRange` holds for any number of days |
| Rules.DaysLegendary | src/gildedrose.rs:48-68 | a Sulfuras item with `sell_in` at least 1 is unchanged after any number of days |
| Scenarios.WithoutCapitalS | src/gildedrose.rs:48 | a name without a capital S contains neither "Sulfuras" nor "Sulfaras" |
| Scenarios.WithoutCapitals | src/gildedrose.rs:36-56 | a name without a capital S or B contains none of the three markers |
| Scenarios.ItemName | src/gildedrose.rs:111 | "Item" is a normal name |
| Scenarios.PassName | src/gildedrose.rs:210 | "Backstage passes" is a pass and contains neither spelling of Sulfuras |
| Scenarios.SulfurasName | src/gildedrose.rs:81 | "Sulfuras" is legendary and does not contain "Sulfaras" |
| Scenarios.ConjuredName | src/gildedrose.rs:49-52 | "Conjured Mana Cake" contains none of the markers, so it takes the normal branch |
| Scenarios.SulfurasThroughShop | src/gildedrose.rs:79-101 | the Sulfuras tests run through the shop class: after `new` and `update_quality` the item keeps quality 80 and `sell_in` 20, checked by assertions on the array |
| Scenarios.SulfurasUnchanged | src/gildedrose.rs:79-101 | Sulfuras at 20 days and quality 80 keeps both |
| Scenarios.NormalItemDecreases | src/gildedrose.rs:109-131 | a normal item at 10 days and quality 80 becomes 9 days and 79 |
| Scenarios.NormalItemFloor | src/gildedrose.rs:135-145 | a normal item at quality 0 stays at 0 |
| Scenarios.NormalItemPastSellBy | src/gildedrose.rs:148-158 | a normal item at 0 days and quality 4 becomes -1 days and 2 |
| Scenarios.AgedBrieIncreases | src/gildedrose.rs:165-188 | Aged Brie at 2 days and quality 10 becomes 1 day and 11 |
| Scenarios.AgedBrieCapped | src/gildedrose.rs:191-201 | Aged Brie at quality 50 stays at 50 |
| Scenarios.AgedBriePastSellBy | src/gildedrose.rs:54-62 | Aged Brie at 0 days and quality 49 becomes -1 days and 50 |
| Scenarios.BackstageFar | src/gildedrose.rs:208-218 | a pass at 11 days and quality 10 reaches 11 |
| Scenarios.BackstageTenDays | src/gildedrose.rs:221-231 | a pass at 10 days and quality 10 reaches 12 |
| Scenarios.BackstageFiveDays | src/gildedrose.rs:234-244 | a pass at 5 days and quality 10 reaches 13 |
| Scenarios.BackstageConcertPassed | src/gildedrose.rs:247-257 | a pass at 0 days drops to 0 |
| Scenarios.BackstageSellIn | src/gildedrose.rs:260-270 | a pass at 2 days becomes 1 day |
| Scenarios.ConjuredIsNormal | src/gildedrose.rs:49-52 | a Conjured item at 3 days and quality 6 becomes 2 days and 5, like any normal item |
| Findings.CrossItemRead | src/gildedrose.rs:50 | behind an Aged Brie of quality 10, a normal item of quality 30 drops to 10 in one day |
| Findings.LegendaryLeaksQuality | src/gildedrose.rs:50 | a Sulfuras of quality 80 at index 0 lifts the normal item behind it from 5 to 79, out of 0..50 |
| Findings.SulfurasPastSellBy | src/gildedrose.rs:56-57 | Sulfuras at 0 days and quality 80 drops to 79 |
| Findings.IntendedStep | src/gildedrose.rs:36-68 | the corrected iteration: the normal branch reads the item's own quality and Sulfuras is exempt past its date; `Findings.IntendedLegendary`, `Findings.IntendedNormal` and `Findings.TickMatchesIntendedOnSingle` state its properties |
| Findings.IntendedTick | src/gildedrose.rs:34-70 | the corrected pass keeps the length and ages every item by `IntendedStep` on its own values |
| Findings.IntendedLegendary | src/gildedrose.rs:48-68 | under the corrected pass Sulfuras never changes, whatever its `sell_in` |
| Findings.IntendedPerItem | src/gildedrose.rs:50 | under the corrected pass what becomes of item `k` depends on item `k` alone |
| Findings.IntendedNormal | src/gildedrose.rs:49-57 | under the corrected pass a normal item loses 1 from its own quality, 2 past the date, floored at 0 |
| Findings.IntendedKeepsNonLegendaryInRange | src/gildedrose.rs:34-70 | under the corrected pass every item other than Sulfuras that starts in 0..50 stays in 0..50, whatever item 0 holds |
| Findings.TickMatchesIntendedOnSingle | src/gildedrose.rs:34-70 | on a one-item collection the pass as written and the corrected pass agree, unless the name contains "Sulfaras" or it is Sulfuras past its date |

## Left out

- `Display for Item` (src/gildedrose.rs:19-23): string formatting only.
- Aging.GildedRose.UpdateQuality: requires every quality strictly inside `i32` and every `sell_in` above `i32::MIN`, instead of modelling Rust's overflow panic. This also excludes a few inputs whose pass would not overflow, such as Sulfuras at quality `i32::MAX`.
- Aging.GildedRose.AgeItem: the same sufficient overflow precondition for one item, and item 0's quality strictly inside `i32`.
- Names are sequences of characters, while Rust's `contains` compares UTF-8 bytes. The two agree on every valid string.
- The `#[cfg(test)]` harness (src/gildedrose.rs:73-272) appears only as the lemmas of `Scenarios`.

## Findings

| source | as written | input that shows it | evidently intended | confidence | as-written member | corrected member |
|---|---|---|---|---|---|---|
| src/gildedrose.rs:50 | a normal item's new quality is computed from `items[0].quality` | `[Aged Brie (5, 10), Item (10, 30)]`: the second item becomes quality 10 | each item ages from its own quality (29 here) | high, not executed | Findings.CrossItemRead | Findings.IntendedPerItem |
| src/gildedrose.rs:56-59 | the exemption tests "Sulfaras", and its else branch sets 0 | `[Sulfuras (0, 80)]`: quality becomes 79 | Sulfuras never changes quality | high, not executed | Findings.SulfurasPastSellBy | Findings.IntendedLegendary |

The read of item 0 also breaks the 0..50 range of the items other than Sulfuras: with
`[Sulfuras (20, 80), Item (10, 5)]` the second item becomes 79 (`Findings.LegendaryLeaksQuality`).
The corrected pass keeps that range with no condition on item 0
(`Findings.IntendedKeepsNonLegendaryInRange`).

The corrected pass `Findings.IntendedTick` fixes both defects and changes nothing else.
`Aging.GildedRose.UpdateQuality` and the lemmas of `Rules` model the code as written.
