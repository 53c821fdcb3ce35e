/**
 * The five watched slots of the front page and the report entries built from
 * them (the `Story` and entry shapes of script/src/index.ts and
 * script/src/scriptUtils.ts).
 */
module Snapshot {
  import opened Wrappers
  import opened Clock

  /** Number of front-page slots sampled on every poll. */
  const SlotCount: nat := 5

  /**
   * One slot. `None` is the never-observed sentinel (`null`) and stays
   * distinct from `Some("")`, which is a slot whose text could not be read.
   */
  datatype Story = Story(headline: Option<string>, kicker: Option<string>)

  /** A report entry: when a change was seen and the full snapshot seen then. */
  datatype Entry = Entry(date: DateTime, stories: seq<Story>)

  predicate IsSnapshot(stories: seq<Story>) {
    |stories| == SlotCount
  }

  /** Five slots whose headline and kicker are both `value`. */
  function GenerateDefaultStories(value: Option<string>): (r: seq<Story>)
    ensures IsSnapshot(r)
    ensures forall i :: 0 <= i < |r| ==> r[i].headline == value && r[i].kicker == value
  {
    seq(SlotCount, _ => Story(value, value))
  }

  /** Strict inequality of either field: `null`, `""` and any text are all told apart. */
  predicate SlotDiffers(prev: Story, curr: Story) {
    prev.headline != curr.headline || prev.kicker != curr.kicker
  }

  /** Some slot differs from the slot at the same index of the previous snapshot. */
  predicate Changed(prev: seq<Story>, curr: seq<Story>)
    requires IsSnapshot(prev) && IsSnapshot(curr)
  {
    exists i :: 0 <= i < SlotCount && SlotDiffers(prev[i], curr[i])
  }

  /** Slot-wise comparison is exactly inequality of the snapshots. */
  lemma ChangedIffUnequal(prev: seq<Story>, curr: seq<Story>)
    requires IsSnapshot(prev) && IsSnapshot(curr)
    ensures Changed(prev, curr) <==> prev != curr
  {
    if !Changed(prev, curr) {
      assert forall i :: 0 <= i < SlotCount ==> prev[i] == curr[i];
    }
  }
}
