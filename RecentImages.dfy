/** The application shell's "recent images" strip (`App.handleImageGenerated`):
    the newest batch first, then what was there before, at most six in all. */
module RecentImages {
  import opened ApiTypes
  import opened JsArray
  import ImageHistory
  import ImageGenerator
  import ImageUtils

  const RecentLimit: nat := 6

  /** The strip after a batch arrives: the batch's records in their own order,
      then the previous strip, cut to the first six (`handleImageGenerated`). */
  function Recent(batch: seq<GeneratedImage>, prev: seq<GeneratedImage>): seq<GeneratedImage> {
    Take(batch + prev, RecentLimit)
  }

  /** The strip holds min(6, |batch| + |prev|) records: a prefix of the batch (in
      its own order) followed by the newest part of the previous strip, so the
      oldest previous entries are the ones dropped; previous entry `k` survives, at
      position `|batch| + k`, exactly when `|batch| + k < 6`. */
  lemma {:induction false} RecentShape(batch: seq<GeneratedImage>, prev: seq<GeneratedImage>)
    ensures var r := Recent(batch, prev);
      && |r| == (if |batch| + |prev| <= RecentLimit then |batch| + |prev| else RecentLimit)
      && r == (batch + prev)[..|r|]
      && r == Take(batch, RecentLimit) + Take(prev, RecentLimit - |Take(batch, RecentLimit)|)
      && (forall k :: 0 <= k < |prev| ==>
            (|batch| + k < |r| <==> |batch| + k < RecentLimit) &&
            (|batch| + k < |r| ==> r[|batch| + k] == prev[k]))
  {
    var r := Recent(batch, prev);
    var b := Take(batch, RecentLimit);
    var p := Take(prev, RecentLimit - |b|);
    assert r == b + p by {
      assert |r| == |b| + |p|;
      forall i | 0 <= i < |r| ensures r[i] == (b + p)[i] {
        if i < |b| {
          assert r[i] == (batch + prev)[i] == batch[i];
        } else {
          assert r[i] == (batch + prev)[i] == prev[i - |batch|];
        }
      }
    }
    forall k | 0 <= k < |prev| && |batch| + k < |r|
      ensures r[|batch| + k] == prev[k]
    {
      assert r[|batch| + k] == (batch + prev)[|batch| + k];
    }
  }

  /** An empty batch leaves a strip of at most six records as it is. */
  lemma RecentEmptyBatch(prev: seq<GeneratedImage>)
    requires |prev| <= RecentLimit
    ensures Recent([], prev) == prev
  {
    assert [] + prev == prev;
  }

  /** The strip as it is drawn: `recentImages.slice(0, 6)`. */
  function Rendered(recent: seq<GeneratedImage>): seq<GeneratedImage> {
    Take(recent, RecentLimit)
  }

  /** The history gains a batch reversed while the strip shows it in its own
      order: for a batch of up to six records, the strip's first `|batch|` entries
      are the batch, the history's first `|batch|` entries are the batch reversed,
      and the two lists start with the batch's first and last record respectively. */
  lemma HistoryAndRecentOrder(batch: seq<GeneratedImage>, history: seq<GeneratedImage>,
                              prev: seq<GeneratedImage>)
    requires 0 < |batch| <= RecentLimit
    ensures var h := ImageHistory.Reverse(batch) + history;
            var r := Recent(batch, prev);
      && |r| >= |batch| && r[..|batch|] == batch && r[0] == batch[0]
      && |h| >= |batch| && h[..|batch|] == ImageHistory.Reverse(batch)
      && h[0] == batch[|batch| - 1]
  {
    RecentShape(batch, prev);
    ImageHistory.ReverseAt(batch, 0);
    var r := Recent(batch, prev);
    assert r[..|batch|] == batch by {
      assert Take(batch, RecentLimit) == batch;
      assert r == batch + Take(prev, RecentLimit - |batch|);
    }
  }

  /** The application component's state. */
  class App {
    var recentImages: seq<GeneratedImage>

    /** The strip never holds more than six records. */
    predicate Valid()
      reads this
    {
      |recentImages| <= RecentLimit
    }

    constructor ()
      ensures Valid() && recentImages == []
    {
      recentImages := [];
    }

    /** `handleImageGenerated`. */
    method HandleImageGenerated(images: seq<GeneratedImage>)
      requires Valid()
      modifies this
      ensures Valid()
      ensures recentImages == Recent(images, old(recentImages))
    {
      recentImages := Recent(images, recentImages);
    }

    /** What the strip draws: since it never holds more than six records, the
        render-time slice is the stored list itself. */
    function RenderedRecent(): (shown: seq<GeneratedImage>)
      requires Valid()
      reads this
      ensures shown == recentImages
    {
      Rendered(recentImages)
    }

    /** The generator wired to this component through `onImageGenerated`: one
        press of the generate button that runs to completion. A successful run
        puts the batch reversed in front of the history and in its own order in
        front of the strip; a blank prompt or a failed run leaves both alone. */
    method OnGenerate(gen: ImageGenerator.Generator, outcome: GenerateOutcome,
                      newId: nat -> string, now: nat -> int)
      requires Valid()
      modifies this, gen`isGenerating, gen`error, gen`status, gen`progress, gen.history`images
      ensures Valid()
      ensures !ImageGenerator.IsBlank(gen.form.prompt) && outcome.Generated? ==>
        var batch := ImageUtils.ConvertToGeneratedImage(
          outcome.response, gen.form.prompt, Some(gen.form.negativePrompt), newId, now);
        && gen.history.images == ImageHistory.Reverse(batch) + old(gen.history.images)
        && recentImages == Recent(batch, old(recentImages))
      ensures ImageGenerator.IsBlank(gen.form.prompt) || outcome.Rejected? ==>
        gen.history.images == old(gen.history.images) && recentImages == old(recentImages)
    {
      var request, notified := gen.HandleGenerate(outcome, newId, now);
      if notified.Some? {
        HandleImageGenerated(notified.value);
      }
    }
  }
}
