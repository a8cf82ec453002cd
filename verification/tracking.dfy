/** The "best so far" bookkeeping that appears twice in the source: the GA loop
    keeps the generation whose mean fitness is >= the best mean seen, and the
    sweep keeps the grid cell whose score is >= the best score seen. Both start
    from a threshold of 0.0 with nothing recorded, and both use ">=", so a later
    entry that ties the running maximum replaces the earlier one. */
module Tracking {
  import opened Options

  /** The running maximum `score` and the item recorded with it (if any). */
  datatype Best<T> = Best(score: real, item: Option<T>)

  /** One candidate offered to the tracker. */
  datatype Entry<T> = Entry(score: real, item: T)

  /** Threshold 0.0, nothing recorded yet. */
  function Start<T>(): Best<T> {
    Best(0.0, None)
  }

  /** One comparison `if score >= best: record it`. */
  function Offer<T>(b: Best<T>, e: Entry<T>): (r: Best<T>)
    ensures r.score >= b.score && r.score >= e.score
    ensures r.score == b.score || r.score == e.score
    ensures e.score >= b.score <==> r.item == Some(e.item) && r.score == e.score
    ensures e.score < b.score ==> r == b
  {
    if e.score >= b.score then Best(e.score, Some(e.item)) else b
  }

  /** Offering every entry in order, first to last. */
  function OfferAll<T>(b: Best<T>, es: seq<Entry<T>>): Best<T>
    decreases |es|
  {
    if |es| == 0 then b else Offer(OfferAll(b, es[..|es| - 1]), es[|es| - 1])
  }

  /** `j` holds a maximal score of `es`, and every later entry scores strictly less:
      the LAST position of the maximum. */
  ghost predicate IsLastMax<T>(es: seq<Entry<T>>, j: int) {
    && 0 <= j < |es|
    && (forall i :: 0 <= i < |es| ==> es[i].score <= es[j].score)
    && (forall i :: j < i < |es| ==> es[i].score < es[j].score)
  }

  /** What the tracker holds after a run of offers, stated without the fold:
      its score is the maximum of the starting threshold and every offered
      score; if no entry reached the threshold nothing changed; otherwise it
      records the last entry holding the maximum. */
  lemma {:induction false} OfferAllSpec<T>(b: Best<T>, es: seq<Entry<T>>)
    ensures OfferAll(b, es).score >= b.score
    ensures forall i :: 0 <= i < |es| ==> es[i].score <= OfferAll(b, es).score
    ensures (forall i :: 0 <= i < |es| ==> es[i].score < b.score) ==> OfferAll(b, es) == b
    ensures (exists i :: 0 <= i < |es| && es[i].score >= b.score) ==>
              exists j :: IsLastMax(es, j) && OfferAll(b, es) == Best(es[j].score, Some(es[j].item))
    decreases |es|
  {
    if |es| > 0 {
      var init := es[..|es| - 1];
      var last := es[|es| - 1];
      OfferAllSpec(b, init);
      var prev := OfferAll(b, init);
      if last.score >= prev.score {
        assert IsLastMax(es, |es| - 1);
      } else {
        assert OfferAll(b, es) == prev;
        if exists i :: 0 <= i < |es| && es[i].score >= b.score {
          var i :| 0 <= i < |es| && es[i].score >= b.score;
          if i < |init| {
            assert init[i] == es[i];
          } else {
            // The last entry reached the threshold yet lost, so an earlier
            // entry raised the running maximum above it.
            assert prev.score > b.score;
          }
          var j :| IsLastMax(init, j) && prev == Best(init[j].score, Some(init[j].item));
          assert IsLastMax(es, j);
        }
      }
    }
  }
}
