/**
 * The best-class scan (get_best_class): a left-to-right argmax over the class
 * scores of a row, starting from score 0.0 and id -1 and replacing the best
 * only on a strictly greater score, so the first maximum wins and a row with
 * no positive score has no class.
 */
module Scoring {
  /**
   * `(id, score)` is what the scan should report for `scores`: id -1 and score
   * 0.0 when no score is positive, otherwise the position of the first maximum
   * and that maximum.
   */
  predicate IsFirstMax(scores: seq<real>, id: int, score: real) {
    && -1 <= id < |scores|
    && (id == -1 ==> score == 0.0 && forall j :: 0 <= j < |scores| ==> scores[j] <= 0.0)
    && (0 <= id ==>
          && scores[id] == score
          && 0.0 < score
          && (forall j :: 0 <= j < |scores| ==> scores[j] <= score)
          && (forall j :: 0 <= j < id ==> scores[j] < score))
  }

  /** The state of the scan after it has read all of `scores`. */
  function BestClass(scores: seq<real>): (r: (int, real))
    ensures IsFirstMax(scores, r.0, r.1)
  {
    if scores == [] then (-1, 0.0)
    else
      var (id, best) := BestClass(scores[..|scores| - 1]);
      var last := scores[|scores| - 1];
      if last > best then (|scores| - 1, last) else (id, best)
  }

  /** At most one (id, score) pair is the first maximum of a score list. */
  lemma FirstMaxUnique(scores: seq<real>, id1: int, s1: real, id2: int, s2: real)
    requires IsFirstMax(scores, id1, s1) && IsFirstMax(scores, id2, s2)
    ensures id1 == id2 && s1 == s2
  {
  }

  /** The scan's result is exactly the first maximum: both directions. */
  lemma BestClassIsFirstMax(scores: seq<real>, id: int, score: real)
    ensures BestClass(scores) == (id, score) <==> IsFirstMax(scores, id, score)
  {
    if IsFirstMax(scores, id, score) {
      var r := BestClass(scores);
      FirstMaxUnique(scores, r.0, r.1, id, score);
    }
  }

  /** get_best_class. */
  method GetBestClass(scores: seq<real>) returns (id: int, maxScore: real)
    ensures (id, maxScore) == BestClass(scores)
    ensures -1 <= id < |scores| && 0.0 <= maxScore
    ensures id == -1 <==> forall j :: 0 <= j < |scores| ==> scores[j] <= 0.0
    ensures id == -1 ==> maxScore == 0.0
    ensures 0 <= id ==> scores[id] == maxScore
    ensures forall j :: 0 <= j < |scores| ==> scores[j] <= maxScore
    ensures forall j :: 0 <= j < id ==> scores[j] < maxScore
  {
    maxScore := 0.0;
    id := -1;
    for i := 0 to |scores|
      invariant (id, maxScore) == BestClass(scores[..i])
    {
      assert scores[..i + 1][..i] == scores[..i];
      if scores[i] > maxScore {
        maxScore := scores[i];
        id := i;
      }
    }
    assert scores[..|scores|] == scores;
  }
}
