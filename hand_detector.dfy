/**
 * The finger-state rule of the hand detector: from the landmark list of one
 * hand to the 0/1 vector [thumb, index, middle, ring, pinky].
 */
module HandDetector {

  /** One entry `[id, x, y]` of the landmark list, in integer pixel coordinates. */
  datatype Landmark = Landmark(id: int, x: int, y: int)

  /** Landmark numbers of the five fingertips, thumb first. */
  const TipIds: seq<int> := [4, 8, 12, 16, 20]

  /**
   * The landmark lists the rule accepts: empty (no hand in view) or long
   * enough to index the pinky tip, landmark 20.
   */
  predicate Indexable(lm: seq<Landmark>)
  {
    lm == [] || |lm| >= 21
  }

  /** 1 when `tip` is strictly below `base`, else 0. Equal coordinates give 0. */
  function Up(tip: int, base: int): int
  {
    if tip < base then 1 else 0
  }

  /**
   * The finger vector, written out finger by finger: the thumb compares the
   * x of its tip with the joint below it; each other finger compares the y
   * of its tip with the joint two below it (a smaller y is higher in the image).
   */
  function Fingers(lm: seq<Landmark>): (r: seq<int>)
    requires Indexable(lm)
    ensures |r| == (if lm == [] then 0 else 5)
    ensures forall f :: 0 <= f < |r| ==> r[f] in {0, 1}
  {
    if lm == [] then []
    else [Up(lm[4].x, lm[3].x),
          Up(lm[8].y, lm[6].y),
          Up(lm[12].y, lm[10].y),
          Up(lm[16].y, lm[14].y),
          Up(lm[20].y, lm[18].y)]
  }

  /** `fingers_up`: the thumb first, then a loop over the four other fingertips. */
  method FingersUp(lmList: seq<Landmark>) returns (fingers: seq<int>)
    requires Indexable(lmList)
    ensures fingers == Fingers(lmList)
  {
    fingers := [];
    if lmList == [] {
      return;
    }
    var tipIds := TipIds;
    if lmList[tipIds[0]].x < lmList[tipIds[0] - 1].x {
      fingers := fingers + [1];
    } else {
      fingers := fingers + [0];
    }
    for id := 1 to 5
      invariant |fingers| == id
      invariant forall f :: 0 <= f < id ==> fingers[f] == Fingers(lmList)[f]
    {
      if lmList[tipIds[id]].y < lmList[tipIds[id] - 2].y {
        fingers := fingers + [1];
      } else {
        fingers := fingers + [0];
      }
    }
  }

  /** The vector in words: its length, its values and the rule behind each entry. */
  lemma FingersMeaning(lm: seq<Landmark>)
    requires Indexable(lm)
    ensures lm == [] <==> Fingers(lm) == []
    ensures lm != [] ==> |Fingers(lm)| == 5
    ensures forall f :: 0 <= f < |Fingers(lm)| ==> Fingers(lm)[f] in {0, 1}
    ensures lm != [] ==> (Fingers(lm)[0] == 1 <==> lm[4].x < lm[3].x)
    ensures lm != [] ==> forall f :: 1 <= f < 5 ==>
              (Fingers(lm)[f] == 1 <==> lm[TipIds[f]].y < lm[TipIds[f] - 2].y)
  {
    if lm != [] {
      forall f | 1 <= f < 5
        ensures Fingers(lm)[f] == 1 <==> lm[TipIds[f]].y < lm[TipIds[f] - 2].y
      {
        assert TipIds[f] == 4 * f + 4;
      }
    }
  }

  /** The comparisons are strict: a tip level with its joint counts as down. */
  lemma LevelFingerIsDown(lm: seq<Landmark>, f: int)
    requires |lm| >= 21 && 0 <= f < 5
    requires f == 0 ==> lm[4].x == lm[3].x
    requires f > 0 ==> lm[TipIds[f]].y == lm[TipIds[f] - 2].y
    ensures Fingers(lm)[f] == 0
  {
    FingersMeaning(lm);
  }
}
