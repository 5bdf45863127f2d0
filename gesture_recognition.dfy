/**
 * The gesture classifier: an ordered cascade of seven finger patterns, each
 * giving one label, and the pinch distance between thumb tip and index tip.
 */
module GestureRecognition {
  import opened Geometry
  import opened HandDetector

  /** The labels the classifier produces; `None` is the label "None". */
  datatype Gesture = None | Pause | Move | ScrollDown | ScrollUp | ZoomOut | ZoomIn | Click

  /**
   * What `recognize_gesture` returns: the bare label when no landmarks are
   * given, otherwise the pair of label and (squared) pinch distance.
   */
  datatype Recognition = Bare(gesture: Gesture) | Labelled(gesture: Gesture, pinch: int)

  /** Python's `all` over the finger list. */
  predicate All(f: seq<bool>)
  {
    forall i :: 0 <= i < |f| ==> f[i]
  }

  /** Python's `any` over the finger list. */
  predicate Any(f: seq<bool>)
  {
    exists i :: 0 <= i < |f| && f[i]
  }

  /** How the classifier reads the 0/1 entries of the finger list: non-zero is up. */
  function Truthy(v: seq<int>): seq<bool>
  {
    seq(|v|, i requires 0 <= i < |v| => v[i] != 0)
  }

  /**
   * The finger pattern of each branch of the cascade, with the index order
   * [thumb, index, middle, ring, pinky]. `None` has no pattern of its own:
   * it is what is left when no pattern matches.
   */
  predicate Rule(g: Gesture, f: seq<bool>)
    requires |f| >= 5
  {
    match g
    case None => false
    case Pause => All(f)
    case Move => f[1] && !f[0] && !f[2] && !f[3] && !f[4]
    case ScrollDown => f[1] && f[2] && f[3] && !f[4]
    case ScrollUp => f[1] && f[2] && !f[3] && !f[4]
    case ZoomOut => f[4] && f[0] && !f[1] && !f[2] && !f[3]
    case ZoomIn => f[4] && !f[0] && !f[1] && !f[2] && !f[3]
    case Click => !Any(f)
  }

  /** The branches in the order the classifier tries them. */
  const CascadeOrder: seq<Gesture> := [Pause, Move, ScrollDown, ScrollUp, ZoomOut, ZoomIn, Click]

  /** The if/elif cascade of `recognize_gesture`: the first matching pattern wins. */
  function Cascade(f: seq<bool>): (r: Gesture)
    requires |f| >= 5
    ensures r != None ==> Rule(r, f)
    ensures r == None ==> forall g :: !Rule(g, f)
  {
    if Rule(Pause, f) then Pause
    else if Rule(Move, f) then Move
    else if Rule(ScrollDown, f) then ScrollDown
    else if Rule(ScrollUp, f) then ScrollUp
    else if Rule(ZoomOut, f) then ZoomOut
    else if Rule(ZoomIn, f) then ZoomIn
    else if Rule(Click, f) then Click
    else None
  }

  /**
   * `recognize_gesture`. An empty landmark list gives the bare label; any
   * other gives the label and the pinch distance between landmarks 4 and 8.
   * Landmark 12 is read (so it must exist) but not used.
   */
  function Recognize(fingers: seq<bool>, landmarks: seq<Landmark>): (r: Recognition)
    requires landmarks == [] || (|landmarks| >= 13 && |fingers| >= 5)
    ensures r.Bare? <==> landmarks == []
    ensures r.Bare? ==> r.gesture == None
  {
    if landmarks == [] then Bare(None)
    else
      var thumbTip := landmarks[4];
      var indexTip := landmarks[8];
      var pinch := SquaredDistance((thumbTip.x, thumbTip.y), (indexTip.x, indexTip.y));
      Labelled(Cascade(fingers), pinch)
  }

  /**
   * The label depends on the fingers alone and the pinch distance on
   * landmarks 4 and 8 alone: the rest of the landmark list, the middle tip
   * included, changes nothing.
   */
  lemma RecognizeReadsOnly(f1: seq<bool>, f2: seq<bool>, lm1: seq<Landmark>, lm2: seq<Landmark>)
    requires |lm1| >= 13 && |f1| >= 5 && |lm2| >= 13 && |f2| >= 5
    ensures f1 == f2 ==> Recognize(f1, lm1).gesture == Recognize(f2, lm2).gesture
    ensures (lm1[4].x, lm1[4].y, lm1[8].x, lm1[8].y) == (lm2[4].x, lm2[4].y, lm2[8].x, lm2[8].y)
            ==> Recognize(f1, lm1).pinch == Recognize(f2, lm2).pinch
  {
  }

  /** The pinch distance is that of thumb tip and index tip, whatever the label. */
  lemma PinchIsThumbIndexDistance(fingers: seq<bool>, lm: seq<Landmark>)
    requires |lm| >= 13 && |fingers| >= 5
    ensures Recognize(fingers, lm).pinch == SquaredDistance((lm[4].x, lm[4].y), (lm[8].x, lm[8].y))
    ensures Recognize(fingers, lm).pinch >= 0
    ensures Recognize(fingers, lm).pinch == 0 <==> (lm[4].x, lm[4].y) == (lm[8].x, lm[8].y)
  {
    SquaredDistanceZeroIff((lm[4].x, lm[4].y), (lm[8].x, lm[8].y));
  }

  /**
   * What the classifier reads from the detector: finger f is up exactly when
   * the detector's comparison for that finger holds.
   */
  lemma ClassifierSeesDetector(lm: seq<Landmark>)
    requires |lm| >= 21
    ensures Truthy(Fingers(lm)) == [lm[4].x < lm[3].x, lm[8].y < lm[6].y, lm[12].y < lm[10].y,
                                    lm[16].y < lm[14].y, lm[20].y < lm[18].y]
  {
  }

  /** No finger vector matches two patterns. */
  lemma RulesDisjoint(f: seq<bool>, g: Gesture, h: Gesture)
    requires |f| >= 5
    requires Rule(g, f) && Rule(h, f)
    ensures g == h
  {
    if g == Click || h == Click {
      var other := if g == Click then h else g;
      if other != Click {
        assert f[0] || f[1] || f[4];
        assert Any(f);
      }
    }
  }

  /** The cascade returns a label exactly when that label's pattern matches. */
  lemma CascadeSelectsMatchingRule(f: seq<bool>)
    requires |f| >= 5
    ensures forall g :: g != None ==> (Cascade(f) == g <==> Rule(g, f))
    ensures Cascade(f) == None <==> forall g :: !Rule(g, f)
  {
    forall g | Rule(g, f)
      ensures Cascade(f) == g
    {
      RulesDisjoint(f, Cascade(f), g);
    }
  }

  /** The cascade tried in an arbitrary order of branches. */
  function FirstMatch(order: seq<Gesture>, f: seq<bool>): Gesture
    requires |f| >= 5
  {
    if order == [] then None
    else if Rule(order[0], f) then order[0]
    else FirstMatch(order[1..], f)
  }

  lemma {:induction false} FirstMatchFinds(order: seq<Gesture>, f: seq<bool>, g: Gesture)
    requires |f| >= 5
    requires Rule(g, f) && g in order
    ensures FirstMatch(order, f) == g
  {
    if Rule(order[0], f) {
      RulesDisjoint(f, order[0], g);
    } else {
      FirstMatchFinds(order[1..], f, g);
    }
  }

  lemma {:induction false} FirstMatchMisses(order: seq<Gesture>, f: seq<bool>)
    requires |f| >= 5
    requires forall g :: !Rule(g, f)
    ensures FirstMatch(order, f) == None
  {
    if order != [] {
      FirstMatchMisses(order[1..], f);
    }
  }

  /**
   * Because the patterns are disjoint, trying the branches in any order that
   * covers all seven gives the label of the written cascade.
   */
  lemma CascadeOrderIrrelevant(order: seq<Gesture>, f: seq<bool>)
    requires |f| >= 5
    requires forall g :: g in CascadeOrder ==> g in order
    ensures FirstMatch(order, f) == Cascade(f)
  {
    CascadeSelectsMatchingRule(f);
    if Cascade(f) == None {
      FirstMatchMisses(order, f);
    } else {
      FirstMatchFinds(order, f, Cascade(f));
    }
  }

  /** The full label table over five-finger vectors [thumb, index, middle, ring, pinky]. */
  lemma LabelTable(f: seq<bool>)
    requires |f| == 5
    ensures Cascade(f) == Pause <==> f == [true, true, true, true, true]
    ensures Cascade(f) == Move <==> f == [false, true, false, false, false]
    ensures Cascade(f) == ScrollDown <==> f[1..] == [true, true, true, false]
    ensures Cascade(f) == ScrollUp <==> f[1..] == [true, true, false, false]
    ensures Cascade(f) == ZoomOut <==> f == [true, false, false, false, true]
    ensures Cascade(f) == ZoomIn <==> f == [false, false, false, false, true]
    ensures Cascade(f) == Click <==> f == [false, false, false, false, false]
  {
    CascadeSelectsMatchingRule(f);
    assert f == [f[0], f[1], f[2], f[3], f[4]];
    assert f[1..] == [f[1], f[2], f[3], f[4]];
  }

  /** The five-finger vectors that get a label other than "None". */
  const LabelledVectors: set<seq<bool>> := {
    [true, true, true, true, true],
    [false, true, false, false, false],
    [false, true, true, true, false],
    [true, true, true, true, false],
    [false, true, true, false, false],
    [true, true, true, false, false],
    [true, false, false, false, true],
    [false, false, false, false, true],
    [false, false, false, false, false]
  }

  /** All boolean vectors of length n. */
  function Vectors(n: nat): (r: set<seq<bool>>)
    ensures forall v :: v in r ==> |v| == n
  {
    if n == 0 then {[]}
    else Prepend(false, Vectors(n - 1)) + Prepend(true, Vectors(n - 1))
  }

  function Prepend(b: bool, s: set<seq<bool>>): set<seq<bool>>
  {
    set v | v in s :: [b] + v
  }

  function Pow2(n: nat): nat
  {
    if n == 0 then 1 else 2 * Pow2(n - 1)
  }

  lemma {:induction false} VectorsAreTheVectorsOfLength(n: nat, v: seq<bool>)
    ensures v in Vectors(n) <==> |v| == n
  {
    if n > 0 {
      if v in Vectors(n) {
        var b := v[0];
        var w :| w in Vectors(n - 1) && v == [b] + w;
        VectorsAreTheVectorsOfLength(n - 1, w);
      }
      if |v| == n {
        var w := v[1..];
        VectorsAreTheVectorsOfLength(n - 1, w);
        assert v == [v[0]] + w;
        assert [v[0]] + w in Prepend(v[0], Vectors(n - 1));
      }
    }
  }

  lemma {:induction false} PrependKeepsSize(b: bool, s: set<seq<bool>>)
    ensures |Prepend(b, s)| == |s|
    decreases |s|
  {
    if s == {} {
      assert Prepend(b, s) == {};
    } else {
      var x :| x in s;
      PrependKeepsSize(b, s - {x});
      assert Prepend(b, s) == Prepend(b, s - {x}) + {[b] + x};
      forall y | y in s - {x}
        ensures [b] + y != [b] + x
      {
        assert ([b] + y)[1..] == y;
        assert ([b] + x)[1..] == x;
      }
    }
  }

  lemma {:induction false} VectorsCount(n: nat)
    ensures |Vectors(n)| == Pow2(n)
  {
    if n > 0 {
      var s := Vectors(n - 1);
      VectorsCount(n - 1);
      PrependKeepsSize(false, s);
      PrependKeepsSize(true, s);
      forall v | v in Prepend(false, s) ensures v !in Prepend(true, s) {
        assert v[0] == false;
      }
      assert Prepend(false, s) * Prepend(true, s) == {};
    }
  }

  /** A five-finger vector gets a label exactly when it is one of the nine listed. */
  lemma LabelledExactly(f: seq<bool>)
    requires |f| == 5
    ensures Cascade(f) != None <==> f in LabelledVectors
  {
    assert f == [f[0], f[1], f[2], f[3], f[4]];
    CascadeSelectsMatchingRule(f);
    if !f[0] && !f[1] && !f[2] && !f[3] && !f[4] {
      assert !Any(f);
    } else {
      assert Any(f);
    }
  }

  lemma NineListed()
    ensures |LabelledVectors| == 9
  {
  }

  /** Every vector of length n is among `Vectors(n)`. */
  lemma VectorsComplete(n: nat)
    ensures forall f :: |f| == n ==> f in Vectors(n)
  {
    forall f | |f| == n ensures f in Vectors(n) {
      VectorsAreTheVectorsOfLength(n, f);
    }
  }

  /** `LabelledExactly` over a whole set of five-finger vectors. */
  lemma LabelledExactlyIn(s: set<seq<bool>>)
    requires forall f :: f in s ==> |f| == 5
    ensures forall f :: f in s ==> (Cascade(f) != None <==> f in LabelledVectors)
  {
    forall f | f in s
      ensures Cascade(f) != None <==> f in LabelledVectors
    {
      LabelledExactly(f);
    }
  }

  /** The "None" vectors of a set of five-finger vectors that holds all labelled ones. */
  lemma {:induction false} NoneCountIn(s: set<seq<bool>>)
    requires forall f :: f in s ==> |f| == 5
    requires LabelledVectors <= s
    ensures |set f | f in s && Cascade(f) == None| == |s| - 9
  {
    NineListed();
    LabelledExactlyIn(s);
    var none := set f | f in s && Cascade(f) == None;
    assert none == s - LabelledVectors;
  }

  /**
   * Exactly 9 of the 32 five-finger vectors get a label; the other 23 are
   * classified "None".
   */
  lemma NineOfThirtyTwoLabelled()
    ensures |Vectors(5)| == 32
    ensures forall f :: f in Vectors(5) ==> (Cascade(f) != None <==> f in LabelledVectors)
    ensures |LabelledVectors| == 9
    ensures |set f | f in Vectors(5) && Cascade(f) == None| == 23
  {
    var all := Vectors(5);
    VectorsCount(5);
    NineListed();
    VectorsComplete(5);
    assert LabelledVectors <= all;
    LabelledExactlyIn(all);
    NoneCountIn(all);
  }
}
