/**
 * The per-frame decision of the program's main loop: from the landmark list
 * of one camera frame to the gesture, the pinch distance and the one command
 * given to the mouse controller.
 */
module Dispatch {
  import opened Geometry
  import opened HandDetector
  import opened GestureRecognition
  import MouseControl

  /** Scroll amount of the two scroll gestures. */
  const ScrollSteps: int := 30

  /** Zoom amount of the two zoom gestures. */
  const ZoomSteps: int := 20

  /** Pause after a click, in milliseconds: the only debounce there is. */
  const ClickPauseMs: nat := 200

  /** The controller call a frame leads to. */
  datatype Command =
    | Idle
    | MoveCursor(x: int, y: int, frameHeight: int, frameWidth: int)
    | ScrollBy(steps: int)
    | ZoomBy(steps: int)
    | ClickThenPause(pauseMs: nat)

  /** What one frame yields: the label shown on screen, the pinch distance (which the loop never uses), and the command. */
  datatype FrameResult = FrameResult(gesture: Gesture, pinch: int, command: Command)

  /** The branch on the label; (x1, y1) is the index fingertip, landmark 8. */
  function CommandFor(g: Gesture, x1: int, y1: int, frameHeight: int, frameWidth: int): (r: Command)
    ensures r == Idle <==> g == Pause || g == None
    ensures r.MoveCursor? <==> g == Move
    ensures r.MoveCursor? ==> r == MoveCursor(x1, y1, frameHeight, frameWidth)
    ensures r.ClickThenPause? <==> g == Click
  {
    match g
    case Move => MoveCursor(x1, y1, frameHeight, frameWidth)
    case ScrollUp => ScrollBy(ScrollSteps)
    case ScrollDown => ScrollBy(-ScrollSteps)
    case ZoomIn => ZoomBy(ZoomSteps)
    case ZoomOut => ZoomBy(-ZoomSteps)
    case Click => ClickThenPause(ClickPauseMs)
    case Pause => Idle
    case None => Idle
  }

  /**
   * One frame. With no hand the label stays "None", the distance 0 and
   * nothing is commanded; otherwise the detector's finger vector goes through
   * the classifier, whose tuple result is unpacked (the bare-label result
   * cannot occur, since the landmark list is not empty).
   */
  function Decide(lm: seq<Landmark>, frameHeight: int, frameWidth: int): (r: FrameResult)
    requires Indexable(lm)
    ensures lm == [] ==> r == FrameResult(None, 0, Idle)
    ensures lm != [] ==> r.gesture == Cascade(Truthy(Fingers(lm)))
    ensures lm != [] ==> r.pinch == SquaredDistance((lm[4].x, lm[4].y), (lm[8].x, lm[8].y))
  {
    if lm == [] then FrameResult(None, 0, Idle)
    else
      var rec := Recognize(Truthy(Fingers(lm)), lm);
      var x1, y1 := lm[8].x, lm[8].y;
      FrameResult(rec.gesture, rec.pinch, CommandFor(rec.gesture, x1, y1, frameHeight, frameWidth))
  }

  /**
   * The command table of a frame with a hand, in both directions: "Move"
   * moves to landmark 8 within the frame's shape, the scroll and zoom labels
   * give their signed amounts, "Click" a click and its pause, and exactly
   * "Pause" and "None" give nothing.
   */
  lemma CommandTable(lm: seq<Landmark>, frameHeight: int, frameWidth: int)
    requires |lm| >= 21
    ensures var r := Decide(lm, frameHeight, frameWidth);
      && (r.gesture == Move <==> r.command == MoveCursor(lm[8].x, lm[8].y, frameHeight, frameWidth))
      && (r.gesture == ScrollUp <==> r.command == ScrollBy(30))
      && (r.gesture == ScrollDown <==> r.command == ScrollBy(-30))
      && (r.gesture == ZoomIn <==> r.command == ZoomBy(20))
      && (r.gesture == ZoomOut <==> r.command == ZoomBy(-20))
      && (r.gesture == Click <==> r.command == ClickThenPause(200))
      && (r.gesture in {Pause, None} <==> r.command == Idle)
  {
  }

  /** Different labels that command something command different things. */
  lemma CommandIdentifiesGesture(g1: Gesture, g2: Gesture, x1: int, y1: int, frameHeight: int, frameWidth: int)
    requires CommandFor(g1, x1, y1, frameHeight, frameWidth) == CommandFor(g2, x1, y1, frameHeight, frameWidth)
    requires CommandFor(g1, x1, y1, frameHeight, frameWidth) != Idle
    ensures g1 == g2
  {
  }

  /** A fist (thumb tip not left of its joint, every other tip not above its joint) clicks. */
  lemma FistClicks(lm: seq<Landmark>, frameHeight: int, frameWidth: int)
    requires |lm| >= 21
    requires lm[4].x >= lm[3].x
    requires lm[8].y >= lm[6].y && lm[12].y >= lm[10].y && lm[16].y >= lm[14].y && lm[20].y >= lm[18].y
    ensures Decide(lm, frameHeight, frameWidth).gesture == Click
    ensures Decide(lm, frameHeight, frameWidth).command == ClickThenPause(ClickPauseMs)
  {
    var f := Truthy(Fingers(lm));
    assert f == [false, false, false, false, false];
    LabelTable(f);
  }

  /** Pointing with the index finger alone moves the cursor towards the index fingertip. */
  lemma PointingMoves(lm: seq<Landmark>, frameHeight: int, frameWidth: int)
    requires |lm| >= 21
    requires lm[4].x >= lm[3].x
    requires lm[8].y < lm[6].y
    requires lm[12].y >= lm[10].y && lm[16].y >= lm[14].y && lm[20].y >= lm[18].y
    ensures Decide(lm, frameHeight, frameWidth).command == MoveCursor(lm[8].x, lm[8].y, frameHeight, frameWidth)
  {
    var f := Truthy(Fingers(lm));
    assert f == [false, true, false, false, false];
    LabelTable(f);
  }

  /** An open palm pauses: nothing is commanded. */
  lemma OpenPalmPauses(lm: seq<Landmark>, frameHeight: int, frameWidth: int)
    requires |lm| >= 21
    requires lm[4].x < lm[3].x
    requires lm[8].y < lm[6].y && lm[12].y < lm[10].y && lm[16].y < lm[14].y && lm[20].y < lm[18].y
    ensures Decide(lm, frameHeight, frameWidth).gesture == Pause
    ensures Decide(lm, frameHeight, frameWidth).command == Idle
  {
    var f := Truthy(Fingers(lm));
    assert f == [true, true, true, true, true];
    LabelTable(f);
  }

  /** The controller's observable state: cursor positions and the actuator log. */
  datatype ControllerState = ControllerState(
    plocX: real, plocY: real, clocX: real, clocY: real,
    actuations: seq<MouseControl.Actuation>)

  function StateOf(c: MouseControl.MouseController): ControllerState
    reads c
  {
    ControllerState(c.plocX, c.plocY, c.clocX, c.clocY, c.actuations)
  }

  /**
   * What carrying out a command does to the controller's state, given the
   * screen size, the smoothing factor and whether the actuator's fail-safe
   * refuses a move.
   */
  function Effect(cmd: Command, s: ControllerState, screenWidth: nat, screenHeight: nat,
                  smoothing: real, failSafe: bool): (t: ControllerState)
    requires cmd.MoveCursor? ==> cmd.frameWidth > 2 * MouseControl.FrameMargin
                                 && cmd.frameHeight > 2 * MouseControl.FrameMargin
                                 && smoothing != 0.0
    ensures !cmd.MoveCursor? ==> t.plocX == s.plocX && t.plocY == s.plocY && t.clocX == s.clocX && t.clocY == s.clocY
    ensures cmd.Idle? ==> t == s
  {
    match cmd
    case Idle => s
    case MoveCursor(x, y, fh, fw) =>
      var cx := MouseControl.Smooth(s.plocX, MouseControl.ScreenTarget(x, fw, screenWidth), smoothing);
      var cy := MouseControl.Smooth(s.plocY, MouseControl.ScreenTarget(y, fh, screenHeight), smoothing);
      ControllerState(cx, cy, cx, cy,
                      s.actuations + (if failSafe then [] else [MouseControl.MoveTo(cx, cy)]))
    case ScrollBy(steps) => s.(actuations := s.actuations + [MouseControl.Scroll(steps)])
    case ZoomBy(steps) => s.(actuations := s.actuations + [MouseControl.Zoom(steps)])
    case ClickThenPause(_) => s.(actuations := s.actuations + [MouseControl.Click("left")])
  }

  /**
   * Only a move touches the cursor position, and every command other than
   * "Idle" issues exactly one actuator call (none when a move is refused by
   * the fail-safe).
   */
  lemma EffectShape(cmd: Command, s: ControllerState, screenWidth: nat, screenHeight: nat,
                    smoothing: real, failSafe: bool)
    requires cmd.MoveCursor? ==> cmd.frameWidth > 2 * MouseControl.FrameMargin
                                 && cmd.frameHeight > 2 * MouseControl.FrameMargin
                                 && smoothing != 0.0
    ensures var t := Effect(cmd, s, screenWidth, screenHeight, smoothing, failSafe);
      && (!cmd.MoveCursor? ==> (t.plocX, t.plocY, t.clocX, t.clocY) == (s.plocX, s.plocY, s.clocX, s.clocY))
      && (cmd.MoveCursor? ==> t.plocX == t.clocX && t.plocY == t.clocY)
      && s.actuations <= t.actuations
      && |t.actuations| == |s.actuations|
                           + (if cmd.Idle? || (cmd.MoveCursor? && failSafe) then 0 else 1)
  {
  }

  /**
   * The body of the main loop for one frame, without capture and drawing.
   * Returns the label, the pinch distance (which the loop never uses) and
   * the pause the loop sleeps for, and carries out the frame's command on the
   * controller. Only a move needs the frame to be wider and taller than the
   * two margins and the smoothing factor to be non-zero.
   */
  method ProcessFrame(c: MouseControl.MouseController, lmList: seq<Landmark>,
                      frameHeight: int, frameWidth: int, failSafe: bool)
    returns (gesture: Gesture, pinchDist: int, pauseMs: nat)
    requires Indexable(lmList)
    requires Decide(lmList, frameHeight, frameWidth).command.MoveCursor? ==>
               frameHeight > 2 * MouseControl.FrameMargin && frameWidth > 2 * MouseControl.FrameMargin
               && c.smoothing != 0.0
    modifies c
    ensures var r := Decide(lmList, frameHeight, frameWidth);
      && gesture == r.gesture && pinchDist == r.pinch
      && pauseMs == (if r.command.ClickThenPause? then ClickPauseMs else 0)
      && StateOf(c) == Effect(r.command, old(StateOf(c)), c.screenWidth, c.screenHeight, c.smoothing, failSafe)
  {
    gesture, pinchDist, pauseMs := None, 0, 0;
    if |lmList| != 0 {
      var fingers := FingersUp(lmList);
      var rec := Recognize(Truthy(fingers), lmList);
      gesture, pinchDist := rec.gesture, rec.pinch;
      var x1, y1 := lmList[8].x, lmList[8].y;
      if gesture == Move {
        c.MoveMouse(x1, y1, frameHeight, frameWidth, failSafe);
      } else if gesture == ScrollUp {
        c.Scroll(ScrollSteps);
      } else if gesture == ScrollDown {
        c.Scroll(-ScrollSteps);
      } else if gesture == ZoomIn {
        c.Zoom(ZoomSteps);
      } else if gesture == ZoomOut {
        c.Zoom(-ZoomSteps);
      } else if gesture == Click {
        c.Click("left");
        pauseMs := ClickPauseMs;
      }
    }
  }

  /** One camera frame as the loop sees it, with the actuator's fail-safe answer to a move. */
  datatype Frame = Frame(landmarks: seq<Landmark>, height: int, width: int, failSafe: bool)

  /**
   * The frames the loop can process with a given smoothing factor: any
   * landmark list the detector produces, and for a frame that moves the
   * cursor, a frame wider and taller than the two margins and a non-zero factor.
   */
  predicate FrameOk(fr: Frame, smoothing: real)
  {
    Indexable(fr.landmarks)
    && (GestureOf(fr) == Move ==>
          fr.height > 2 * MouseControl.FrameMargin && fr.width > 2 * MouseControl.FrameMargin
          && smoothing != 0.0)
  }

  function CommandOf(fr: Frame): Command
    requires Indexable(fr.landmarks)
  {
    Decide(fr.landmarks, fr.height, fr.width).command
  }

  function GestureOf(fr: Frame): Gesture
    requires Indexable(fr.landmarks)
  {
    Decide(fr.landmarks, fr.height, fr.width).gesture
  }

  /**
   * What the frame-level proofs need of one admissible frame: its command may
   * be carried out, and it is a click exactly when the frame is labelled "Click".
   */
  lemma FrameCommand(fr: Frame, smoothing: real)
    requires FrameOk(fr, smoothing)
    ensures CommandOf(fr).MoveCursor? ==> CommandOf(fr).frameWidth > 2 * MouseControl.FrameMargin
                                          && CommandOf(fr).frameHeight > 2 * MouseControl.FrameMargin
                                          && smoothing != 0.0
    ensures CommandOf(fr).ClickThenPause? <==> GestureOf(fr) == Click
  {
  }

  /** The controller state after the first `n` frames of a run, starting from `s`. */
  function EffectOfFrames(frames: seq<Frame>, n: nat, s: ControllerState, screenWidth: nat, screenHeight: nat,
                          smoothing: real): ControllerState
    requires n <= |frames|
    requires forall i :: 0 <= i < |frames| ==> FrameOk(frames[i], smoothing)
  {
    if n == 0 then s
    else
      var last := frames[n - 1];
      FrameCommand(last, smoothing);
      Effect(CommandOf(last), EffectOfFrames(frames, n - 1, s, screenWidth, screenHeight, smoothing),
             screenWidth, screenHeight, smoothing, last.failSafe)
  }

  /** One pass of the frame loop, stated frame by frame. */
  method Step(c: MouseControl.MouseController, fr: Frame) returns (gesture: Gesture)
    requires FrameOk(fr, c.smoothing)
    modifies c
    ensures gesture == GestureOf(fr)
    ensures StateOf(c) == Effect(CommandOf(fr), old(StateOf(c)), c.screenWidth, c.screenHeight, c.smoothing, fr.failSafe)
  {
    var pinchDist, pauseMs;
    gesture, pinchDist, pauseMs := ProcessFrame(c, fr.landmarks, fr.height, fr.width, fr.failSafe);
  }

  /**
   * The main loop over a run of frames: one `ProcessFrame` per frame, the
   * controller's state carried from each frame to the next. Returns the
   * label of every frame.
   */
  method Run(c: MouseControl.MouseController, frames: seq<Frame>) returns (labels: seq<Gesture>)
    requires forall i :: 0 <= i < |frames| ==> FrameOk(frames[i], c.smoothing)
    modifies c
    ensures |labels| == |frames|
    ensures forall i :: 0 <= i < |frames| ==> Indexable(frames[i].landmarks) && labels[i] == GestureOf(frames[i])
    ensures StateOf(c) == EffectOfFrames(frames, |frames|, old(StateOf(c)), c.screenWidth, c.screenHeight, c.smoothing)
  {
    labels := [];
    var i := 0;
    while i < |frames|
      invariant 0 <= i <= |frames|
      invariant |labels| == i
      invariant forall k :: 0 <= k < i ==> Indexable(frames[k].landmarks) && labels[k] == GestureOf(frames[k])
      invariant StateOf(c) == EffectOfFrames(frames, i, old(StateOf(c)), c.screenWidth, c.screenHeight, c.smoothing)
    {
      var gesture := Step(c, frames[i]);
      labels := labels + [gesture];
      i := i + 1;
    }
  }

  /** Number of clicks in an actuator log. */
  function ClickCount(acts: seq<MouseControl.Actuation>): nat
  {
    if acts == [] then 0
    else ClickCount(acts[..|acts| - 1]) + (if acts[|acts| - 1].Click? then 1 else 0)
  }

  /** Number of frames among the first `n` classified "Click". */
  function ClickFrames(frames: seq<Frame>, n: nat): nat
    requires n <= |frames|
    requires forall i :: 0 <= i < |frames| ==> Indexable(frames[i].landmarks)
  {
    if n == 0 then 0
    else ClickFrames(frames, n - 1) + (if GestureOf(frames[n - 1]) == Click then 1 else 0)
  }

  lemma {:induction false} ClickCountAppend(a: seq<MouseControl.Actuation>, b: seq<MouseControl.Actuation>)
    ensures ClickCount(a + b) == ClickCount(a) + ClickCount(b)
    decreases |b|
  {
    if b != [] {
      var b' := b[..|b| - 1];
      assert (a + b)[..|a + b| - 1] == a + b';
      ClickCountAppend(a, b');
    } else {
      assert a + b == a;
    }
  }

  /** A command adds one click to the log exactly when it is the click command. */
  lemma EffectClicks(cmd: Command, s: ControllerState, screenWidth: nat, screenHeight: nat,
                     smoothing: real, failSafe: bool)
    requires cmd.MoveCursor? ==> cmd.frameWidth > 2 * MouseControl.FrameMargin
                                 && cmd.frameHeight > 2 * MouseControl.FrameMargin
                                 && smoothing != 0.0
    ensures ClickCount(Effect(cmd, s, screenWidth, screenHeight, smoothing, failSafe).actuations)
            == ClickCount(s.actuations) + (if cmd.ClickThenPause? then 1 else 0)
  {
    var t := Effect(cmd, s, screenWidth, screenHeight, smoothing, failSafe);
    var added := t.actuations[|s.actuations|..];
    EffectShape(cmd, s, screenWidth, screenHeight, smoothing, failSafe);
    assert t.actuations == s.actuations + added;
    ClickCountAppend(s.actuations, added);
    if cmd.ClickThenPause? {
      assert added == [MouseControl.Click("left")];
    } else if cmd.Idle? || (cmd.MoveCursor? && failSafe) {
      assert added == [];
    } else {
      assert |added| == 1 && !added[0].Click?;
      assert added == [added[0]];
    }
  }

  /**
   * There is no cooldown across frames: a run of frames adds exactly one
   * click to the actuator log for each frame classified "Click", however
   * close together those frames are.
   */
  lemma {:induction false} OneClickPerClickFrame(frames: seq<Frame>, n: nat, s: ControllerState, screenWidth: nat,
                                                 screenHeight: nat, smoothing: real)
    requires n <= |frames|
    requires forall i :: 0 <= i < |frames| ==> FrameOk(frames[i], smoothing)
    ensures ClickCount(EffectOfFrames(frames, n, s, screenWidth, screenHeight, smoothing).actuations)
            == ClickCount(s.actuations) + ClickFrames(frames, n)
    decreases n
  {
    if n > 0 {
      var last := frames[n - 1];
      FrameCommand(last, smoothing);
      var mid := EffectOfFrames(frames, n - 1, s, screenWidth, screenHeight, smoothing);
      OneClickPerClickFrame(frames, n - 1, s, screenWidth, screenHeight, smoothing);
      var cmd := CommandOf(last);
      EffectClicks(cmd, mid, screenWidth, screenHeight, smoothing, last.failSafe);
    }
  }

  /** The methods the controller class defines, as written. */
  const WrittenControllerMethods: set<string> := {"__init__", "move_mouse", "scroll", "click", "drag"}

  /** How a frame's controller call ends in the program as written. */
  datatype Outcome = Completed | Raised(exception: string, attribute: string)

  function CallAsWritten(name: string): Outcome
  {
    if name in WrittenControllerMethods then Completed else Raised("AttributeError", name)
  }

  function OutcomeAsWritten(cmd: Command): Outcome
  {
    match cmd
    case Idle => Completed
    case MoveCursor(_, _, _, _) => CallAsWritten("move_mouse")
    case ScrollBy(_) => CallAsWritten("scroll")
    case ZoomBy(_) => CallAsWritten("zoom")
    case ClickThenPause(_) => CallAsWritten("click")
  }

  /**
   * As written, a frame raises exactly when its label is a zoom label: the
   * loop asks the controller for a `zoom` method it does not have.
   */
  lemma ZoomRaisesAsWritten(lm: seq<Landmark>, frameHeight: int, frameWidth: int)
    requires Indexable(lm)
    ensures var r := Decide(lm, frameHeight, frameWidth);
      OutcomeAsWritten(r.command).Raised? <==> r.gesture in {ZoomIn, ZoomOut}
  {
    var r := Decide(lm, frameHeight, frameWidth);
    if r.gesture in {ZoomIn, ZoomOut} {
      assert "zoom" != "move_mouse" && "zoom" != "scroll" && "zoom" != "click";
      assert "zoom" != "drag" && "zoom" != "__init__";
    }
  }

  /** A hand with only the pinky raised. */
  const PinkyOnlyHand: seq<Landmark> := seq(21, i => Landmark(i, 300, if i == 20 then 100 else 200))

  /** The concrete input: a raised pinky in a 640 x 480 frame ends in AttributeError. */
  lemma PinkyOnlyHandRaisesAsWritten()
    ensures Decide(PinkyOnlyHand, 480, 640).gesture == ZoomIn
    ensures Decide(PinkyOnlyHand, 480, 640).command == ZoomBy(20)
    ensures OutcomeAsWritten(Decide(PinkyOnlyHand, 480, 640).command) == Raised("AttributeError", "zoom")
  {
    var lm := PinkyOnlyHand;
    assert Fingers(lm) == [0, 0, 0, 0, 1];
    var f := Truthy(Fingers(lm));
    assert f == [false, false, false, false, true];
    LabelTable(f);
    ZoomRaisesAsWritten(lm, 480, 640);
  }
}
