# Virtual mouse: gesture pipeline and cursor filter in Dafny

This project models the decision core of a camera-driven virtual mouse. The program turns one hand per camera frame into one pointer action. The model covers:

- **Finger-state rule** (`HandDetector`). The 21-entry landmark list `[id, x, y]` becomes the 0/1 vector [thumb, index, middle, ring, pinky]. The thumb compares x coordinates. Each other finger compares the y of its tip with the y of the joint two landmarks below.
- **Gesture classifier** (`GestureRecognition`). An ordered if/elif cascade over the finger vector gives one of the labels Pause, Move, Scroll Down, Scroll Up, Zoom Out, Zoom In and Click, and "None" otherwise. The classifier also returns the pinch distance between the thumb tip (landmark 4) and the index tip (landmark 8). With no landmarks it returns the bare label "None".
- **Mouse controller** (`MouseControl`). This is a class with fields `plocX`, `plocY`, `clocX`, `clocY`. `MoveMouse` maps the fingertip from the inset rectangle `[100, dim - 100]` onto the screen. The map holds the end values outside that rectangle, as numpy's `interp` does. It then takes one step of the exponential filter, `cloc = ploc + (target - ploc) / smoothing`, and stores `cloc` as `ploc`. The operating-system actuator is a log of calls kept in the field `actuations`.
- **Geometry helpers** (`Geometry`): the distance between two points and the unclamped affine `map_range`.
- **Per-frame dispatch** (`Dispatch`). This is the body of the main loop without capture and drawing. `Decide` maps a frame's landmarks to its label, pinch distance and controller command. `ProcessFrame` carries out that command on a `MouseController`. `Run` processes a sequence of frames.

The program has no pinch-distance override of Move, no generic "Scroll" or "Zoom" labels, no movement deadzone, no adaptive smoothing and no millisecond click cooldown; the model has none of them either.

`move_mouse` clamps through `np.interp` (src/mouse_controller.py:36-37), and so does the model (`MouseControl.ScreenTargetClamped`). `map_range` (src/utils.py:20-24) does not clamp (`Geometry.MapRangeExtrapolates`).

## Model

| member | source | states |
|---|---|---|
| `Geometry.SquaredDistance` | src/utils.py:5-9 | The distance between two points is never negative. |
| `Geometry.SquaredDistanceSymmetric` | src/utils.py:5-9 | The distance does not depend on the order of the two points. |
| `Geometry.SquaredDistanceZeroIff` | src/utils.py:9 | The distance is zero exactly when the two points coincide. |
| `Geometry.MapRange` | src/utils.py:20-24 | The unclamped affine map: `in_min` maps to `out_min` and `in_max` maps to `out_max`. |
| `Geometry.MapRangeAffine` | src/utils.py:24 | Over all inputs, the output changes by the input change times the fixed slope `(out_max - out_min) / (in_max - in_min)`. |
| `Geometry.MapRangeMonotone` | src/utils.py:24 | With both ranges increasing, the map preserves order. |
| `Geometry.MapRangeExtrapolates` | src/utils.py:24 | No clamping: an input past `in_max` lands past `out_max`. |
| `Geometry.MapRangeRoundTrip` | src/utils.py:24 | Mapping back with the ranges swapped returns the original value when both ranges are non-degenerate. |
| `HandDetector.Fingers` | src/hand_detector.py:112-127 | The finger vector is empty for an empty landmark list and has 5 entries otherwise, each 0 or 1. |
| `HandDetector.FingersUp` | src/hand_detector.py:104-127 | The thumb-then-loop construction produces exactly the finger vector `Fingers`. It is empty for an empty landmark list. |
| `HandDetector.FingersMeaning` | src/hand_detector.py:108-127 | The vector is empty iff there are no landmarks; otherwise it has 5 entries, each 0 or 1. The thumb is 1 iff x of landmark 4 < x of landmark 3. Finger f in 1..4 is 1 iff y of tip `[8,12,16,20][f-1]` < y of landmark tip-2. |
| `HandDetector.LevelFingerIsDown` | src/hand_detector.py:115-125 | The comparisons are strict: a tip level with its reference joint counts as down (0). |
| `GestureRecognition.ClassifierSeesDetector` | src/hand_detector.py:112-127 | The classifier reads finger f of the detector's vector as up exactly when the detector's comparison for that finger holds: x of landmark 4 < x of landmark 3 for the thumb, and y of the tip < y of the joint two below it for tips 8, 12, 16 and 20. |
| `GestureRecognition.Cascade` | src/gesture_recognition.py:28-53 | A label other than "None" is returned only when its pattern matches. "None" is returned only when no pattern matches. |
| `GestureRecognition.Recognize` | src/gesture_recognition.py:13-16 | The bare label "None" is returned exactly when the landmark list is empty; every other call returns a label with a distance. |
| `GestureRecognition.RecognizeReadsOnly` | src/gesture_recognition.py:19-24 | The label depends only on the fingers. The pinch distance depends only on the coordinates of landmarks 4 and 8. The middle tip and every other landmark change nothing. |
| `GestureRecognition.PinchIsThumbIndexDistance` | src/gesture_recognition.py:24 | Whatever the label, the returned distance is the (squared) distance between landmarks 4 and 8. It is non-negative and zero only when they coincide. |
| `GestureRecognition.RulesDisjoint` | src/gesture_recognition.py:28-53 | No finger vector matches two of the seven branch patterns. |
| `GestureRecognition.CascadeSelectsMatchingRule` | src/gesture_recognition.py:28-55 | The cascade returns label g (other than "None") exactly when g's pattern matches. It returns "None" exactly when no pattern matches. |
| `GestureRecognition.CascadeOrderIrrelevant` | src/gesture_recognition.py:28-53 | Trying the seven branches in any order that covers all of them gives the written cascade's label. |
| `GestureRecognition.LabelTable` | src/gesture_recognition.py:28-53 | The full table over 5-vectors: all up gives Pause and only the index up gives Move. Index, middle and ring up with the pinky down gives Scroll Down for either thumb; index and middle up with ring and pinky down gives Scroll Up for either thumb. Thumb and pinky only gives Zoom Out, the pinky only gives Zoom In, and all down gives Click. Each holds in both directions. |
| `GestureRecognition.LabelledExactly` | src/gesture_recognition.py:52-55 | A 5-vector gets a label other than "None" exactly when it is one of the nine listed vectors. |
| `GestureRecognition.NineOfThirtyTwoLabelled` | src/gesture_recognition.py:13 | There are 32 five-finger vectors. Exactly 9 get a label, and the other 23 are classified "None". |
| `MouseControl.Interp` | src/mouse_controller.py:36-37 | At or below the first sample point the value is the first output; at or above the second it is the second output; in between it is `map_range`. |
| `MouseControl.InterpIsClampedMapRange` | src/mouse_controller.py:36-37 | The frame-to-screen interpolation equals the affine `map_range` applied to the input clamped into the inset rectangle. |
| `MouseControl.InterpBounded` | src/mouse_controller.py:36-37 | The interpolated value never leaves the output range. |
| `MouseControl.ScreenTarget` | src/mouse_controller.py:28-37 | A coordinate at or inside the near margin of 100 aims at 0; one at or past `dim - 100` aims at the screen extent. |
| `MouseControl.ScreenTargetClamped` | src/mouse_controller.py:28-37 | A coordinate ≤ 100 maps to 0 and one ≥ dim - 100 maps to the screen extent. In between the map is linear, and the target always lies within [0, screen extent]. |
| `MouseControl.Smooth` | src/mouse_controller.py:40-41 | A position already on its target stays there. |
| `MouseControl.SmoothShrinksGap` | src/mouse_controller.py:40-41 | One filter step leaves the gap to the target multiplied by (smoothing - 1) / smoothing. |
| `MouseControl.SmoothStaysBetween` | src/mouse_controller.py:40-41 | With smoothing ≥ 1 the new position lies between the old position and the target, so it never overshoots. With smoothing = 1 it equals the target. |
| `MouseControl.ApproachGap` | src/mouse_controller.py:40-48 | After n moves to a fixed target, the remaining gap is the initial gap times ((smoothing - 1) / smoothing)^n. |
| `MouseControl.ApproachMonotone` | src/mouse_controller.py:40-48 | Repeated moves to a fixed target approach it monotonically and never overshoot. |
| `MouseControl.MouseController.constructor` | src/mouse_controller.py:6-14 | Previous and current positions start at (0, 0). The smoothing factor and the screen size are stored, and no actuator call has been made. |
| `MouseControl.MouseController.MoveMouse` | src/mouse_controller.py:19-48 | Each axis takes one filter step from its previous position towards its own clamped target: X from x and the frame width, Y from y and the frame height. Afterwards `ploc == cloc`, even when the fail-safe refuses the move. The move is logged unless it was refused. |
| `MouseControl.MouseController.Scroll` | src/mouse_controller.py:50-54 | Exactly one scroll of the given steps is logged. The positions are unchanged. |
| `MouseControl.MouseController.Click` | src/mouse_controller.py:56-60 | Exactly one click of the given button is logged. The positions are unchanged. |
| `MouseControl.MouseController.Drag` | src/mouse_controller.py:62-68 | Nothing changes. |
| `MouseControl.MouseController.Zoom` | src/main.py:71-79 | Exactly one zoom of the given steps is logged. The positions are unchanged. This is the corrected controller call (see Findings). |
| `Dispatch.Decide` | src/main.py:37-50 | With no landmarks the frame yields label "None", distance 0 and no command. Otherwise the label is the cascade of the detector's finger vector, and the distance is that of landmarks 4 and 8. The classifier's bare-label return is never unpacked. |
| `Dispatch.CommandFor` | src/main.py:52-89 | Pause and None command nothing; exactly Move moves, to the given fingertip within the given frame shape; exactly Click clicks. |
| `Dispatch.CommandTable` | src/main.py:52-89 | In both directions: Move gives a move to landmark 8 within the frame shape. Scroll Up gives scroll(30) and Scroll Down gives scroll(-30). Zoom In gives zoom(20) and Zoom Out gives zoom(-20). Click gives a click with a 200 ms pause. Pause and None give no command. |
| `Dispatch.CommandIdentifiesGesture` | src/main.py:52-89 | Two labels that command something command different things. |
| `Dispatch.FistClicks` | src/main.py:81-89 | Landmarks with every finger down lead to one click and the fixed pause. |
| `Dispatch.PointingMoves` | src/main.py:50-55 | Landmarks with only the index finger up lead to a move towards the index fingertip. |
| `Dispatch.OpenPalmPauses` | src/gesture_recognition.py:28-29 | Landmarks with every finger up are labelled Pause and lead to no command. |
| `Dispatch.Effect` | src/main.py:52-89 | What carrying out a command does to the controller: only a move changes the cursor positions, and "Idle" changes nothing. |
| `Dispatch.EffectShape` | src/main.py:52-89 | Only a move changes the cursor positions, and it leaves `ploc == cloc`. No command removes an actuator call. "Idle" and a move the fail-safe refuses append none; every other command appends exactly one. |
| `Dispatch.ProcessFrame` | src/main.py:37-89 | The returned label and distance are those of `Decide`. The pause is 200 ms after a click and 0 otherwise. The controller's new state is the effect of the frame's command on its old state. Only a Move frame needs a frame larger than the margins and a non-zero smoothing factor. |
| `Dispatch.Step` | src/main.py:37-89 | One pass of the loop for one frame: the label is the frame's, and the controller's new state is the effect of the frame's command. |
| `Dispatch.Run` | src/main.py:24-89 | Over a run of frames, every frame's label is `Decide`'s, and the controller ends in the state obtained by applying each frame's command in order. Frames that do not move the cursor may have any size. |
| `Dispatch.FrameCommand` | src/main.py:52-89 | An admissible frame's command can be carried out, and it is a click exactly when the frame is labelled Click. |
| `Dispatch.EffectClicks` | src/main.py:81-89 | A command adds one click to the log exactly when it is the click command. |
| `Dispatch.OneClickPerClickFrame` | src/main.py:81-89 | There is no cooldown state: a run of frames adds exactly as many clicks as it has frames labelled Click. |
| `Dispatch.ZoomRaisesAsWritten` | src/main.py:71-79 | As written, a frame's controller call fails exactly when its label is Zoom In or Zoom Out. |
| `Dispatch.PinkyOnlyHandRaisesAsWritten` | src/main.py:71-73 | A concrete hand with only the pinky raised, in a 640 x 480 frame, is labelled Zoom In. It commands zoom(20), which as written ends in AttributeError for `zoom`. |

## Findings

| source | as written | input that shows it | evidently intended | confidence | as-written member | corrected member |
|---|---|---|---|---|---|---|
| src/main.py:71-79 | The loop calls `controller.zoom(20)` and `controller.zoom(-20)`, but `MouseController` (src/mouse_controller.py:5-68) defines no `zoom`. The call raises AttributeError, which nothing catches, and the main loop ends. | Any frame whose landmarks show only the pinky raised (Zoom In), or only thumb and pinky (Zoom Out). One example is `Dispatch.PinkyOnlyHand` in a 640 x 480 frame. | The controller performs one zoom action of the given signed steps, and the loop goes on with the next frame. | high (not executed) | `Dispatch.PinkyOnlyHandRaisesAsWritten` | `MouseControl.MouseController.Zoom` |

`Dispatch.ProcessFrame` and `Dispatch.Run` use the corrected controller. `Dispatch.EffectShape` proves that a zoom frame then adds exactly one actuator call.

## Left out

- `Geometry.SquaredDistance`: the model keeps the square of the Euclidean distance. `math.hypot` takes its square root, and Dafny's reals have no square root. Symmetry, non-negativity and "zero exactly at coincidence" hold for both. The classifier never compares the distance with anything, and the frame loop assigns it (src/main.py:38,45) and never uses it.
- Float rounding: positions, the interpolation and the filter use exact Dafny `real`s. Landmark coordinates are the integer pixels the detector produces.
- `MouseControl.MouseController.MoveMouse`: requires a frame larger than 200 pixels on each axis, since numpy's `interp` needs an increasing pair of sample points. It also requires a non-zero smoothing factor. With a zero factor, the division at src/mouse_controller.py:40-41 is a numpy float division by zero: it gives `inf` or `nan` for the current position with a warning and no exception, and that is not modelled. `Dispatch.ProcessFrame`, `Dispatch.Step` and `Dispatch.Run` ask the same of a frame only when it moves the cursor.
- The operating-system actuator (`pyautogui.moveTo`, `scroll`, `click`, `size`) is an appended log of calls. The screen size is a constructor parameter. Whether the fail-safe refuses a move is a parameter of `MoveMouse`. A fail-safe raised by `scroll` or `click`, which the program does not catch, is not modelled.
- MediaPipe and OpenCV: `HandDetector.__init__`, `find_hands`, `draw_landmarks_manual` and `find_position` are outside the model. The landmark list is an input.
- `get_angle` (atan2 and degrees) and `draw_text` (rendering) are outside the model.
- The main loop's camera capture, image flip, FPS computation, drawing of the active rectangle and labels, window display and exit key are outside the model. The 0.2 s sleep after a click is returned as a number of milliseconds; its real-time meaning is not modelled.
- The unused `img` argument of `recognize_gesture` is dropped.
