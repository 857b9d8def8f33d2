# Gesture-controlled robot arm: the per-frame angle mapper

This project models, in Dafny, the core of a single-arm gesture controller. The
controller watches one hand through a camera. It turns the hand's landmarks into four
servo angles and sends them to a microcontroller as one text line per frame. The model
covers the pure part of that pipeline, from landmarks (and the frame size) to the line
that is written:

- **Numeric** (`numeric.dfy`): the three numeric primitives the mapper uses, on exact
  reals. `Trunc` is Python's `int()` on a float, which rounds toward zero. `Interp` is
  `np.interp` with a two-point table, which saturates outside the table. `Clip` is
  `np.clip`.
- **Hand** (`hand.dfy`): a detected hand as 21 landmarks `(x, y, z)` with the pose
  source's fixed joint indices, and the open-hand heuristic `IsHandOpen`.
- **ServoAngles** (`servo_angles.dfy`): `calculate_servo_angles`, the gripper rule and
  the four-element angle list. Servo 1 follows the horizontal pixel offset of the
  index fingertip from the wrist (`[-250, 250] -> [0, 180]`). Servo 2 follows the
  vertical offset (`[-300, 300] -> [0, 180]`). Servo 3 follows the absolute depth
  difference (`[0, 1] -> [0, 180]`). Servo 4 is 60 for an open hand and 0 otherwise,
  then clipped to `[0, 60]`. Servos 1 and 2 have integer-only reference definitions,
  and servo 3 has the floor of `180 * d` for a depth offset `d >= 0`. A lemma proves
  each agrees with the interpolation on its domain. That domain covers every offset
  the mapper produces, because `DepthDistance` is never negative.
- **WireFormat** (`wire_format.dfy`): `f"{','.join(map(str, angles))}\n"` as pure
  string functions (`str` of an integer, `join`). A small parser (strip the newline,
  split on `,`, read numerals) exists only to state the round trip.

The source has one point where the angles could easily be read differently from what
the code does. The code truncates each landmark's pixel coordinate on its own
(`int(x * width)`) and then subtracts. It does not truncate `(index.x - wrist.x) * width`.
The model follows the code. `PixelOffsetsNearExact` proves that the code's offsets lie
within two pixels of the exact `(index.x - wrist.x) * width`.
`PixelOffsetsNearTruncatedDifference` proves that they lie within one pixel of
`int((index.x - wrist.x) * width)`, and likewise for y.

## Model

| member | source | states |
|---|---|---|
| `Numeric.Trunc` | Finalised_code_for_one_robot_arm.py:32-33 | `int()` on a float rounds toward zero: the result lies within one unit of the argument, on the zero side |
| `Numeric.TruncMonotone` | Finalised_code_for_one_robot_arm.py:32-33 | truncation keeps the order of its arguments |
| `Numeric.TruncDifferenceBound` | Finalised_code_for_one_robot_arm.py:37-38 | truncating two reals and then subtracting differs from the exact difference by less than 2 |
| `Numeric.TruncOfDifferenceBound` | Finalised_code_for_one_robot_arm.py:32-38 | truncating two reals and then subtracting differs by at most 1 from truncating their difference |
| `Numeric.Interp` | Finalised_code_for_one_robot_arm.py:45 | `np.interp` gives the left table value at or below the table and the right table value at or above it |
| `Numeric.InterpIsLinearInside` | Finalised_code_for_one_robot_arm.py:45 | inside the table the result lies on the straight line through both table points |
| `Numeric.InterpBounds` | Finalised_code_for_one_robot_arm.py:45-54 | with a non-decreasing table the result never leaves `[fp0, fp1]`, whatever the argument |
| `Numeric.InterpMonotone` | Finalised_code_for_one_robot_arm.py:45-54 | with a non-decreasing table interpolation is monotone non-decreasing |
| `Numeric.Clip` | Finalised_code_for_one_robot_arm.py:45 | `np.clip` always gives a value in `[lo, hi]`: the value itself when already inside, otherwise the nearer bound |
| `Numeric.ClipMonotone` | Finalised_code_for_one_robot_arm.py:45 | clipping keeps the order of its arguments |
| `Hand.FingertipYs` | Finalised_code_for_one_robot_arm.py:64-68 | the list holds exactly the y values of the thumb, index, middle, ring and pinky tips, in that order |
| `Hand.AllBelow` | Finalised_code_for_one_robot_arm.py:71 | `all(tip < wrist_y for tip in fingertips)`; defined by its body, and `AllBelowIff` proves what it means |
| `Hand.AllBelowIff` | Finalised_code_for_one_robot_arm.py:71 | `all(tip < wrist_y ...)` holds iff every element is strictly below the bound |
| `Hand.IsHandOpen` | Finalised_code_for_one_robot_arm.py:58-71 | `is_hand_open`: every fingertip strictly above the wrist in the image; defined by its body, and `IsHandOpenIff` states it for each fingertip |
| `Hand.IsHandOpenIff` | Finalised_code_for_one_robot_arm.py:58-71 | the hand is open iff each of the five fingertip y values is strictly less than the wrist's y |
| `Hand.OneLowFingertipClosesHand` | Finalised_code_for_one_robot_arm.py:63-71 | one fingertip with y equal to or greater than the wrist's y makes the hand closed |
| `Hand.IsHandOpenDependsOnlyOnY` | Finalised_code_for_one_robot_arm.py:63-71 | two hands that agree on the wrist and fingertip y values get the same verdict; x, z and the other joints play no part |
| `ServoAngles.PixelX` | Finalised_code_for_one_robot_arm.py:32-33 | `int(x * image_shape[1])`; defined by its body, see `PixelXMonotone` and `PixelOffsetsNearExact` |
| `ServoAngles.PixelY` | Finalised_code_for_one_robot_arm.py:32-33 | `int(y * image_shape[0])`; defined by its body, see `PixelOffsetsNearExact` |
| `ServoAngles.HorizontalDistance` | Finalised_code_for_one_robot_arm.py:37 | `index_x - wrist_x`; defined by its body, see `PixelOffsetsNearExact` and `PixelOffsetsNearTruncatedDifference` |
| `ServoAngles.VerticalDistance` | Finalised_code_for_one_robot_arm.py:38 | `index_y - wrist_y`; defined by its body, see `PixelOffsetsNearExact` and `PixelOffsetsNearTruncatedDifference` |
| `ServoAngles.DepthDistance` | Finalised_code_for_one_robot_arm.py:34-39 | the depth offset is never negative and is one of the two signed depth differences |
| `ServoAngles.ServoOneAngle` | Finalised_code_for_one_robot_arm.py:45 | angle 1 lies in `[0, 180]` for every integer horizontal offset |
| `ServoAngles.ServoTwoAngle` | Finalised_code_for_one_robot_arm.py:51 | angle 2 lies in `[0, 180]` for every integer vertical offset |
| `ServoAngles.ServoThreeAngle` | Finalised_code_for_one_robot_arm.py:54 | angle 3 lies in `[0, 180]` for every depth offset |
| `ServoAngles.CalculateServoAngles` | Finalised_code_for_one_robot_arm.py:22-56 | all three arm angles of any complete hand in any frame lie in `[0, 180]` |
| `ServoAngles.GripperAngle` | Finalised_code_for_one_robot_arm.py:112 | angle 4 is 0 or 60, and it is 60 exactly when the hand is open |
| `ServoAngles.FrameAngles` | Finalised_code_for_one_robot_arm.py:109-115 | the assembled list has four elements, the first three in `[0, 180]` and the fourth in `[0, 60]`; the fourth is 60 iff the hand is open and 0 iff it is closed |
| `ServoAngles.FrameAnglesContents` | Finalised_code_for_one_robot_arm.py:112-115 | the list is the mapper's three angles in order, then the gripper angle; the clip to `[0, 60]` leaves the gripper angle unchanged |
| `ServoAngles.ServoOneMatchesReference` | Finalised_code_for_one_robot_arm.py:45 | angle 1 equals the integer formula: 0 at or below -250, 180 at or above 250, `floor(9 * (h + 250) / 25)` in between |
| `ServoAngles.ServoTwoMatchesReference` | Finalised_code_for_one_robot_arm.py:51 | angle 2 equals the integer formula: 0 at or below -300, 180 at or above 300, `floor(3 * (v + 300) / 10)` in between |
| `ServoAngles.ServoThreeMatchesReference` | Finalised_code_for_one_robot_arm.py:54 | for a depth offset `d >= 0`, angle 3 equals `floor(180 * d)` below 1 and 180 from 1 on |
| `ServoAngles.ServoOneSaturates` | Finalised_code_for_one_robot_arm.py:45 | a horizontal offset of -250 or less gives 0; one of 250 or more gives 180 |
| `ServoAngles.ServoOneCentre` | Finalised_code_for_one_robot_arm.py:45 | a horizontal offset of 0 gives 90 |
| `ServoAngles.ServoTwoSaturates` | Finalised_code_for_one_robot_arm.py:51 | a vertical offset of -300 or less gives 0; one of 300 or more gives 180 |
| `ServoAngles.ServoTwoCentre` | Finalised_code_for_one_robot_arm.py:51 | a vertical offset of 0 gives 90 |
| `ServoAngles.ServoThreeSaturates` | Finalised_code_for_one_robot_arm.py:54 | a depth offset of 0 gives 0; one of 1 or more gives 180 |
| `ServoAngles.ArmClipsAreRedundant` | Finalised_code_for_one_robot_arm.py:45-54 | interpolation followed by `int()` already lands in `[0, 180]`, so the three explicit clips never change a value |
| `ServoAngles.ServoOneMonotone` | Finalised_code_for_one_robot_arm.py:45 | angle 1 is monotone non-decreasing in the horizontal offset |
| `ServoAngles.ServoTwoMonotone` | Finalised_code_for_one_robot_arm.py:51 | angle 2 is monotone non-decreasing in the vertical offset |
| `ServoAngles.ServoThreeMonotone` | Finalised_code_for_one_robot_arm.py:54 | angle 3 is monotone non-decreasing in the depth offset |
| `ServoAngles.PixelXMonotone` | Finalised_code_for_one_robot_arm.py:32-33 | a landmark further right never lands in an earlier pixel column |
| `ServoAngles.ServoOneFollowsIndexFingerX` | Finalised_code_for_one_robot_arm.py:32-45 | with the wrist fixed, moving the index fingertip right never decreases angle 1 |
| `ServoAngles.PixelOffsetsNearExact` | Finalised_code_for_one_robot_arm.py:32-38 | the truncate-then-subtract pixel offsets lie within two pixels of the exact ones |
| `ServoAngles.PixelOffsetsNearTruncatedDifference` | Finalised_code_for_one_robot_arm.py:32-38 | the truncate-then-subtract pixel offsets lie within one pixel of `int((index - wrist) * size)` |
| `ServoAngles.WorkedFrame` | Finalised_code_for_one_robot_arm.py:28-56 | wrist at (0.5, 0.5) and index tip at (0.7, 0.5) in a 500 x 500 frame give a horizontal offset of 100 and the angles `[126, 90, 0, 0]` |
| `WireFormat.NatToString` | Finalised_code_for_one_robot_arm.py:76 | `str` of a natural number is a non-empty run of digits with no leading zero |
| `WireFormat.IntToString` | Finalised_code_for_one_robot_arm.py:76 | `str` of an integer is non-empty; `NumeralCharacters` and `IntToStringRoundTrip` state the rest |
| `WireFormat.NumeralCharacters` | Finalised_code_for_one_robot_arm.py:76 | a numeral contains no comma and no newline; that of a non-negative number contains only digits |
| `WireFormat.NatToStringRoundTrip` | Finalised_code_for_one_robot_arm.py:76 | reading back the digits of `str(n)` gives `n` |
| `WireFormat.IntToStringRoundTrip` | Finalised_code_for_one_robot_arm.py:76 | the numeral of any integer, including a negative one, parses back to that integer |
| `WireFormat.Join` | Finalised_code_for_one_robot_arm.py:76 | `sep.join(parts)`; defined by its body, and `SplitJoin` proves it is undone by splitting |
| `WireFormat.Numerals` | Finalised_code_for_one_robot_arm.py:76 | `map(str, angles)`: one numeral per angle; `NumeralsAt` gives each element |
| `WireFormat.SplitJoin` | Finalised_code_for_one_robot_arm.py:76 | splitting `','.join(parts)` on `,` gives back the parts when none of them contains a comma |
| `WireFormat.Message` | Finalised_code_for_one_robot_arm.py:76 | the line is non-empty and ends in a newline; `MessageRoundTrip`, `MessageShape` and `MessageOfFour` state the rest |
| `WireFormat.MessageRoundTrip` | Finalised_code_for_one_robot_arm.py:76 | stripping the newline and splitting on `,` gives back every angle, in order |
| `WireFormat.MessageOfFour` | Finalised_code_for_one_robot_arm.py:76 | a four-angle line is numeral, `,`, numeral, `,`, numeral, `,`, numeral, `\n` |
| `WireFormat.MessageShape` | Finalised_code_for_one_robot_arm.py:76 | for a valid angle set the line has exactly three commas and exactly one newline, which is its last character; every other character is a digit or a comma |
| `WireFormat.ExampleLine` | Finalised_code_for_one_robot_arm.py:76 | the angles 126, 90, 45 and 60 give exactly `"126,90,45,60\n"` |
| `WireFormat.FrameMessageRoundTrip` | Finalised_code_for_one_robot_arm.py:76 | the line sent for any complete hand parses back to that frame's four angles and has three commas |

## Left out

- Hand detection (the MediaPipe hand model and its configuration, lines 15-17 and 103-106) is a foreign model. Landmarks are taken as given real-valued inputs. Only the first reported hand is used (line 106): the model takes that one hand as its input.
- Camera capture, colour conversion, drawing the landmark dots and the angle text, the window and key polling (lines 20, 81-91, 96-102, 125-129, 133-134) are all I/O and UI.
- Serial port handling (lines 8-13, 77-79, 135) is device I/O: opening COM9 at 9600 baud, the two-second settle delay, `write`, the `SerialException` messages and `close`. Only the text of the line is modelled, not its encoding to bytes or the write.
- The debug `print` calls (lines 42, 48) are left out.
- The `while True` / `finally` frame loop (lines 93-135) only orchestrates external resources and calls the modelled functions once per frame.
- Floating point: products, differences and `np.interp` are modelled on exact reals, not IEEE-754 doubles. Where a float result sits within rounding error of an integer, the real `int()` in the program can differ by one from the model. The contracts state ranges, saturation, monotonicity and exact formulas for the real-number model, not bit-exact float results.
- `np.clip` returns a NumPy integer, and `str` of that prints like a Python integer. The model treats both as plain integers.
- The frame shape is taken as the two numbers the code reads from it (`image_shape[0]` height and `image_shape[1]` width). The channel count plays no part.
- The landmark list is required to hold all 21 points (`Hand.IsComplete`). The pose source guarantees this whenever it reports a hand. A shorter list would make the code fail on an index, and that case is not modelled.
