# CubeCoach vision core in Dafny

CubeCoach scans a Rubik's cube with a webcam.

- It finds the largest quadrilateral in each frame and warps it to a square face image.
- It samples the mean colour of the nine sticker cells of a 3×3 grid.
- It labels each sticker with the nearest calibrated face colour.
- After all six faces it assembles the 54-symbol facelet string in U, R, F, D, L, B order.
- A separate interactive tool records HSV samples per face colour and saves their averages as the calibration.

This project models that logic and proves its properties:

| file | module | models |
|---|---|---|
| `basics.dfy` | `Basics` | Shared values: optional results, colour triples, dictionaries as ordered key/value tables, the key byte read from the keyboard, the per-channel truncated mean. |
| `select.dfy` | `Select` | First-index argmin and argmax, the tie rule every search in the scanner follows. |
| `colors.dfy` | `Colors` | `cubecoach/vision/colors.py`: nearest-centre classification in HSV and LAB, and the calibration built from raw face samples. |
| `detector.dfy` | `Detector` | `cubecoach/vision/detector.py`: largest-quad selection, corner ordering, sticker-grid geometry, region sampling, and `face_from_frame`. |
| `scan.dfy` | `Scan` | `cubecoach/vision/scan.py`: the capture loop of `prompt_and_capture` and the facelet assembly. |
| `calibrate.dfy` | `Calibrate` | `cubecoach/vision/calibrate.py`: `average_hsv`, the key dispatch of the calibration tool's loop, the saved centres, and the test-mode mapping. |

How the source maps to the model:

- **OpenCV calls become parameters.** The colour conversions, contour finding, polygon approximation, contour area and the perspective warp are function-typed fields of `Colors.Converters` and `Detector.Vision`. The model has no body for them.
- **Dictionaries keep their order.** A Python dictionary is a table: a sequence of (key, value) pairs in iteration order. A Python dictionary never repeats a key. The model assumes distinct keys only where a proof needs them (`Calibrate.GetAt`, `Calibrate.AddSampleKeys`, `Calibrate.CentersSpec`, `Calibrate.Wf`) and proves that the tables it builds keep them distinct.
- **Loops stay loops.** Each loop in the source is a Dafny `method` with a `while` or `for` loop. It is proved equal to a function that specifies it, and the properties are proved as lemmas about that function.
- **The camera loops become step functions.** They run over a list of ticks. A tick is a frame plus the raw `waitKey` value. The list ends where `cap.read()` fails. `Scan.Step`/`Scan.Run` and `Calibrate.CalStep`/`Calibrate.RunCal` are the loop bodies and loops.
- **Integer arithmetic replaces floats.**
  - Euclidean distances are compared through their squares. The square root is monotone, so every comparison gives the same answer.
  - The 0.15 inset is `cell * 15 / 100`.
  - The 0.6 factor of the centre-or-median choice is `5 * sv_center >= 3 * sv_med`.
  - Means and medians are truncated integer divisions. Their inputs are non-negative, so truncation is floor division.

## Model

| member | source | states |
|---|---|---|
| Basics.KeyByte | cubecoach/vision/scan.py:62 | `waitKey(1) & 0xFF` is a byte; "no key" (-1) becomes 255 and a value that is already a byte is kept |
| Basics.Mean | cubecoach/vision/detector.py:83-84 | each channel of the mean is the channel sum divided by the count, rounded down |
| Basics.SqDistZero | cubecoach/vision/colors.py:45 | the (squared) distance is zero exactly when the two colours are equal |
| Basics.MeanWithinBounds | cubecoach/vision/detector.py:83-84 | every channel of the truncated mean lies within that channel's range over the samples |
| Basics.MeanOfUniform | cubecoach/vision/detector.py:83-84 | a list of identical colours averages to that colour |
| Select.FirstMinCharacterized | cubecoach/vision/colors.py:46 | a scan that replaces its best only on a strict improvement returns exactly the first index of the minimum |
| Select.FirstMaxCharacterized | cubecoach/vision/detector.py:28 | numpy's argmax is exactly the first index of the maximum |
| Colors.Classify | cubecoach/vision/colors.py:41-49 | no match exactly when the table is empty; otherwise the label is a key of the table |
| Colors.ClassifyIsNearest | cubecoach/vision/colors.py:44-48 | the reported distance is attained by the reported label and no centre is closer |
| Colors.ClassifyEarliestOnTie | cubecoach/vision/colors.py:46 | among centres at the minimal distance, the earliest in iteration order wins; every earlier centre is strictly farther |
| Colors.ClassifyExactCentre | cubecoach/vision/colors.py:44-48 | a colour equal to a stored centre is matched at distance zero, to the first entry holding that centre |
| Colors.HsvExample | tests/test_colors.py:6-14 | the test's sample (58, 240, 250) maps to "F" |
| Colors.Nearest | cubecoach/vision/colors.py:41-48 | the `best`/`best_d` loop computes `Classify` |
| Colors.MapHsvToLabel | cubecoach/vision/colors.py:36-49 | None exactly when `centers` is empty, otherwise the label of the first nearest centre, a key of `centers` |
| Colors.MapLabToLabel | cubecoach/vision/colors.py:109-122 | as `map_hsv_to_label`, over LAB centres |
| Colors.LabCentersKeys | cubecoach/vision/colors.py:83-88 | the converted LAB table has the same keys as the stored HSV centres |
| Colors.MapBgrToLabelWithDistance | cubecoach/vision/colors.py:73-99 | (None, None) exactly when there is no calibration (none given, no file) or it is empty; otherwise a calibrated label whose converted centre attains the returned distance, and no converted centre is closer |
| Colors.MapBgrToLabel | cubecoach/vision/colors.py:57-70 | exactly the label half of `map_bgr_to_label_with_distance`; None exactly when no calibration is available or it is empty |
| Colors.CenterIndex | cubecoach/vision/colors.py:138-141 | the centre sticker index (4, or `len // 2`) exists in the list |
| Colors.SortAscPermutes | cubecoach/vision/colors.py:145 | the sort behind the median is a permutation of the channel values |
| Colors.SortAscAscending | cubecoach/vision/colors.py:145 | the sort behind the median is ascending |
| Colors.Median | cubecoach/vision/colors.py:145 | the median lies between the lower and the upper middle value of the sorted channel |
| Colors.MedianWithin | cubecoach/vision/colors.py:145 | the median lies between two of the channel's samples |
| Colors.MedianOfUniform | cubecoach/vision/colors.py:145 | the median of identical values is that value |
| Colors.ChooseCenter | cubecoach/vision/colors.py:142-149 | the chosen colour is the centre sticker's HSV or the per-channel median, and its S+V is at least 3/5 of the median's |
| Colors.ChooseCenterRule | cubecoach/vision/colors.py:147-149 | the centre sticker's HSV is kept exactly when its S+V is at least 3/5 of the median's; otherwise the median is kept |
| Colors.ChooseCenterWithinSamples | cubecoach/vision/colors.py:142-149 | each channel of the chosen colour lies within that channel's range over the face's HSV samples |
| Colors.UniformSamplesCalibrate | cubecoach/vision/colors.py:142-150 | when all of a face's samples are identical, its centre is the HSV of that sample |
| Colors.ChosenCenters | cubecoach/vision/colors.py:135-151 | the calibration has exactly the input's labels, in the input's order, distinct when the input's are, each mapped to the colour chosen from that label's own samples |
| Colors.ComputeCalibrationFromRawFaces | cubecoach/vision/colors.py:125-151 | the loop computes `CalibrationOf`; it fails (the IndexError of an empty sample list) exactly when some face has no samples |
| Detector.LargestQuad | cubecoach/vision/detector.py:9-19 | a returned polygon has 4 vertices and strictly positive area |
| Detector.LargestQuadIndexSpec | cubecoach/vision/detector.py:9-19 | None exactly when no candidate has 4 vertices and positive area; otherwise the first 4-vertex candidate of maximal area |
| Detector.FindLargestQuad | cubecoach/vision/detector.py:7-19 | the `best`/`best_area` loop computes `LargestQuad` of the approximated contours |
| Detector.OrderQuad | cubecoach/vision/detector.py:22-31 | four input points: the first and third minimise and maximise x+y, the second and fourth minimise and maximise y−x |
| Detector.OrderQuadFirstOnTies | cubecoach/vision/detector.py:25-31 | each corner is the first input point attaining its extremum |
| Detector.DetectFaceContour | cubecoach/vision/detector.py:34-46 | None when no quad is found, otherwise the ordered four corners |
| Detector.StickerRegions | cubecoach/vision/detector.py:57-72 | exactly grid·grid rectangles |
| Detector.StickerRegionsRowMajor | cubecoach/vision/detector.py:65-71 | region r·grid+c has x = c·cell_w+pad_w, y = r·cell_h+pad_h, width cell_w−2·pad_w, height cell_h−2·pad_h |
| Detector.InsetBound | cubecoach/vision/detector.py:63-64 | the two insets never exceed the cell |
| Detector.StickerRegionInsideCell | cubecoach/vision/detector.py:59-71 | every region has non-negative size and lies inside its own grid cell and inside the w×h image |
| Detector.StickerRegionsDisjoint | cubecoach/vision/detector.py:65-71 | distinct regions do not overlap |
| Detector.GetStickerRegions | cubecoach/vision/detector.py:57-72 | the nested loops compute `StickerRegions` |
| Detector.Clamp | cubecoach/vision/detector.py:79 | a Python slice bound, negative indices included, normalises into the dimension |
| Detector.SampleRegion | cubecoach/vision/detector.py:79-84 | a region with pixels samples to their mean, rounded down channel by channel; a region without pixels samples to (0, 0, 0) |
| Detector.NegativeWidthSamplesFromEnd | cubecoach/vision/detector.py:79-80 | a negative width counts from the end of the row, so such a region can hold pixels and sample to a colour other than (0, 0, 0) |
| Detector.EmptyRegionIsBlack | cubecoach/vision/detector.py:80-82 | a zero-width or zero-height region samples to (0, 0, 0) |
| Detector.UniformRegionSamples | cubecoach/vision/detector.py:83-84 | a region whose pixels all share one colour samples to that colour |
| Detector.UniformImageRegion | cubecoach/vision/detector.py:79-84 | in a single-colour image, every non-empty region inside the image samples to that colour |
| Detector.UniformFaceSamples | tests/test_detector.py:26-33 | in a single-colour face image at least grid pixels on a side, every sticker samples to that colour |
| Detector.SampleRegionsColors | cubecoach/vision/detector.py:75-85 | one colour per region, in region order, each that region's sample |
| Detector.FaceColors | cubecoach/vision/detector.py:88-96 | (None, None) exactly when no quad is detected, otherwise nine colours |
| Detector.FaceColorsNoneIffNoQuad | cubecoach/vision/detector.py:90-92 | no face exactly when no contour approximates to a 4-vertex polygon of positive area |
| Detector.FaceFromFrame | cubecoach/vision/detector.py:88-96 | the composition computes `FaceColors` |
| Scan.FaceLabelOf | cubecoach/vision/scan.py:65-67 | a selected face is one of the six labels |
| Scan.FaceLabelOfKeys | cubecoach/vision/scan.py:65-66 | exactly the twelve keys u r f d l b and U R F D L B select a face, case-insensitively |
| Scan.MapStickers | cubecoach/vision/scan.py:73 | one entry per sampled colour; every label given is a key of the calibration file; all stickers are labelled exactly when a non-empty calibration file exists |
| Scan.Step | cubecoach/vision/scan.py:62-80 | one pass stops exactly on 'q', never drops a face, and changes no face but the one whose key was pressed |
| Scan.Run | cubecoach/vision/scan.py:47-80 | faces are only added or replaced, every face added is one of the six, and nothing changes once six faces are held |
| Scan.RunKeysWithin | cubecoach/vision/scan.py:47-80 | the keys of `faces` are always among the six labels, so at most six faces are held |
| Scan.StepKeepsFacesWellFormed | cubecoach/vision/scan.py:68-80 | a capture stores nine labels, each a key of the calibration file |
| Scan.RunFacesWellFormed | cubecoach/vision/scan.py:47-80 | every face held at any point has nine labels drawn from the calibration file |
| Scan.QuitEndsRun | cubecoach/vision/scan.py:63-64 | 'q' ends the loop with the faces held so far |
| Scan.IgnoredTickLeavesFaces | cubecoach/vision/scan.py:65-76 | a key that is not a face key, a detection miss, or a sticker the calibration cannot label leaves `faces` as if the tick had not happened |
| Scan.CaptureStoresFace | cubecoach/vision/scan.py:66-80 | a successful capture overwrites that face with its nine labels and leaves every other face untouched |
| Scan.ConcatSingles | cubecoach/vision/scan.py:91 | joining one-character labels keeps their count and order |
| Scan.ConcatFacesLayout | cubecoach/vision/scan.py:91 | joining nine-label faces puts sticker k of the i-th face at position 9·i+k |
| Scan.Facelets | cubecoach/vision/scan.py:91 | with one-character labels the facelet string has 54 symbols, sticker k of face FACE_ORDER[i] at 9·i+k |
| Scan.RunComplete | cubecoach/vision/scan.py:45-87 | a scan from no faces ends with at most six, and holds all six labels when it holds six |
| Scan.ScanOutcome | cubecoach/vision/scan.py:41-91 | an error when the camera does not open, an error exactly when fewer than six faces were captured, otherwise all six faces are present |
| Scan.ScanResultLayout | cubecoach/vision/scan.py:87-91 | a returned string has 54 symbols laid out by FACE_ORDER, each a label of the calibration file |
| Scan.PromptAndCapture | cubecoach/vision/scan.py:40-105 | the loop and the final check compute `ScanOutcome`; the solver's answer does not affect the result |
| Calibrate.ColorLabel | cubecoach/vision/calibrate.py:121-123 | exactly the six lower-case colour keys select a label (upper case selects none), and the label is one of the six |
| Calibrate.AddSample | cubecoach/vision/calibrate.py:125 | the labels afterwards are the labels before plus the new one; existing labels keep their positions; the table grows only for a new label |
| Calibrate.AddSampleKeys | cubecoach/vision/calibrate.py:125 | `setdefault(...).append` keeps existing labels in order, adds a new label at the end, and keeps keys distinct |
| Calibrate.AddSampleGet | cubecoach/vision/calibrate.py:125 | the label's list grows by exactly the new sample; every other label keeps its list |
| Calibrate.AddSampleNonEmpty | cubecoach/vision/calibrate.py:125 | no label ever holds an empty list |
| Calibrate.AddSampleCounts | cubecoach/vision/calibrate.py:125 | that label's count rises by one and no other count changes |
| Calibrate.AverageHsv | cubecoach/vision/calibrate.py:31-34 | each channel of the average is the samples' channel sum divided by their count, rounded down |
| Calibrate.AverageHsvWithin | cubecoach/vision/calibrate.py:31-34 | each channel of the truncated mean lies within the samples' range for that channel; identical samples average to themselves |
| Calibrate.Centers | cubecoach/vision/calibrate.py:116-118 | one centre per label with samples |
| Calibrate.CentersSpec | cubecoach/vision/calibrate.py:116-118 | the centres have exactly the labels with samples, each the average of its samples, with distinct keys |
| Calibrate.AverageCenters | cubecoach/vision/calibrate.py:116-118 | the loop computes `Centers` |
| Calibrate.TestReading | cubecoach/vision/calibrate.py:91-105 | a label is shown exactly when the loaded calibration exists and is non-empty, and it is one of its keys |
| Calibrate.TestReadingIsFirstNearest | cubecoach/vision/calibrate.py:97-102 | the shown label belongs to the first centre of least HSV distance, the same rule as `map_hsv_to_label` |
| Calibrate.ShowTest | cubecoach/vision/calibrate.py:91-105 | the inline search computes `TestReading` |
| Calibrate.CalStep | cubecoach/vision/calibrate.py:84-126 | one pass keeps one non-empty sample list per colour label, keys distinct |
| Calibrate.RunCal | cubecoach/vision/calibrate.py:84-126 | the loop keeps the same invariant |
| Calibrate.ExitSave | cubecoach/vision/calibrate.py:131-136 | the averages are saved exactly when samples exist and the answer starts with y or Y; nothing else changes |
| Calibrate.Session | cubecoach/vision/calibrate.py:73-77 | nothing happens when the camera does not open |
| Calibrate.ColorKeyAddsOneSample | cubecoach/vision/calibrate.py:121-126 | a colour key appends one sample to that label only; test mode and the file are untouched |
| Calibrate.ToggleTwiceRestores | cubecoach/vision/calibrate.py:112-113 | 't' flips test mode and nothing else; two presses restore it |
| Calibrate.SaveKeyStoresCenters | cubecoach/vision/calibrate.py:114-119 | 's' saves centres for exactly the labels with samples, each its average, and leaves the samples as they were |
| Calibrate.QuitRecordsNothing | cubecoach/vision/calibrate.py:109-111 | 'q' ends the loop without recording a sample or changing test mode or the file |
| Calibrate.OtherKeysChangeNothing | cubecoach/vision/calibrate.py:121-123 | every other key, including "no key", changes nothing but the test overlay |
| Calibrate.CalibrationMain | cubecoach/vision/calibrate.py:73-136 | the loop and the exit prompt compute `Session` |

## Left out

- **OpenCV.** The colour conversions, Canny/contours/`approxPolyDP`/`contourArea`, `getPerspectiveTransform`/`warpPerspective` and `sample_center_hsv` are foreign image processing. They are uninterpreted parameters. The exact-match distance below 5 checked by tests/test_colors_confidence.py depends on the HSV→BGR→LAB round trip of those conversions, so it is not stated.
- **The frame `sample_center_hsv` reads.** `draw_instructions` draws the green guide rectangle onto the frame before the centre patch is sampled. The patch's top row and left column are therefore guide pixels. The model's `centreHsv` is a function of the frame and does not see the drawing. It also treats the two calls in one pass (test mode, then recording) as reading the same frame, although the test text is drawn in between.
- **File I/O.** The calibration file is modelled by its contents: `stored` in `Colors`/`Scan`, `file` in `Calibrate`. JSON saving and loading (and their round trip), the scan images, mappings and facelet files, printing, windows and drawing are left out.
- **The solver.** Its answer is only printed and its failures are caught. It is a parameter whose result the model ignores.
- **camera.py, gui.py, cli.py, the kociemba wrapper and the dependency script** are not part of this model.
- **Symbols the tests refer to that the scan module does not define.** tests/test_scan_rescan.py and tests/test_scan_preview.py import `_average_samples_per_cell` and `_draw_color_squares`. The model has no counterpart for them. `CONFIDENCE_HIGH`/`CONFIDENCE_LOW` are only constants; nothing uses them.
- **Colors.MapBgrToLabelWithDistance**: returns the squared LAB distance rather than its square root, as a float.
- **Colors.Classify**: its distance is the squared Euclidean distance. The argmin, the ties and the label are the same as for the square root.
- **Colors.ChooseCenter**: the 0.6 factor is the exact ratio 3/5, with no floating-point rounding.
- **Colors.Median** and `np.median`: an even count gives the floor of the mean of the two middle values, which is what `astype(int)` makes of the float median.
- **Detector.Inset**: `int(cell * 0.15)` is `cell * 15 / 100`, with no floating-point rounding.
- **Detector.GetStickerRegions**: requires `grid > 0`. In the source, `grid = 0` divides by zero and `grid < 0` yields no regions. Only `grid = 3` is ever used.
- **Detector.SampleRegion** and **Calibrate.AverageHsv**: the float means of `cv2.mean` and numpy are modelled as exact truncated integer means.
- **Scan.FaceLabelOf**: `str.lower()` is modelled as ASCII lower-casing. Among the characters 0–254, only ASCII letters lower-case to one of the six face keys, so the face selected is the same.
- **Colors.ComputeCalibrationFromRawFaces**: any exception other than the IndexError of an empty sample list is not modelled.
