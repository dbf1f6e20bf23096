/** The interactive calibration tool (cubecoach/vision/calibrate.py): the
    key dispatch of its camera loop, the averaged HSV centres it saves and
    the live test mapping. The calibration file is modelled by its current
    contents; `sample_center_hsv` is a function of the frame. */
module Calibrate {
  import opened Basics
  import Colors

  /** `COLOR_KEYS`; the lookup is case-sensitive. */
  const ColorKeys: map<char, string> :=
    map['u' := "U", 'r' := "R", 'f' := "F", 'd' := "D", 'l' := "L", 'b' := "B"]

  const ColorLabels: set<string> := {"U", "R", "F", "D", "L", "B"}

  /** `ord('t')` and `ord('s')`. */
  const ToggleKey: nat := 116
  const SaveKey: nat := 115

  /** `COLOR_KEYS[ch]` for `ch = chr(key)`, or `''` when the byte is 255:
      exactly the six lower-case colour keys select a label (upper case
      does not), and that label is one of the six. */
  function ColorLabel(key: nat): (r: Option<string>)
    requires key < 256
    ensures r.Some? <==> key as char in {'u', 'r', 'f', 'd', 'l', 'b'}
    ensures r.Some? ==> r.value in ColorLabels
  {
    if key != 255 && key as char in ColorKeys then Some(ColorKeys[key as char]) else None
  }

  // ---------------------------------------------------------------------
  // The samples dictionary
  // ---------------------------------------------------------------------

  /** `d.get(k)`: the value of the entry with key `k`. */
  function Get<V>(t: Table<string, V>, k: string): Option<V>
  {
    if |t| == 0 then None else if t[0].0 == k then Some(t[0].1) else Get(t[1..], k)
  }

  lemma {:induction false} GetAbsent<V>(t: Table<string, V>, k: string)
    requires k !in Keys(t)
    ensures Get(t, k).None?
  {
    if |t| > 0 {
      assert t[0].0 == t[0].0;
      assert forall i :: 0 <= i < |t| - 1 ==> t[1..][i].0 == t[i + 1].0;
      GetAbsent(t[1..], k);
    }
  }

  lemma {:induction false} GetAt<V>(t: Table<string, V>, i: nat)
    requires DistinctKeys(t) && i < |t|
    ensures Get(t, t[i].0) == Some(t[i].1)
  {
    if i > 0 {
      assert t[0].0 != t[i].0;
      assert t[1..][i - 1] == t[i];
      GetAt(t[1..], i - 1);
    }
  }

  /** `len(samples.get(label, []))`, the count the overlay shows. */
  function SampleCount(t: Table<string, seq<Triple>>, l: string): nat
  {
    match Get(t, l)
    case None => 0
    case Some(v) => |v|
  }

  /** `samples.setdefault(label, []).append(hsv)`: the sample joins that
      label's list; a new label is inserted at the end. */
  function AddSample(t: Table<string, seq<Triple>>, l: string, hsv: Triple): (r: Table<string, seq<Triple>>)
    ensures Keys(r) == Keys(t) + {l}
    ensures |r| == (if l in Keys(t) then |t| else |t| + 1)
    ensures forall i :: 0 <= i < |t| ==> r[i].0 == t[i].0
  {
    if |t| == 0 then
      assert Keys([(l, [hsv])]) == {l} by { assert [(l, [hsv])][0].0 == l; }
      [(l, [hsv])]
    else
      assert t == [t[0]] + t[1..];
      KeysOfCons(t[0], t[1..]);
      if t[0].0 == l then
        KeysOfCons((l, t[0].1 + [hsv]), t[1..]);
        [(l, t[0].1 + [hsv])] + t[1..]
      else
        var rest := AddSample(t[1..], l, hsv);
        KeysOfCons(t[0], rest);
        [t[0]] + rest
  }

  /** Every stored list has at least one sample. */
  predicate NonEmptyLists(t: Table<string, seq<Triple>>)
  {
    forall i :: 0 <= i < |t| ==> |t[i].1| > 0
  }

  lemma KeysOfCons<V>(e: (string, V), t: Table<string, V>)
    ensures Keys([e] + t) == {e.0} + Keys(t)
  {
    var u := [e] + t;
    assert u[0].0 == e.0;
    forall k | k in Keys(t)
      ensures k in Keys(u)
    {
      var i :| 0 <= i < |t| && t[i].0 == k;
      assert u[i + 1].0 == k;
    }
    forall k | k in Keys(u)
      ensures k in {e.0} + Keys(t)
    {
      var i :| 0 <= i < |u| && u[i].0 == k;
      if i > 0 {
        assert t[i - 1].0 == k;
      }
    }
  }

  /** Appending a sample keeps the existing entries in their order, inserts
      a new label at the end, and keeps the keys distinct. */
  lemma {:induction false} AddSampleKeys(t: Table<string, seq<Triple>>, l: string, hsv: Triple)
    requires DistinctKeys(t)
    ensures var r := AddSample(t, l, hsv);
      DistinctKeys(r) && Keys(r) == Keys(t) + {l} &&
      |r| == (if l in Keys(t) then |t| else |t| + 1) &&
      (forall i :: 0 <= i < |t| ==> r[i].0 == t[i].0)
  {
    var r := AddSample(t, l, hsv);
    if |t| == 0 {
      assert Keys(r) == {l} by { assert r[0].0 == l; }
    } else {
      KeysOfCons(t[0], t[1..]);
      assert t == [t[0]] + t[1..];
      if t[0].0 == l {
        KeysOfCons(r[0], t[1..]);
      } else {
        var rest := AddSample(t[1..], l, hsv);
        AddSampleKeys(t[1..], l, hsv);
        KeysOfCons(t[0], rest);
        assert forall i :: 0 < i < |r| ==> r[i] == rest[i - 1];
      }
    }
  }

  /** The label's list grows by exactly the new sample and every other
      label keeps its list. */
  lemma {:induction false} AddSampleGet(t: Table<string, seq<Triple>>, l: string, hsv: Triple)
    ensures Get(AddSample(t, l, hsv), l) == Some((if Get(t, l).Some? then Get(t, l).value else []) + [hsv])
    ensures forall k :: k != l ==> Get(AddSample(t, l, hsv), k) == Get(t, k)
  {
    var r := AddSample(t, l, hsv);
    if |t| == 0 {
      assert [] + [hsv] == [hsv];
    } else if t[0].0 == l {
      assert r[0] == (l, t[0].1 + [hsv]) && r[1..] == t[1..];
    } else {
      AddSampleGet(t[1..], l, hsv);
      assert r[0] == t[0] && r[1..] == AddSample(t[1..], l, hsv);
    }
  }

  lemma {:induction false} AddSampleNonEmpty(t: Table<string, seq<Triple>>, l: string, hsv: Triple)
    requires NonEmptyLists(t)
    ensures NonEmptyLists(AddSample(t, l, hsv))
  {
    if |t| > 0 && t[0].0 != l {
      AddSampleNonEmpty(t[1..], l, hsv);
    }
  }

  /** Pressing a colour key raises that label's count by one and no other
      count. */
  lemma AddSampleCounts(t: Table<string, seq<Triple>>, l: string, hsv: Triple)
    ensures SampleCount(AddSample(t, l, hsv), l) == SampleCount(t, l) + 1
    ensures forall k :: k != l ==> SampleCount(AddSample(t, l, hsv), k) == SampleCount(t, k)
  {
    AddSampleGet(t, l, hsv);
  }

  // ---------------------------------------------------------------------
  // Averaged centres
  // ---------------------------------------------------------------------

  /** `average_hsv`: the per-channel mean, truncated. */
  function AverageHsv(samples: seq<Triple>): (r: Triple)
    requires |samples| > 0
    ensures IsFloorMean(r, samples)
  {
    Mean(samples)
  }

  /** Each channel of the average lies within the range of that channel
      over the samples, and a list of identical samples averages to that
      sample. */
  lemma AverageHsvWithin(samples: seq<Triple>, k: nat, lo: nat, hi: nat)
    requires |samples| > 0 && k < 3
    requires forall i :: 0 <= i < |samples| ==> lo <= Chan(samples[i], k) <= hi
    ensures lo <= Chan(AverageHsv(samples), k) <= hi
    ensures (forall i :: 0 <= i < |samples| ==> samples[i] == samples[0]) ==> AverageHsv(samples) == samples[0]
  {
    MeanWithinBounds(samples, k, lo, hi);
    if forall i :: 0 <= i < |samples| ==> samples[i] == samples[0] {
      MeanOfUniform(samples, samples[0]);
    }
  }

  /** `{label: average_hsv(vals) for label, vals in samples.items()}`. */
  function Centers(t: Table<string, seq<Triple>>): (c: Table<string, Triple>)
    requires NonEmptyLists(t)
    ensures |c| == |t|
  {
    seq(|t|, i requires 0 <= i < |t| && NonEmptyLists(t) => (t[i].0, AverageHsv(t[i].1)))
  }

  /** The saved centres have exactly the labels that have samples, each
      the average of that label's samples. */
  lemma CentersSpec(t: Table<string, seq<Triple>>)
    requires NonEmptyLists(t) && DistinctKeys(t)
    ensures DistinctKeys(Centers(t)) && Keys(Centers(t)) == Keys(t)
    ensures forall l :: l in Keys(Centers(t)) <==> SampleCount(t, l) > 0
    ensures forall i :: 0 <= i < |t| ==> Get(Centers(t), t[i].0) == Some(AverageHsv(t[i].1))
    ensures forall l :: l !in Keys(t) ==> Get(Centers(t), l).None?
  {
    var c := Centers(t);
    assert forall i :: 0 <= i < |t| ==> c[i].0 == t[i].0;
    assert Keys(c) == Keys(t) by {
      forall l | l in Keys(t) ensures l in Keys(c) {
        var i :| 0 <= i < |t| && t[i].0 == l;
        assert c[i].0 == l;
      }
    }
    forall i | 0 <= i < |t|
      ensures Get(c, t[i].0) == Some(AverageHsv(t[i].1)) && SampleCount(t, t[i].0) > 0
    {
      GetAt(c, i);
      GetAt(t, i);
    }
    forall l | l !in Keys(t)
      ensures Get(c, l).None? && SampleCount(t, l) == 0
    {
      GetAbsent(c, l);
      GetAbsent(t, l);
    }
    forall l | SampleCount(t, l) > 0 ensures l in Keys(t) {
      if l !in Keys(t) {
        GetAbsent(t, l);
      }
    }
  }

  /** The `for label, vals in samples.items()` loop behind 's'. */
  method AverageCenters(samples: Table<string, seq<Triple>>) returns (centers: Table<string, Triple>)
    requires NonEmptyLists(samples)
    ensures centers == Centers(samples)
  {
    centers := [];
    for i := 0 to |samples|
      invariant |centers| == i
      invariant forall j :: 0 <= j < i ==> centers[j] == (samples[j].0, AverageHsv(samples[j].1))
    {
      centers := centers + [(samples[i].0, AverageHsv(samples[i].1))];
    }
  }

  // ---------------------------------------------------------------------
  // Test mode
  // ---------------------------------------------------------------------

  /** The overlay text of test mode: the sampled HSV and either the nearest
      saved centre's label or "no calibration loaded". */
  datatype Reading = NoCalibration(hsv: Triple) | Shown(hsv: Triple, color: string)

  /** `if calib:` is false for a missing file and for an empty dictionary. */
  function TestReading(hsv: Triple, file: Option<Table<string, Triple>>): (r: Reading)
    ensures r.hsv == hsv
    ensures r.Shown? <==> file.Some? && |file.value| > 0
    ensures r.Shown? ==> r.color in Keys(file.value)
  {
    if file.Some? && |file.value| > 0 then Shown(hsv, Colors.Classify(hsv, file.value).key)
    else NoCalibration(hsv)
  }

  /** The label shown belongs to the first saved centre of least HSV
      distance: no centre is closer, and every earlier one is farther. */
  lemma TestReadingIsFirstNearest(hsv: Triple, file: Table<string, Triple>)
    requires |file| > 0
    ensures var j := Colors.NearestIndex(hsv, file);
      TestReading(hsv, Some(file)) == Shown(hsv, file[j].0) &&
      (forall k :: 0 <= k < |file| ==> SqDist(hsv, file[j].1) <= SqDist(hsv, file[k].1)) &&
      (forall k :: 0 <= k < j ==> SqDist(hsv, file[j].1) < SqDist(hsv, file[k].1))
  {
    Colors.ClassifyIsNearest(hsv, file);
    var j := Colors.NearestIndex(hsv, file);
    Colors.ClassifyEarliestOnTie(hsv, file, j);
  }

  /** The test-mode branch of the loop body, with its own copy of the
      nearest-centre scan. */
  method ShowTest(hsv: Triple, file: Option<Table<string, Triple>>) returns (r: Reading)
    ensures r == TestReading(hsv, file)
  {
    if file.Some? && |file.value| > 0 {
      var m := Colors.Nearest(hsv, file.value);
      r := Shown(hsv, m.key);
    } else {
      r := NoCalibration(hsv);
    }
  }

  // ---------------------------------------------------------------------
  // The camera loop
  // ---------------------------------------------------------------------

  /** The state `main` keeps across frames, with the calibration file's
      contents and the test-mode readings shown so far. */
  datatype CalState = CalState(
    samples: Table<string, seq<Triple>>,
    testMode: bool,
    file: Option<Table<string, Triple>>,
    shown: seq<Reading>)

  /** What the loop maintains: one entry per colour label, none empty. */
  predicate Wf(s: CalState)
  {
    DistinctKeys(s.samples) && NonEmptyLists(s.samples) && Keys(s.samples) <= ColorLabels
  }

  /** One frame and the raw `waitKey(1)` value read with it. */
  datatype CalTick<F> = CalTick(frame: F, key: int)

  /** One pass of the loop body after a frame was read: the test overlay,
      then 'q', 't', 's' and the colour keys in the source's order. */
  function CalStep<F>(s: CalState, t: CalTick<F>, centreHsv: F -> Triple): (r: CalState)
    requires Wf(s)
    ensures Wf(r)
  {
    var hsv := centreHsv(t.frame);
    var s1 := if s.testMode then s.(shown := s.shown + [TestReading(hsv, s.file)]) else s;
    var key := KeyByte(t.key);
    if key == QuitKey then s1
    else
      var s2 := if key == ToggleKey then s1.(testMode := !s1.testMode) else s1;
      var s3 := if key == SaveKey then s2.(file := Some(Centers(s2.samples))) else s2;
      var color := ColorLabel(key);
      if color.None? then s3
      else
        AddSampleKeys(s3.samples, color.value, hsv);
        AddSampleNonEmpty(s3.samples, color.value, hsv);
        s3.(samples := AddSample(s3.samples, color.value, hsv))
  }

  /** The loop: it ends when a read fails or after the pass in which 'q'
      was pressed. */
  function RunCal<F>(s: CalState, ticks: seq<CalTick<F>>, centreHsv: F -> Triple): (r: CalState)
    requires Wf(s)
    ensures Wf(r)
    decreases |ticks|
  {
    if |ticks| == 0 then s
    else if KeyByte(ticks[0].key) == QuitKey then CalStep(s, ticks[0], centreHsv)
    else RunCal(CalStep(s, ticks[0], centreHsv), ticks[1..], centreHsv)
  }

  /** `ans.lower().startswith('y')`. */
  predicate Confirms(answer: string)
  {
    |answer| > 0 && (answer[0] == 'y' || answer[0] == 'Y')
  }

  /** After the loop: with samples recorded and a confirming answer, the
      averaged centres are saved. */
  function ExitSave(s: CalState, answer: string): (r: CalState)
    requires Wf(s)
    ensures r.samples == s.samples && r.testMode == s.testMode && r.shown == s.shown
    ensures r.file != s.file ==> |s.samples| > 0 && Confirms(answer)
    ensures |s.samples| > 0 && Confirms(answer) ==> r.file == Some(Centers(s.samples))
  {
    if |s.samples| > 0 && Confirms(answer) then s.(file := Some(Centers(s.samples))) else s
  }

  function Initial(file: Option<Table<string, Triple>>): CalState
  {
    CalState([], false, file, [])
  }

  /** The whole run of `main`: nothing happens when the camera does not open. */
  function Session<F>(cameraOpened: bool, ticks: seq<CalTick<F>>, answer: string,
                      file: Option<Table<string, Triple>>, centreHsv: F -> Triple): (r: CalState)
    ensures Wf(r)
    ensures !cameraOpened ==> r == Initial(file)
  {
    if !cameraOpened then Initial(file)
    else ExitSave(RunCal(Initial(file), ticks, centreHsv), answer)
  }

  // ---------------------------------------------------------------------
  // Properties of one key press
  // ---------------------------------------------------------------------

  /** A colour key appends one sample to that label's list only; test mode
      and the file are untouched. */
  lemma ColorKeyAddsOneSample<F>(s: CalState, t: CalTick<F>, centreHsv: F -> Triple)
    requires Wf(s) && ColorLabel(KeyByte(t.key)).Some?
    ensures var l := ColorLabel(KeyByte(t.key)).value;
      var r := CalStep(s, t, centreHsv);
      r.samples == AddSample(s.samples, l, centreHsv(t.frame)) &&
      SampleCount(r.samples, l) == SampleCount(s.samples, l) + 1 &&
      (forall k :: k != l ==> SampleCount(r.samples, k) == SampleCount(s.samples, k)) &&
      r.testMode == s.testMode && r.file == s.file
  {
    AddSampleCounts(s.samples, ColorLabel(KeyByte(t.key)).value, centreHsv(t.frame));
  }

  /** 't' flips test mode and touches nothing else; two presses restore it. */
  lemma ToggleTwiceRestores<F>(s: CalState, t1: CalTick<F>, t2: CalTick<F>, centreHsv: F -> Triple)
    requires Wf(s) && KeyByte(t1.key) == ToggleKey && KeyByte(t2.key) == ToggleKey
    ensures CalStep(s, t1, centreHsv).testMode == !s.testMode
    ensures CalStep(s, t1, centreHsv).samples == s.samples && CalStep(s, t1, centreHsv).file == s.file
    ensures var r := CalStep(CalStep(s, t1, centreHsv), t2, centreHsv);
      r.testMode == s.testMode && r.samples == s.samples && r.file == s.file
  {
  }

  /** 's' saves centres for exactly the labels with samples, each the
      average of its samples, and leaves the samples as they were. */
  lemma SaveKeyStoresCenters<F>(s: CalState, t: CalTick<F>, centreHsv: F -> Triple)
    requires Wf(s) && KeyByte(t.key) == SaveKey
    ensures var r := CalStep(s, t, centreHsv);
      r.samples == s.samples && r.testMode == s.testMode && r.file.Some? &&
      (forall l :: l in Keys(r.file.value) <==> SampleCount(s.samples, l) > 0) &&
      (forall i :: 0 <= i < |s.samples| ==> Get(r.file.value, s.samples[i].0) == Some(AverageHsv(s.samples[i].1)))
  {
    CentersSpec(s.samples);
  }

  /** 'q' records nothing and ends the loop. */
  lemma QuitRecordsNothing<F>(s: CalState, t: CalTick<F>, rest: seq<CalTick<F>>, centreHsv: F -> Triple)
    requires Wf(s) && KeyByte(t.key) == QuitKey
    ensures var r := RunCal(s, [t] + rest, centreHsv);
      r == CalStep(s, t, centreHsv) &&
      r.samples == s.samples && r.testMode == s.testMode && r.file == s.file
  {
  }

  /** Any other key, including "no key" (255), changes nothing but the
      test-mode overlay. */
  lemma OtherKeysChangeNothing<F>(s: CalState, t: CalTick<F>, centreHsv: F -> Triple)
    requires Wf(s)
    requires KeyByte(t.key) !in {QuitKey, ToggleKey, SaveKey} && ColorLabel(KeyByte(t.key)).None?
    ensures var r := CalStep(s, t, centreHsv);
      r.samples == s.samples && r.testMode == s.testMode && r.file == s.file &&
      r.shown == s.shown + (if s.testMode then [TestReading(centreHsv(t.frame), s.file)] else [])
  {
  }

  /** `main`: the camera loop followed by the save prompt. The camera
      becomes the frames it delivers before a read fails, and `input()`
      the answer typed at the prompt. */
  method CalibrationMain<F>(cameraOpened: bool, ticks: seq<CalTick<F>>, answer: string,
                            file0: Option<Table<string, Triple>>, centreHsv: F -> Triple)
    returns (final: CalState)
    ensures final == Session(cameraOpened, ticks, answer, file0, centreHsv)
  {
    if !cameraOpened {
      return Initial(file0);
    }
    var samples: Table<string, seq<Triple>> := [];
    var testMode := false;
    var file := file0;
    var shown: seq<Reading> := [];
    ghost var result := RunCal(Initial(file0), ticks, centreHsv);
    var i := 0;
    while true
      invariant 0 <= i <= |ticks|
      invariant Wf(CalState(samples, testMode, file, shown))
      invariant RunCal(CalState(samples, testMode, file, shown), ticks[i..], centreHsv) == result
      decreases |ticks| - i
    {
      if i == |ticks| {
        break;
      }
      ghost var before := CalState(samples, testMode, file, shown);
      var t := ticks[i];
      assert ticks[i..][0] == t && ticks[i..][1..] == ticks[i + 1..];
      i := i + 1;
      var hsv := centreHsv(t.frame);
      if testMode {
        var reading := ShowTest(hsv, file);
        shown := shown + [reading];
      }
      var key := KeyByte(t.key);
      if key == QuitKey {
        assert CalState(samples, testMode, file, shown) == result;
        break;
      }
      if key == ToggleKey {
        testMode := !testMode;
      }
      if key == SaveKey {
        var centers := AverageCenters(samples);
        file := Some(centers);
      }
      var color := ColorLabel(key);
      if color.Some? {
        samples := AddSample(samples, color.value, hsv);
      }
      assert CalState(samples, testMode, file, shown) == CalStep(before, t, centreHsv);
    }
    assert CalState(samples, testMode, file, shown) == result;
    if |samples| > 0 && Confirms(answer) {
      var centers := AverageCenters(samples);
      file := Some(centers);
    }
    final := CalState(samples, testMode, file, shown);
  }
}
