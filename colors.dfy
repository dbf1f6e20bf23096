/** Nearest-centre colour classification and the calibration builder
    (cubecoach/vision/colors.py). OpenCV's colour conversions are not
    interpreted: they arrive as the functions of a `Converters` value. */
module Colors {
  import opened Basics
  import opened Select

  /** The OpenCV conversions `cvtColor` performs for the classifier. */
  datatype Converters = Converters(
    bgrToHsv: Triple -> Triple,
    hsvToBgr: Triple -> Triple,
    bgrToLab: Triple -> Triple)

  /** The `(label, distance)` pair of the classifier, or `(None, None)`.
      The distance is the squared Euclidean distance. */
  datatype Match<K> = NoMatch | Match(key: K, dist: nat)

  function LabelOf<K>(m: Match<K>): Option<K>
  {
    if m.Match? then Some(m.key) else None
  }

  // ---------------------------------------------------------------------
  // Nearest-centre search
  // ---------------------------------------------------------------------

  function Distances<K>(x: Triple, t: Table<K, Triple>): (d: seq<int>)
    ensures |d| == |t|
    ensures forall i :: 0 <= i < |t| ==> d[i] == SqDist(x, t[i].1)
  {
    seq(|t|, i requires 0 <= i < |t| => SqDist(x, t[i].1))
  }

  /** Position, in iteration order, of the centre the search keeps. */
  function NearestIndex<K>(x: Triple, t: Table<K, Triple>): (i: nat)
    requires |t| > 0
    ensures i < |t|
  {
    FirstMin(Distances(x, t))
  }

  /** What the source's loops compute: no match for an empty table,
      otherwise the first centre of least distance and that distance. */
  function Classify<K>(x: Triple, t: Table<K, Triple>): (m: Match<K>)
    ensures m.NoMatch? <==> |t| == 0
    ensures m.Match? ==> m.key in Keys(t)
  {
    if |t| == 0 then NoMatch
    else
      var i := NearestIndex(x, t);
      Match(t[i].0, SqDist(x, t[i].1))
  }

  /** The reported distance is attained by the reported label and no centre
      is closer. */
  lemma ClassifyIsNearest<K>(x: Triple, t: Table<K, Triple>)
    requires |t| > 0
    ensures Classify(x, t).Match?
    ensures forall j :: 0 <= j < |t| ==> Classify(x, t).dist <= SqDist(x, t[j].1)
    ensures t[NearestIndex(x, t)].0 == Classify(x, t).key
    ensures SqDist(x, t[NearestIndex(x, t)].1) == Classify(x, t).dist
  {
    FirstMinIsFirstMin(Distances(x, t));
  }

  /** Ties go to the earliest entry: every centre at the minimal distance
      comes at or after the one chosen, and every earlier centre is
      strictly farther. */
  lemma ClassifyEarliestOnTie<K>(x: Triple, t: Table<K, Triple>, j: nat)
    requires j < |t|
    requires forall k :: 0 <= k < |t| ==> SqDist(x, t[j].1) <= SqDist(x, t[k].1)
    ensures NearestIndex(x, t) <= j
    ensures forall k :: 0 <= k < NearestIndex(x, t) ==> Classify(x, t).dist < SqDist(x, t[k].1)
  {
    FirstMinIsFirstMin(Distances(x, t));
  }

  /** A colour equal to a stored centre is matched at distance zero, to the
      first entry whose centre is exactly that colour. */
  lemma ClassifyExactCentre<K>(x: Triple, t: Table<K, Triple>, j: nat)
    requires j < |t| && t[j].1 == x
    ensures Classify(x, t).Match? && Classify(x, t).dist == 0
    ensures NearestIndex(x, t) <= j && t[NearestIndex(x, t)].1 == x
  {
    FirstMinIsFirstMin(Distances(x, t));
    SqDistZero(x, t[j].1);
    SqDistZero(x, t[NearestIndex(x, t)].1);
  }

  /** The search loop shared by `map_hsv_to_label`, `map_lab_to_label`,
      the second half of `map_bgr_to_label_with_distance` and the test
      mode of the calibration tool: keep the first strictly closer centre. */
  method Nearest<K>(x: Triple, centers: Table<K, Triple>) returns (m: Match<K>)
    ensures m == Classify(x, centers)
  {
    ghost var d := Distances(x, centers);
    var best: Option<K> := None;
    var bestD: Option<nat> := None;
    ghost var bestI: nat := 0;
    for i := 0 to |centers|
      invariant best.None? <==> i == 0
      invariant bestD.None? <==> i == 0
      invariant i > 0 ==> bestI < i && bestI == FirstMin(d[..i])
      invariant i > 0 ==> best == Some(centers[bestI].0) && bestD == Some(SqDist(x, centers[bestI].1))
    {
      var name := centers[i].0;
      var dist := SqDist(x, centers[i].1);
      assert d[..i + 1][..i] == d[..i];
      if bestD.None? || dist < bestD.value {
        bestD := Some(dist);
        best := Some(name);
        bestI := i;
      }
    }
    assert d[..|centers|] == d;
    m := if best.Some? then Match(best.value, bestD.value) else NoMatch;
  }

  /** `map_hsv_to_label`: the label of the nearest HSV centre, None exactly
      when there are no centres. */
  method MapHsvToLabel<K>(hsv: Triple, centers: Table<K, Triple>) returns (best: Option<K>)
    ensures best == LabelOf(Classify(hsv, centers))
    ensures best.None? <==> |centers| == 0
    ensures best.Some? ==> best.value in Keys(centers)
  {
    var m := Nearest(hsv, centers);
    best := LabelOf(m);
  }

  /** The table of tests/test_colors.py:7-14: (58, 240, 250) is nearest
      to the centre stored for "F". */
  lemma HsvExample()
    ensures Classify(Triple(58, 240, 250),
                     [("U", Triple(0, 0, 255)), ("R", Triple(0, 255, 255)), ("F", Triple(60, 255, 255))]).key == "F"
  {
    var t := [("U", Triple(0, 0, 255)), ("R", Triple(0, 255, 255)), ("F", Triple(60, 255, 255))];
    var d := Distances(Triple(58, 240, 250), t);
    assert d == [60989, 3614, 254];
    assert d[..2] == [60989, 3614] && d[..2][..1] == [60989];
  }

  /** `map_lab_to_label`: the same search over LAB centres. */
  method MapLabToLabel<K>(lab: Triple, labCenters: Table<K, Triple>) returns (best: Option<K>)
    ensures best == LabelOf(Classify(lab, labCenters))
    ensures best.None? <==> |labCenters| == 0
    ensures best.Some? ==> best.value in Keys(labCenters)
  {
    var m := Nearest(lab, labCenters);
    best := LabelOf(m);
  }

  // ---------------------------------------------------------------------
  // LAB classification of a sampled BGR colour
  // ---------------------------------------------------------------------

  /** `centers` when given, else the contents of the calibration file
      (`stored`, None when there is no file). */
  function Calibration<K>(centers: Option<Table<K, Triple>>, stored: Option<Table<K, Triple>>): Option<Table<K, Triple>>
  {
    if centers.Some? then centers else stored
  }

  /** A stored HSV centre converted HSV -> BGR -> LAB. */
  function LabCenter(cv: Converters, hsv: Triple): Triple
  {
    cv.bgrToLab(cv.hsvToBgr(hsv))
  }

  function LabCenters<K>(t: Table<K, Triple>, cv: Converters): (r: Table<K, Triple>)
    ensures |r| == |t|
    ensures forall i :: 0 <= i < |t| ==> r[i] == (t[i].0, LabCenter(cv, t[i].1))
  {
    seq(|t|, i requires 0 <= i < |t| => (t[i].0, LabCenter(cv, t[i].1)))
  }

  lemma LabCentersKeys<K>(t: Table<K, Triple>, cv: Converters)
    ensures Keys(LabCenters(t, cv)) == Keys(t)
  {
    var r := LabCenters(t, cv);
    forall k | k in Keys(t) ensures k in Keys(r) {
      var i :| 0 <= i < |t| && t[i].0 == k;
      assert r[i].0 == k;
    }
  }

  /** What `map_bgr_to_label_with_distance` returns. */
  function BgrMatch<K>(bgr: Triple, centers: Option<Table<K, Triple>>, stored: Option<Table<K, Triple>>, cv: Converters): Match<K>
  {
    match Calibration(centers, stored)
    case None => NoMatch
    case Some(c) => Classify(cv.bgrToLab(bgr), LabCenters(c, cv))
  }

  /** `map_bgr_to_label_with_distance`: (None, None) when there is no
      calibration at all or it is empty; otherwise a calibrated label and
      the least distance from the sample's LAB value to any converted
      centre. */
  method MapBgrToLabelWithDistance<K>(bgr: Triple, centers: Option<Table<K, Triple>>,
                                      stored: Option<Table<K, Triple>>, cv: Converters)
    returns (m: Match<K>)
    ensures m == BgrMatch(bgr, centers, stored, cv)
    ensures m.NoMatch? <==> Calibration(centers, stored).None? || |Calibration(centers, stored).value| == 0
    ensures m.Match? ==> m.key in Keys(Calibration(centers, stored).value)
    ensures m.Match? ==> forall j :: 0 <= j < |Calibration(centers, stored).value| ==>
      m.dist <= SqDist(cv.bgrToLab(bgr), LabCenter(cv, Calibration(centers, stored).value[j].1))
    ensures m.Match? ==> exists j :: (0 <= j < |Calibration(centers, stored).value| &&
      Calibration(centers, stored).value[j].0 == m.key &&
      m.dist == SqDist(cv.bgrToLab(bgr), LabCenter(cv, Calibration(centers, stored).value[j].1)))
  {
    var cal := centers;
    if cal.None? {
      cal := stored;
      if cal.None? {
        return NoMatch;
      }
    }
    var c := cal.value;
    var labCenters: Table<K, Triple> := [];
    for i := 0 to |c|
      invariant labCenters == LabCenters(c[..i], cv)
    {
      labCenters := labCenters + [(c[i].0, LabCenter(cv, c[i].1))];
    }
    assert c[..|c|] == c;
    var lab := cv.bgrToLab(bgr);
    m := Nearest(lab, labCenters);
    LabCentersKeys(c, cv);
    if |c| > 0 {
      ClassifyIsNearest(lab, labCenters);
      var j := NearestIndex(lab, labCenters);
      assert c[j].0 == m.key && m.dist == SqDist(lab, LabCenter(cv, c[j].1));
    }
  }

  /** `map_bgr_to_label`: the label half of the distance-aware
      classifier; None when no calibration is available. */
  function MapBgrToLabel<K>(bgr: Triple, centers: Option<Table<K, Triple>>,
                            stored: Option<Table<K, Triple>>, cv: Converters): (r: Option<K>)
    ensures r == LabelOf(BgrMatch(bgr, centers, stored, cv))
    ensures r.None? <==> Calibration(centers, stored).None? || |Calibration(centers, stored).value| == 0
    ensures r.Some? ==> r.value in Keys(Calibration(centers, stored).value)
  {
    if centers.None? then
      if stored.None? then None else LabelOf(BgrMatch(bgr, stored, stored, cv))
    else
      LabelOf(BgrMatch(bgr, centers, stored, cv))
  }

  // ---------------------------------------------------------------------
  // Calibration from raw faces
  // ---------------------------------------------------------------------

  /** The index the source reads as the centre sticker: 4, or `len // 2`
      when index 4 does not exist. */
  function CenterIndex(n: nat): (i: nat)
    requires n > 0
    ensures i < n
  {
    if n > 4 then 4 else n / 2
  }

  function Channel(s: seq<Triple>, k: nat): (r: seq<nat>)
    requires k < 3
    ensures |r| == |s|
    ensures forall i :: 0 <= i < |s| ==> r[i] == Chan(s[i], k)
  {
    seq(|s|, i requires 0 <= i < |s| => Chan(s[i], k))
  }

  predicate Ascending(s: seq<nat>)
  {
    forall i, j :: 0 <= i < j < |s| ==> s[i] <= s[j]
  }

  function Insert(x: nat, s: seq<nat>): (r: seq<nat>)
    ensures |r| == |s| + 1
  {
    if |s| == 0 || x <= s[0] then [x] + s else [s[0]] + Insert(x, s[1..])
  }

  /** An ascending permutation of `s` (the order statistic np.median uses). */
  function SortAsc(s: seq<nat>): (r: seq<nat>)
    ensures |r| == |s|
  {
    if |s| == 0 then [] else Insert(s[0], SortAsc(s[1..]))
  }

  lemma {:induction false} InsertPermutes(x: nat, s: seq<nat>)
    ensures multiset(Insert(x, s)) == multiset(s) + multiset{x}
  {
    if |s| > 0 && x > s[0] {
      InsertPermutes(x, s[1..]);
      assert s == [s[0]] + s[1..];
    }
  }

  lemma {:induction false} SortAscPermutes(s: seq<nat>)
    ensures multiset(SortAsc(s)) == multiset(s)
  {
    if |s| > 0 {
      SortAscPermutes(s[1..]);
      InsertPermutes(s[0], SortAsc(s[1..]));
      assert s == [s[0]] + s[1..];
    }
  }

  lemma {:induction false} InsertAscending(x: nat, s: seq<nat>)
    requires Ascending(s)
    ensures Ascending(Insert(x, s))
  {
    if |s| > 0 && x > s[0] {
      InsertAscending(x, s[1..]);
      var r := Insert(x, s[1..]);
      InsertPermutes(x, s[1..]);
      forall k | 0 <= k < |r| ensures s[0] <= r[k] {
        assert r[k] in multiset(r);
        assert r[k] in multiset(s[1..]) + multiset{x};
        if r[k] in multiset(s[1..]) {
          var m :| 0 <= m < |s[1..]| && s[1..][m] == r[k];
          assert s[m + 1] == r[k];
        }
      }
    }
  }

  lemma {:induction false} SortAscAscending(s: seq<nat>)
    ensures Ascending(SortAsc(s))
  {
    if |s| > 0 {
      SortAscAscending(s[1..]);
      InsertAscending(s[0], SortAsc(s[1..]));
    }
  }

  lemma SortedElementIsSample(s: seq<nat>, k: nat)
    requires k < |s|
    ensures exists i :: 0 <= i < |s| && s[i] == SortAsc(s)[k]
  {
    var t := SortAsc(s);
    SortAscPermutes(s);
    assert t[k] in multiset(t);
    assert t[k] in multiset(s);
  }

  /** `np.median(...).astype(int)` on one channel: the middle value, or
      the truncated mean of the two middle values for an even count; it
      lies between the lower and the upper middle of the sorted values. */
  function Median(s: seq<nat>): (m: nat)
    requires |s| > 0
    ensures SortAsc(s)[(|s| - 1) / 2] <= m <= SortAsc(s)[|s| / 2]
  {
    var t := SortAsc(s);
    var n := |s|;
    if n % 2 == 1 then t[n / 2]
    else
      SortAscAscending(s);
      (t[n / 2 - 1] + t[n / 2]) / 2
  }

  /** The median lies between two of the samples. */
  lemma MedianWithin(s: seq<nat>)
    requires |s| > 0
    ensures exists i :: 0 <= i < |s| && s[i] <= Median(s)
    ensures exists j :: 0 <= j < |s| && Median(s) <= s[j]
  {
    SortedElementIsSample(s, (|s| - 1) / 2);
    SortedElementIsSample(s, |s| / 2);
  }

  lemma MedianOfUniform(s: seq<nat>, c: nat)
    requires |s| > 0
    requires forall i :: 0 <= i < |s| ==> s[i] == c
    ensures Median(s) == c
  {
    MedianWithin(s);
  }

  function MedianTriple(s: seq<Triple>): Triple
    requires |s| > 0
  {
    Triple(Median(Channel(s, 0)), Median(Channel(s, 1)), Median(Channel(s, 2)))
  }

  function HsvAll(samples: seq<Triple>, cv: Converters): (r: seq<Triple>)
    ensures |r| == |samples|
    ensures forall i :: 0 <= i < |samples| ==> r[i] == cv.bgrToHsv(samples[i])
  {
    seq(|samples|, i requires 0 <= i < |samples| => cv.bgrToHsv(samples[i]))
  }

  /** Saturation plus value, the magnitude the heuristic compares. */
  function SatVal(hsv: Triple): nat
  {
    hsv.c1 + hsv.c2
  }

  /** The triple `compute_calibration_from_raw_faces` keeps for one label:
      the centre sample's HSV unless its S+V is below 60% of the
      per-channel median's S+V, in which case the median. */
  function ChooseCenter(samples: seq<Triple>, cv: Converters): (r: Triple)
    requires |samples| > 0
    ensures r == cv.bgrToHsv(samples[CenterIndex(|samples|)]) || r == MedianTriple(HsvAll(samples, cv))
    ensures 5 * SatVal(r) >= 3 * SatVal(MedianTriple(HsvAll(samples, cv)))
  {
    var hsv := cv.bgrToHsv(samples[CenterIndex(|samples|)]);
    var med := MedianTriple(HsvAll(samples, cv));
    if 5 * SatVal(hsv) >= 3 * SatVal(med) then hsv else med
  }

  /** The kept triple is the centre sample's HSV exactly when that one
      reaches 60% of the median's S+V, and the median otherwise. */
  lemma ChooseCenterRule(samples: seq<Triple>, cv: Converters)
    requires |samples| > 0
    ensures var hsv := cv.bgrToHsv(samples[CenterIndex(|samples|)]);
      var med := MedianTriple(HsvAll(samples, cv));
      5 * SatVal(hsv) >= 3 * SatVal(med) ==> ChooseCenter(samples, cv) == hsv
    ensures var hsv := cv.bgrToHsv(samples[CenterIndex(|samples|)]);
      var med := MedianTriple(HsvAll(samples, cv));
      5 * SatVal(hsv) < 3 * SatVal(med) ==> ChooseCenter(samples, cv) == med
  {
  }

  /** Each channel of the kept triple lies within the range of that
      channel over the samples' HSV values. */
  lemma ChooseCenterWithinSamples(samples: seq<Triple>, cv: Converters, k: nat)
    requires |samples| > 0 && k < 3
    ensures exists i :: 0 <= i < |samples| && Chan(cv.bgrToHsv(samples[i]), k) <= Chan(ChooseCenter(samples, cv), k)
    ensures exists j :: 0 <= j < |samples| && Chan(ChooseCenter(samples, cv), k) <= Chan(cv.bgrToHsv(samples[j]), k)
  {
    var hsvs := HsvAll(samples, cv);
    var ci := CenterIndex(|samples|);
    var chosen := ChooseCenter(samples, cv);
    if chosen == cv.bgrToHsv(samples[ci]) {
      assert Chan(cv.bgrToHsv(samples[ci]), k) <= Chan(chosen, k);
    } else {
      var ch := Channel(hsvs, k);
      MedianWithin(ch);
      assert Chan(chosen, k) == Median(ch);
      var i :| 0 <= i < |ch| && ch[i] <= Median(ch);
      var j :| 0 <= j < |ch| && Median(ch) <= ch[j];
      assert Chan(cv.bgrToHsv(samples[i]), k) <= Chan(chosen, k);
      assert Chan(chosen, k) <= Chan(cv.bgrToHsv(samples[j]), k);
    }
  }

  /** When every sample of a label is the same colour, median and centre
      coincide and the label's centre is that colour's HSV. */
  lemma UniformSamplesCalibrate(samples: seq<Triple>, cv: Converters)
    requires |samples| > 0
    requires forall i :: 0 <= i < |samples| ==> samples[i] == samples[0]
    ensures ChooseCenter(samples, cv) == cv.bgrToHsv(samples[0])
  {
    var hsv := cv.bgrToHsv(samples[0]);
    var hsvs := HsvAll(samples, cv);
    MedianOfUniform(Channel(hsvs, 0), hsv.c0);
    MedianOfUniform(Channel(hsvs, 1), hsv.c1);
    MedianOfUniform(Channel(hsvs, 2), hsv.c2);
    assert MedianTriple(hsvs) == hsv;
  }

  /** `samples[len(samples)//2]` raises IndexError on an empty list. */
  datatype CalibrationError = EmptySamples

  predicate AllSampled<K>(raw: Table<K, seq<Triple>>)
  {
    forall i :: 0 <= i < |raw| ==> |raw[i].1| > 0
  }

  /** The calibration built from sampled faces: the input's labels, in the
      input's order and still distinct, each mapped to the triple chosen
      from that label's own samples. */
  function ChosenCenters<K>(raw: Table<K, seq<Triple>>, cv: Converters): (r: Table<K, Triple>)
    requires AllSampled(raw)
    ensures |r| == |raw| && Keys(r) == Keys(raw)
    ensures forall i :: 0 <= i < |raw| ==> r[i] == (raw[i].0, ChooseCenter(raw[i].1, cv))
    ensures DistinctKeys(raw) ==> DistinctKeys(r)
  {
    var c := seq(|raw|, i requires 0 <= i < |raw| => (raw[i].0, ChooseCenter(raw[i].1, cv)));
    assert Keys(raw) <= Keys(c) by {
      forall k | k in Keys(raw) ensures k in Keys(c) {
        var i :| 0 <= i < |raw| && raw[i].0 == k;
        assert c[i].0 == k;
      }
    }
    c
  }

  /** Calibrating one more face appends that face's chosen triple. */
  lemma ChosenCentersAppend<K>(raw: Table<K, seq<Triple>>, cv: Converters, i: nat)
    requires i < |raw| && AllSampled(raw[..i]) && |raw[i].1| > 0
    ensures AllSampled(raw[..i + 1])
    ensures ChosenCenters(raw[..i + 1], cv) == ChosenCenters(raw[..i], cv) + [(raw[i].0, ChooseCenter(raw[i].1, cv))]
  {
    var a := ChosenCenters(raw[..i + 1], cv);
    var b := ChosenCenters(raw[..i], cv) + [(raw[i].0, ChooseCenter(raw[i].1, cv))];
    forall j | 0 <= j < i + 1 ensures a[j] == b[j] {
      assert |raw[j].1| > 0 by { assert raw[..i + 1][j] == raw[j]; }
      ChosenCentersPrefixEntry(raw, cv, i + 1, j);
      if j < i {
        ChosenCentersPrefixEntry(raw, cv, i, j);
      }
    }
  }

  lemma ChosenCentersPrefixEntry<K>(raw: Table<K, seq<Triple>>, cv: Converters, n: nat, j: nat)
    requires j < n <= |raw| && AllSampled(raw[..n]) && |raw[j].1| > 0
    ensures ChosenCenters(raw[..n], cv)[j] == (raw[j].0, ChooseCenter(raw[j].1, cv))
  {
    assert raw[..n][j] == raw[j];
  }

  function CalibrationOf<K>(raw: Table<K, seq<Triple>>, cv: Converters): Result<Table<K, Triple>, CalibrationError>
  {
    if AllSampled(raw) then Ok(ChosenCenters(raw, cv)) else Err(EmptySamples)
  }

  /** `compute_calibration_from_raw_faces`: one entry per input label, in
      the input's order, each the triple `ChooseCenter` keeps; an empty
      sample list makes the source raise. */
  method ComputeCalibrationFromRawFaces<K>(raw: Table<K, seq<Triple>>, cv: Converters)
    returns (r: Result<Table<K, Triple>, CalibrationError>)
    ensures r == CalibrationOf(raw, cv)
    ensures r.Ok? <==> AllSampled(raw)
  {
    var centers: Table<K, Triple> := [];
    for i := 0 to |raw|
      invariant AllSampled(raw[..i]) && centers == ChosenCenters(raw[..i], cv)
    {
      if |raw[i].1| == 0 {
        assert !AllSampled(raw) by { assert |raw[i].1| == 0; }
        return Err(EmptySamples);
      }
      ChosenCentersAppend(raw, cv, i);
      centers := centers + [(raw[i].0, ChooseCenter(raw[i].1, cv))];
    }
    assert raw[..|raw|] == raw;
    r := Ok(centers);
  }
}
