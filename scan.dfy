/** The face-capture loop and facelet assembly (cubecoach/vision/scan.py).
    The camera becomes the list of ticks it delivers before a read fails;
    the key pressed on each tick is part of the tick. */
module Scan {
  import opened Basics
  import Colors
  import Detector

  /** `FACE_KEYS`. */
  const FaceKeys: map<char, string> :=
    map['u' := "U", 'r' := "R", 'f' := "F", 'd' := "D", 'l' := "L", 'b' := "B"]

  /** `FACE_ORDER`: the order of the faces in the facelet string. */
  const FaceOrder: seq<string> := ["U", "R", "F", "D", "L", "B"]

  const FaceLabels: set<string> := {"U", "R", "F", "D", "L", "B"}

  /** The default edge length `face_from_frame` warps to. */
  const WarpSize: nat := 300

  /** The collaborators the loop calls: the detector's OpenCV functions,
      the colour conversions, and the contents of the calibration file that
      `map_bgr_to_label` loads (None when there is no file). */
  datatype Pipeline<!F, !C> = Pipeline(
    vision: Detector.Vision<F, C>,
    cv: Colors.Converters,
    stored: Option<Table<string, Triple>>)

  /** One pass of the loop: the frame `cap.read()` delivered and the raw
      value `waitKey(1)` returned (-1 when no key was pressed). */
  datatype Tick<F> = Tick(frame: F, key: int)

  type Faces = map<string, seq<string>>

  function LowerAscii(ch: char): char
  {
    if 'A' <= ch <= 'Z' then (ch as int + 32) as char else ch
  }

  /** `FACE_KEYS[ch.lower()]` for `ch = chr(key)`, `ch = ''` when the key
      byte is 255. Among the characters 0..254 only ASCII letters lower-case
      to one of u, r, f, d, l, b. */
  function FaceLabelOf(key: nat): (r: Option<string>)
    requires key < 256
    ensures r.Some? ==> r.value in FaceLabels
  {
    if key == 255 then None
    else
      var ch := LowerAscii(key as char);
      if ch in FaceKeys then Some(FaceKeys[ch]) else None
  }

  /** Face keys are matched case-insensitively, and only those twelve keys
      select a face. */
  lemma FaceLabelOfKeys(key: nat)
    requires key < 256
    ensures FaceLabelOf(key).Some? <==> key as char in {'u', 'r', 'f', 'd', 'l', 'b', 'U', 'R', 'F', 'D', 'L', 'B'}
    ensures 'A' <= key as char <= 'Z' ==> FaceLabelOf(key) == FaceLabelOf(key + 32)
  {
  }

  /** Each sampled colour classified against the calibration file: every
      label given is a key of that file, and the stickers are all labelled
      exactly when a non-empty file exists. */
  function MapStickers<F, C>(colors: seq<Triple>, p: Pipeline<F, C>): (m: seq<Option<string>>)
    ensures |m| == |colors|
    ensures forall i :: 0 <= i < |colors| ==> m[i] == Colors.MapBgrToLabel(colors[i], None, p.stored, p.cv)
    ensures forall i :: 0 <= i < |colors| && m[i].Some? ==> p.stored.Some? && m[i].value in Keys(p.stored.value)
    ensures |colors| > 0 ==> (AllMapped(m) <==> p.stored.Some? && |p.stored.value| > 0)
  {
    var m := seq(|colors|, i requires 0 <= i < |colors| => Colors.MapBgrToLabel(colors[i], None, p.stored, p.cv));
    assert |colors| > 0 ==> (AllMapped(m) <==> p.stored.Some? && |p.stored.value| > 0) by {
      if |colors| > 0 {
        assert m[0] == Colors.MapBgrToLabel(colors[0], None, p.stored, p.cv);
      }
    }
    m
  }

  predicate AllMapped(m: seq<Option<string>>)
  {
    forall i :: 0 <= i < |m| ==> m[i].Some?
  }

  function Labels(m: seq<Option<string>>): (r: seq<string>)
    requires AllMapped(m)
    ensures |r| == |m| && forall i :: 0 <= i < |m| ==> r[i] == m[i].value
  {
    seq(|m|, i requires 0 <= i < |m| && AllMapped(m) => m[i].value)
  }

  datatype StepResult = Stop | Next(faces: Faces)

  /** One pass of the `while len(faces) < 6` body after a frame was read:
      it stops exactly on 'q', never drops a face, and changes no face but
      the one whose key was pressed. */
  function Step<F, C>(faces: Faces, t: Tick<F>, p: Pipeline<F, C>): (r: StepResult)
    ensures r.Stop? <==> KeyByte(t.key) == QuitKey
    ensures r.Next? ==> faces.Keys <= r.faces.Keys
    ensures r.Next? ==> forall l :: l in r.faces && (l !in faces || r.faces[l] != faces[l]) ==>
      FaceLabelOf(KeyByte(t.key)) == Some(l)
  {
    var key := KeyByte(t.key);
    var face := FaceLabelOf(key);
    var found := Detector.FaceColors(t.frame, WarpSize, p.vision);
    if key == QuitKey then Stop
    else if face.None? || found.None? then Next(faces)
    else
      var mapped := MapStickers(found.value.1, p);
      if AllMapped(mapped) then Next(faces[face.value := Labels(mapped)]) else Next(faces)
  }

  /** The loop: it ends once six faces are held, when the stream ends, or
      on 'q'. Faces are only ever added or replaced, and every face added
      is one of the six. */
  function Run<F, C>(faces: Faces, ticks: seq<Tick<F>>, p: Pipeline<F, C>): (r: Faces)
    ensures faces.Keys <= r.Keys <= faces.Keys + FaceLabels
    ensures |faces| >= 6 ==> r == faces
    decreases |ticks|
  {
    if |faces| >= 6 || |ticks| == 0 then faces
    else
      match Step(faces, ticks[0], p)
      case Stop => faces
      case Next(f) => Run(f, ticks[1..], p)
  }

  lemma SubsetCard<T>(a: set<T>, b: set<T>)
    requires a <= b
    ensures |a| <= |b|
    ensures |a| == |b| ==> a == b
  {
    assert b == a + (b - a);
    assert |b| == |a| + |b - a|;
  }

  lemma FaceLabelsCount()
    ensures |FaceLabels| == 6
  {
  }

  /** Keys of `faces` are always among the six labels, so at most six faces
      are ever held. */
  lemma RunKeysWithin<F, C>(faces: Faces, ticks: seq<Tick<F>>, p: Pipeline<F, C>)
    requires faces.Keys <= FaceLabels
    ensures Run(faces, ticks, p).Keys <= FaceLabels
    ensures |Run(faces, ticks, p)| <= 6
  {
    FaceLabelsCount();
    SubsetCard(Run(faces, ticks, p).Keys, FaceLabels);
  }

  /** A face record as the loop stores it: nine stickers, each labelled
      with a key of the calibration file. */
  predicate WellFormedFace(m: seq<string>, stored: Option<Table<string, Triple>>)
  {
    |m| == 9 && stored.Some? && forall i :: 0 <= i < 9 ==> m[i] in Keys(stored.value)
  }

  /** One pass keeps every stored face well formed: a capture stores the
      nine labels the calibration file gave the nine sampled stickers. */
  lemma StepKeepsFacesWellFormed<F, C>(faces: Faces, t: Tick<F>, p: Pipeline<F, C>)
    requires forall l :: l in faces ==> WellFormedFace(faces[l], p.stored)
    requires Step(faces, t, p).Next?
    ensures forall l :: l in Step(faces, t, p).faces ==> WellFormedFace(Step(faces, t, p).faces[l], p.stored)
  {
    var face := FaceLabelOf(KeyByte(t.key));
    var found := Detector.FaceColors(t.frame, WarpSize, p.vision);
    if face.Some? && found.Some? && AllMapped(MapStickers(found.value.1, p)) {
      var mapped := MapStickers(found.value.1, p);
      var m := Labels(mapped);
      assert mapped[0].Some?;
      forall i | 0 <= i < 9
        ensures m[i] in Keys(p.stored.value)
      {
        assert mapped[i].Some?;
      }
      assert WellFormedFace(m, p.stored);
      assert Step(faces, t, p).faces == faces[face.value := m];
    } else {
      assert Step(faces, t, p).faces == faces;
    }
  }

  lemma {:induction false} RunFacesWellFormed<F, C>(faces: Faces, ticks: seq<Tick<F>>, p: Pipeline<F, C>)
    requires forall l :: l in faces ==> WellFormedFace(faces[l], p.stored)
    ensures forall l :: l in Run(faces, ticks, p) ==> WellFormedFace(Run(faces, ticks, p)[l], p.stored)
    decreases |ticks|
  {
    if |faces| < 6 && |ticks| > 0 && Step(faces, ticks[0], p).Next? {
      StepKeepsFacesWellFormed(faces, ticks[0], p);
      RunFacesWellFormed(Step(faces, ticks[0], p).faces, ticks[1..], p);
    }
  }

  /** 'q' ends the scan with the faces held so far, whatever follows. */
  lemma QuitEndsRun<F, C>(faces: Faces, t: Tick<F>, rest: seq<Tick<F>>, p: Pipeline<F, C>)
    requires KeyByte(t.key) == QuitKey
    ensures Run(faces, [t] + rest, p) == faces
  {
  }

  /** A tick that captures nothing is as if it had not happened: any key
      other than 'q' and the face keys, a face key with no face detected,
      or a face key with a sticker the calibration cannot label. */
  lemma IgnoredTickLeavesFaces<F, C>(faces: Faces, t: Tick<F>, rest: seq<Tick<F>>, p: Pipeline<F, C>)
    requires |faces| < 6 && KeyByte(t.key) != QuitKey
    requires FaceLabelOf(KeyByte(t.key)).None?
          || Detector.FaceColors(t.frame, WarpSize, p.vision).None?
          || !AllMapped(MapStickers(Detector.FaceColors(t.frame, WarpSize, p.vision).value.1, p))
    ensures Run(faces, [t] + rest, p) == Run(faces, rest, p)
  {
    assert ([t] + rest)[1..] == rest;
  }

  /** A successful capture stores the mapped labels under the selected face,
      replacing an earlier capture of it, and leaves the other faces
      untouched. */
  lemma CaptureStoresFace<F, C>(faces: Faces, t: Tick<F>, rest: seq<Tick<F>>, p: Pipeline<F, C>)
    requires |faces| < 6 && KeyByte(t.key) != QuitKey
    requires FaceLabelOf(KeyByte(t.key)).Some?
    requires Detector.FaceColors(t.frame, WarpSize, p.vision).Some?
    requires AllMapped(MapStickers(Detector.FaceColors(t.frame, WarpSize, p.vision).value.1, p))
    ensures var face := FaceLabelOf(KeyByte(t.key)).value;
      var mapped := Labels(MapStickers(Detector.FaceColors(t.frame, WarpSize, p.vision).value.1, p));
      Run(faces, [t] + rest, p) == Run(faces[face := mapped], rest, p) &&
      |mapped| == 9 &&
      forall l :: l != face ==> (l in faces <==> l in faces[face := mapped]) &&
                                (l in faces ==> faces[face := mapped][l] == faces[l])
  {
    var face := FaceLabelOf(KeyByte(t.key)).value;
    var mapped := Labels(MapStickers(Detector.FaceColors(t.frame, WarpSize, p.vision).value.1, p));
    assert Step(faces, t, p) == Next(faces[face := mapped]);
    assert ([t] + rest)[0] == t && ([t] + rest)[1..] == rest;
  }

  // ---------------------------------------------------------------------
  // Facelet string
  // ---------------------------------------------------------------------

  /** `"".join(parts)`. */
  function Concat(parts: seq<string>): string
  {
    if |parts| == 0 then "" else parts[0] + Concat(parts[1..])
  }

  function ConcatFaces(faces: Faces, order: seq<string>): string
    requires forall i :: 0 <= i < |order| ==> order[i] in faces
  {
    if |order| == 0 then "" else Concat(faces[order[0]]) + ConcatFaces(faces, order[1..])
  }

  /** `"".join("".join(faces[f]) for f in FACE_ORDER)`. With nine
      one-character labels per face, the facelet string has 54 symbols and
      position 9*i + k holds sticker k of face FACE_ORDER[i]. */
  function Facelets(faces: Faces): (s: string)
    requires FaceLabels <= faces.Keys
    ensures (forall l :: l in FaceLabels ==> |faces[l]| == 9 && Singles(faces[l])) ==>
      |s| == 54 &&
      forall i, k :: 0 <= i < 6 && 0 <= k < 9 ==> s[9 * i + k] == faces[FaceOrder[i]][k][0]
  {
    // Both branches join the same string; the first only adds the layout proof.
    if forall l :: l in FaceLabels ==> |faces[l]| == 9 && Singles(faces[l]) then
      ConcatFacesLayout(faces, FaceOrder);
      ConcatFaces(faces, FaceOrder)
    else
      ConcatFaces(faces, FaceOrder)
  }

  predicate Singles(parts: seq<string>)
  {
    forall i :: 0 <= i < |parts| ==> |parts[i]| == 1
  }

  lemma {:induction false} ConcatSingles(parts: seq<string>)
    requires Singles(parts)
    ensures |Concat(parts)| == |parts|
    ensures forall k :: 0 <= k < |parts| ==> Concat(parts)[k] == parts[k][0]
  {
    if |parts| > 0 {
      ConcatSingles(parts[1..]);
    }
  }

  lemma {:induction false} ConcatFacesLayout(faces: Faces, order: seq<string>)
    requires forall i :: 0 <= i < |order| ==> order[i] in faces
    requires forall i :: 0 <= i < |order| ==> |faces[order[i]]| == 9
    requires forall i, k :: 0 <= i < |order| && 0 <= k < 9 ==> |faces[order[i]][k]| == 1
    ensures |ConcatFaces(faces, order)| == 9 * |order|
    ensures forall i, k :: 0 <= i < |order| && 0 <= k < 9 ==> ConcatFaces(faces, order)[9 * i + k] == faces[order[i]][k][0]
  {
    if |order| > 0 {
      ConcatFacesLayout(faces, order[1..]);
      ConcatSingles(faces[order[0]]);
      var head, tail := Concat(faces[order[0]]), ConcatFaces(faces, order[1..]);
      forall i, k | 0 <= i < |order| && 0 <= k < 9
        ensures ConcatFaces(faces, order)[9 * i + k] == faces[order[i]][k][0]
      {
        if i > 0 {
          assert (head + tail)[9 * i + k] == tail[9 * (i - 1) + k];
        }
      }
    }
  }

  // ---------------------------------------------------------------------
  // The whole scan
  // ---------------------------------------------------------------------

  datatype ScanError = CameraUnavailable | IncompleteScan

  /** A scan from nothing holds at most six faces, and all six labels once
      it holds six. */
  lemma RunComplete<F, C>(ticks: seq<Tick<F>>, p: Pipeline<F, C>)
    ensures |Run(map[], ticks, p)| <= 6
    ensures |Run(map[], ticks, p)| == 6 ==> FaceLabels == Run(map[], ticks, p).Keys
  {
    RunKeysWithin(map[], ticks, p);
    FaceLabelsCount();
    SubsetCard(Run(map[], ticks, p).Keys, FaceLabels);
  }

  /** What `prompt_and_capture` returns or raises. */
  function ScanOutcome<F, C>(cameraOpened: bool, ticks: seq<Tick<F>>, p: Pipeline<F, C>): (r: Result<string, ScanError>)
    ensures r == Err(CameraUnavailable) <==> !cameraOpened
    ensures r == Err(IncompleteScan) <==> cameraOpened && |Run(map[], ticks, p)| < 6
    ensures r.Ok? ==> |Run(map[], ticks, p)| == 6 && FaceLabels == Run(map[], ticks, p).Keys
  {
    if !cameraOpened then Err(CameraUnavailable)
    else
      var faces := Run(map[], ticks, p);
      RunComplete(ticks, p);
      if |faces| != 6 then Err(IncompleteScan) else Ok(Facelets(faces))
  }

  /** A completed scan: 54 symbols, sticker k of face FACE_ORDER[i] at
      position 9*i + k, each a label of the calibration, whenever the
      calibration's labels are single characters. */
  lemma ScanResultLayout<F, C>(cameraOpened: bool, ticks: seq<Tick<F>>, p: Pipeline<F, C>)
    requires ScanOutcome(cameraOpened, ticks, p).Ok?
    requires p.stored.Some? ==> forall l :: l in Keys(p.stored.value) ==> |l| == 1
    ensures var faces := Run(map[], ticks, p);
      var s := ScanOutcome(cameraOpened, ticks, p).value;
      |s| == 54 && p.stored.Some? &&
      forall i, k :: 0 <= i < 6 && 0 <= k < 9 ==>
        FaceOrder[i] in faces && |faces[FaceOrder[i]]| == 9 &&
        faces[FaceOrder[i]][k] in Keys(p.stored.value) && |faces[FaceOrder[i]][k]| == 1 &&
        s[9 * i + k] == faces[FaceOrder[i]][k][0]
  {
    var faces := Run(map[], ticks, p);
    RunFacesWellFormed(map[], ticks, p);
    assert FaceLabels == faces.Keys;
    assert "U" in faces;
    assert WellFormedFace(faces["U"], p.stored);
    var stored := p.stored.value;
    forall l | l in FaceLabels ensures |faces[l]| == 9 && Singles(faces[l]) {
      assert WellFormedFace(faces[l], p.stored);
    }
    var s := Facelets(faces);
    assert ScanOutcome(cameraOpened, ticks, p).value == s;
    forall i, k | 0 <= i < 6 && 0 <= k < 9
      ensures FaceOrder[i] in faces && |faces[FaceOrder[i]]| == 9 &&
        faces[FaceOrder[i]][k] in Keys(stored) && |faces[FaceOrder[i]][k]| == 1 &&
        s[9 * i + k] == faces[FaceOrder[i]][k][0]
    {
      assert FaceOrder[i] in FaceLabels;
      assert WellFormedFace(faces[FaceOrder[i]], p.stored);
    }
  }

  /** One pass of the loop, seen from the remaining ticks. */
  lemma RunTick<F, C>(faces: Faces, ticks: seq<Tick<F>>, i: nat, p: Pipeline<F, C>)
    requires |faces| < 6 && i < |ticks|
    ensures Run(faces, ticks[i..], p) ==
      match Step(faces, ticks[i], p)
      case Stop => faces
      case Next(f) => Run(f, ticks[i + 1..], p)
  {
    assert ticks[i..][0] == ticks[i] && ticks[i..][1..] == ticks[i + 1..];
  }

  /** `prompt_and_capture`. The solver's answer is only printed and its
      failures are caught, so the facelet string is returned either way. */
  method PromptAndCapture<F, C>(cameraOpened: bool, ticks: seq<Tick<F>>, p: Pipeline<F, C>,
                                solve: string -> Option<string>)
    returns (r: Result<string, ScanError>)
    ensures r == ScanOutcome(cameraOpened, ticks, p)
  {
    if !cameraOpened {
      return Err(CameraUnavailable);
    }
    ghost var final := Run(map[], ticks, p);
    var faces: Faces := map[];
    var i := 0;
    while |faces| < 6
      invariant 0 <= i <= |ticks|
      invariant Run(faces, ticks[i..], p) == final
      decreases |ticks| - i
    {
      if i == |ticks| {
        assert faces == final;
        break;
      }
      var t := ticks[i];
      RunTick(faces, ticks, i, p);
      ghost var step := Step(faces, t, p);
      var key := KeyByte(t.key);
      if key == QuitKey {
        assert faces == final;
        break;
      }
      i := i + 1;
      var face := FaceLabelOf(key);
      if face.Some? {
        var found := Detector.FaceFromFrame(t.frame, WarpSize, p.vision);
        if found.None? {
          assert step == Next(faces);
          continue;
        }
        var mapped := MapStickers(found.value.1, p);
        if !AllMapped(mapped) {
          assert step == Next(faces);
          continue;
        }
        faces := faces[face.value := Labels(mapped)];
      }
      assert step == Next(faces);
    }
    assert faces == final;
    RunComplete(ticks, p);
    if |faces| != 6 {
      return Err(IncompleteScan);
    }
    var facelets := Facelets(faces);
    var solution := solve(facelets);
    r := Ok(facelets);
  }
}
