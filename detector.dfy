/** Cube-face detection and sticker-grid sampling
    (cubecoach/vision/detector.py). The OpenCV image processing (edge and
    contour extraction, polygon approximation, contour area, perspective
    warp) arrives as the functions of a `Vision` value. */
module Detector {
  import opened Basics
  import opened Select

  datatype Point = Point(x: int, y: int)

  /** A bounding rectangle `(x, y, w, h)`. */
  datatype Rect = Rect(x: int, y: int, w: int, h: int)

  /** An image as its rows of pixels (numpy's H x W x 3 array). */
  type Image = seq<seq<Triple>>

  datatype Vision<!F, !C> = Vision(
    contours: F -> seq<C>,              // grey, blur, Canny, external contours
    approx: C -> seq<Point>,            // approxPolyDP(c, 0.02 * arcLength(c))
    area: seq<Point> -> int,            // contourArea
    warp: (F, seq<Point>, nat) -> Image) // getPerspectiveTransform + warpPerspective

  // ---------------------------------------------------------------------
  // Largest quadrilateral
  // ---------------------------------------------------------------------

  function Approximations<C>(cs: seq<C>, approx: C -> seq<Point>): (p: seq<seq<Point>>)
    ensures |p| == |cs|
    ensures forall i :: 0 <= i < |cs| ==> p[i] == approx(cs[i])
  {
    seq(|cs|, i requires 0 <= i < |cs| => approx(cs[i]))
  }

  /** The candidate `find_largest_quad`'s loop holds after the first
      `|polys|` contours: replaced only by a 4-vertex polygon of strictly
      larger area, the area to beat starting at 0. */
  function LargestQuadIndex(polys: seq<seq<Point>>, area: seq<Point> -> int): (r: Option<nat>)
    ensures r.Some? ==> r.value < |polys| && |polys[r.value]| == 4 && area(polys[r.value]) > 0
    decreases |polys|
  {
    if |polys| == 0 then None
    else
      var prev := LargestQuadIndex(polys[..|polys| - 1], area);
      var bestArea := if prev.Some? then area(polys[prev.value]) else 0;
      var p := polys[|polys| - 1];
      if |p| == 4 && area(p) > bestArea then Some(|polys| - 1) else prev
  }

  function LargestQuad(polys: seq<seq<Point>>, area: seq<Point> -> int): (q: Option<seq<Point>>)
    ensures q.Some? ==> |q.value| == 4 && area(q.value) > 0
  {
    match LargestQuadIndex(polys, area)
    case None => None
    case Some(i) => Some(polys[i])
  }

  /** `find_largest_quad` returns nothing unless some candidate has four
      vertices and positive area; otherwise the first 4-vertex candidate of
      maximal area. */
  lemma {:induction false} LargestQuadIndexSpec(polys: seq<seq<Point>>, area: seq<Point> -> int)
    ensures LargestQuadIndex(polys, area).None? <==>
      forall j :: 0 <= j < |polys| ==> |polys[j]| != 4 || area(polys[j]) <= 0
    ensures LargestQuadIndex(polys, area).Some? ==>
      var i := LargestQuadIndex(polys, area).value;
      (forall j :: 0 <= j < |polys| && |polys[j]| == 4 ==> area(polys[j]) <= area(polys[i])) &&
      (forall j :: 0 <= j < i && |polys[j]| == 4 ==> area(polys[j]) < area(polys[i]))
    decreases |polys|
  {
    if |polys| > 0 {
      var n := |polys| - 1;
      var pre := polys[..n];
      LargestQuadIndexSpec(pre, area);
      assert forall j :: 0 <= j < n ==> pre[j] == polys[j];
    }
  }

  /** `find_largest_quad` over the approximations of the contours. */
  method FindLargestQuad<C>(contours: seq<C>, approx: C -> seq<Point>, area: seq<Point> -> int)
    returns (best: Option<seq<Point>>)
    ensures best == LargestQuad(Approximations(contours, approx), area)
    ensures best.Some? ==> |best.value| == 4 && area(best.value) > 0
  {
    ghost var polys := Approximations(contours, approx);
    best := None;
    var bestArea := 0;
    for i := 0 to |contours|
      invariant best == LargestQuad(polys[..i], area)
      invariant bestArea == if best.Some? then area(best.value) else 0
    {
      assert polys[..i + 1][..i] == polys[..i];
      var poly := approx(contours[i]);
      if |poly| == 4 {
        var a := area(poly);
        if a > bestArea {
          bestArea := a;
          best := Some(poly);
        }
      }
    }
    assert polys[..|contours|] == polys;
  }

  // ---------------------------------------------------------------------
  // Corner ordering
  // ---------------------------------------------------------------------

  function Sums(pts: seq<Point>): (s: seq<int>)
    ensures |s| == |pts| && forall i :: 0 <= i < |pts| ==> s[i] == pts[i].x + pts[i].y
  {
    seq(|pts|, i requires 0 <= i < |pts| => pts[i].x + pts[i].y)
  }

  function Diffs(pts: seq<Point>): (d: seq<int>)
    ensures |d| == |pts| && forall i :: 0 <= i < |pts| ==> d[i] == pts[i].y - pts[i].x
  {
    seq(|pts|, i requires 0 <= i < |pts| => pts[i].y - pts[i].x)
  }

  /** `order_quad`: top-left (least x+y), top-right (least y-x),
      bottom-right (greatest x+y), bottom-left (greatest y-x), each taken
      from the input points. */
  function OrderQuad(pts: seq<Point>): (r: seq<Point>)
    requires |pts| > 0
    ensures |r| == 4
    ensures forall k :: 0 <= k < 4 ==> r[k] in pts
    ensures forall j :: 0 <= j < |pts| ==>
      r[0].x + r[0].y <= pts[j].x + pts[j].y <= r[2].x + r[2].y
    ensures forall j :: 0 <= j < |pts| ==>
      r[1].y - r[1].x <= pts[j].y - pts[j].x <= r[3].y - r[3].x
  {
    var s, d := Sums(pts), Diffs(pts);
    FirstMinIsFirstMin(s);
    FirstMaxIsFirstMax(s);
    FirstMinIsFirstMin(d);
    FirstMaxIsFirstMax(d);
    [pts[FirstMin(s)], pts[FirstMin(d)], pts[FirstMax(s)], pts[FirstMax(d)]]
  }

  /** On ties each corner is the point at the first index attaining the
      extreme, as numpy's argmin/argmax choose. */
  lemma OrderQuadFirstOnTies(pts: seq<Point>, tl: nat, tr: nat, br: nat, bl: nat)
    requires |pts| > 0
    requires IsFirstMin(Sums(pts), tl) && IsFirstMin(Diffs(pts), tr)
    requires IsFirstMax(Sums(pts), br) && IsFirstMax(Diffs(pts), bl)
    ensures OrderQuad(pts) == [pts[tl], pts[tr], pts[br], pts[bl]]
  {
    FirstMinCharacterized(Sums(pts), tl);
    FirstMinCharacterized(Diffs(pts), tr);
    FirstMaxCharacterized(Sums(pts), br);
    FirstMaxCharacterized(Diffs(pts), bl);
  }

  /** `detect_face_contour` after the contours are found. */
  function DetectedQuad<F, C>(frame: F, v: Vision<F, C>): (q: Option<seq<Point>>)
    ensures q.Some? ==> |q.value| == 4
  {
    match LargestQuad(Approximations(v.contours(frame), v.approx), v.area)
    case None => None
    case Some(quad) => Some(OrderQuad(quad))
  }

  method DetectFaceContour<F, C>(frame: F, v: Vision<F, C>) returns (quad: Option<seq<Point>>)
    ensures quad == DetectedQuad(frame, v)
  {
    var found := FindLargestQuad(v.contours(frame), v.approx, v.area);
    if found.None? {
      return None;
    }
    quad := Some(OrderQuad(found.value));
  }

  // ---------------------------------------------------------------------
  // Sticker grid
  // ---------------------------------------------------------------------

  /** `int(cell * 0.15)`, as the exact ratio 15/100. */
  function Inset(cell: nat): nat
  {
    cell * 15 / 100
  }

  /** The rectangle for grid row `r`, column `c` of an h x w image. */
  function RegionAt(h: nat, w: nat, grid: nat, r: int, c: int): Rect
    requires grid > 0
  {
    var cellH, cellW := h / grid, w / grid;
    var padH, padW := Inset(cellH), Inset(cellW);
    Rect(c * cellW + padW, r * cellH + padH, cellW - 2 * padW, cellH - 2 * padH)
  }

  function StickerRegions(h: nat, w: nat, grid: nat): (rs: seq<Rect>)
    requires grid > 0
    ensures |rs| == grid * grid
  {
    seq(grid * grid, k requires 0 <= k < grid * grid => RegionAt(h, w, grid, k / grid, k % grid))
  }

  lemma RowMajorDivMod(r: nat, c: nat, g: nat)
    requires c < g
    ensures (r * g + c) / g == r && (r * g + c) % g == c
  {
    var k := r * g + c;
    var q, m := k / g, k % g;
    assert k == q * g + m && 0 <= m < g;
    if q < r {
      MulMono(q + 1, r, g);
    } else if q > r {
      MulMono(r + 1, q, g);
    }
  }

  lemma MulMono(a: nat, b: nat, g: nat)
    requires a <= b
    ensures a * g <= b * g
  {
  }

  lemma RowMajorIndexBound(r: nat, c: nat, g: nat)
    requires r < g && c < g
    ensures r * g + c < g * g
  {
    MulMono(r + 1, g, g);
  }

  /** Region `r * grid + c` is the cell at row r, column c. */
  lemma StickerRegionsRowMajor(h: nat, w: nat, grid: nat, r: nat, c: nat)
    requires grid > 0 && r < grid && c < grid
    ensures r * grid + c < grid * grid
    ensures StickerRegions(h, w, grid)[r * grid + c] ==
      Rect(c * (w / grid) + Inset(w / grid), r * (h / grid) + Inset(h / grid),
           w / grid - 2 * Inset(w / grid), h / grid - 2 * Inset(h / grid))
  {
    RowMajorIndexBound(r, c, grid);
    RowMajorDivMod(r, c, grid);
  }

  lemma InsetBound(cell: nat)
    ensures 2 * Inset(cell) <= cell
  {
  }

  predicate Within(a: Rect, x0: int, y0: int, x1: int, y1: int)
  {
    x0 <= a.x && a.x + a.w <= x1 && y0 <= a.y && a.y + a.h <= y1
  }

  lemma CellFits(n: nat, grid: nat, i: nat)
    requires grid > 0 && i < grid
    ensures (i + 1) * (n / grid) == i * (n / grid) + n / grid
    ensures (i + 1) * (n / grid) <= n
  {
    var cell := n / grid;
    assert n == grid * cell + n % grid;
    MulMono(i + 1, grid, cell);
  }

  /** The cell at row r, column c has non-negative size and lies inside its
      own grid cell, hence inside the w x h image. */
  lemma RegionAtInsideCell(h: nat, w: nat, grid: nat, r: nat, c: nat)
    requires grid > 0 && r < grid && c < grid
    ensures var a := RegionAt(h, w, grid, r, c);
      a.w >= 0 && a.h >= 0 &&
      Within(a, c * (w / grid), r * (h / grid), (c + 1) * (w / grid), (r + 1) * (h / grid)) &&
      Within(a, 0, 0, w, h)
  {
    InsetBound(h / grid);
    InsetBound(w / grid);
    CellFits(w, grid, c);
    CellFits(h, grid, r);
  }

  lemma IndexDivBound(k: nat, g: nat)
    requires g > 0 && k < g * g
    ensures k / g < g && k % g < g
  {
    assert k == g * (k / g) + k % g;
    MulCancel(g, k / g, g);
  }

  /** Every region has non-negative size, lies inside its own grid cell and
      therefore inside the w x h image. */
  lemma StickerRegionInsideCell(h: nat, w: nat, grid: nat, k: nat)
    requires grid > 0 && k < grid * grid
    ensures var a := StickerRegions(h, w, grid)[k];
      a.w >= 0 && a.h >= 0 &&
      Within(a, (k % grid) * (w / grid), (k / grid) * (h / grid),
                (k % grid + 1) * (w / grid), (k / grid + 1) * (h / grid)) &&
      Within(a, 0, 0, w, h)
  {
    IndexDivBound(k, grid);
    RegionAtInsideCell(h, w, grid, k / grid, k % grid);
  }

  /** Regions never overlap, taken as half-open pixel rectangles. */
  predicate Disjoint(a: Rect, b: Rect)
  {
    a.x + a.w <= b.x || b.x + b.w <= a.x || a.y + a.h <= b.y || b.y + b.h <= a.y
  }

  lemma RegionsAtDisjoint(h: nat, w: nat, grid: nat, ri: nat, ci: nat, rj: nat, cj: nat)
    requires grid > 0 && ri < grid && ci < grid && rj < grid && cj < grid
    requires ri != rj || ci != cj
    ensures Disjoint(RegionAt(h, w, grid, ri, ci), RegionAt(h, w, grid, rj, cj))
  {
    RegionAtInsideCell(h, w, grid, ri, ci);
    RegionAtInsideCell(h, w, grid, rj, cj);
    if ci < cj {
      MulMono(ci + 1, cj, w / grid);
    } else if cj < ci {
      MulMono(cj + 1, ci, w / grid);
    } else if ri < rj {
      MulMono(ri + 1, rj, h / grid);
    } else {
      MulMono(rj + 1, ri, h / grid);
    }
  }

  /** Region `k` is the cell at row `k / grid`, column `k % grid`. */
  lemma StickerCell(h: nat, w: nat, grid: nat, k: nat) returns (r: nat, c: nat)
    requires grid > 0 && k < grid * grid
    ensures r == k / grid && c == k % grid && r < grid && c < grid
    ensures StickerRegions(h, w, grid)[k] == RegionAt(h, w, grid, r, c)
  {
    IndexDivBound(k, grid);
    r, c := k / grid, k % grid;
  }

  /** Distinct indices lie in distinct cells. */
  lemma DivModInjective(i: nat, j: nat, g: nat)
    requires g > 0 && i != j
    ensures i / g != j / g || i % g != j % g
  {
    assert i == g * (i / g) + i % g;
    assert j == g * (j / g) + j % g;
  }

  lemma StickerRegionsDisjoint(h: nat, w: nat, grid: nat, i: nat, j: nat)
    requires grid > 0 && i < grid * grid && j < grid * grid && i != j
    ensures Disjoint(StickerRegions(h, w, grid)[i], StickerRegions(h, w, grid)[j])
  {
    var ri, ci := StickerCell(h, w, grid, i);
    var rj, cj := StickerCell(h, w, grid, j);
    DivModInjective(i, j, grid);
    RegionsAtDisjoint(h, w, grid, ri, ci, rj, cj);
  }

  /** `get_sticker_regions` for an h x w image: grid * grid rectangles in
      row-major order. */
  method GetStickerRegions(h: nat, w: nat, grid: nat) returns (regions: seq<Rect>)
    requires grid > 0
    ensures regions == StickerRegions(h, w, grid)
  {
    var cellH := h / grid;
    var cellW := w / grid;
    regions := [];
    var padH := Inset(cellH);
    var padW := Inset(cellW);
    for r := 0 to grid
      invariant |regions| == r * grid
      invariant forall k :: 0 <= k < |regions| ==> regions[k] == RegionAt(h, w, grid, k / grid, k % grid)
    {
      for c := 0 to grid
        invariant |regions| == r * grid + c
        invariant forall k :: 0 <= k < |regions| ==> regions[k] == RegionAt(h, w, grid, k / grid, k % grid)
      {
        var x := c * cellW + padW;
        var y := r * cellH + padH;
        var ww := cellW - 2 * padW;
        var hh := cellH - 2 * padH;
        RowMajorDivMod(r, c, grid);
        regions := regions + [Rect(x, y, ww, hh)];
      }
    }
  }

  // ---------------------------------------------------------------------
  // Sampling
  // ---------------------------------------------------------------------

  /** Python's normalisation of a slice bound `i` for a length-n sequence. */
  function Clamp(i: int, n: nat): (r: nat)
    ensures r <= n
  {
    if i < 0 then (if i + n < 0 then 0 else i + n) else if i > n then n else i
  }

  /** `s[a:b]`. */
  function Slice<T>(s: seq<T>, a: int, b: int): seq<T>
  {
    var lo, hi := Clamp(a, |s|), Clamp(b, |s|);
    if lo < hi then s[lo..hi] else []
  }

  /** `warp[y : y + h, x : x + w]`. */
  function Roi(img: Image, r: Rect): seq<seq<Triple>>
  {
    var rows := Slice(img, r.y, r.y + r.h);
    seq(|rows|, i requires 0 <= i < |rows| => Slice(rows[i], r.x, r.x + r.w))
  }

  function Flatten(rows: seq<seq<Triple>>): seq<Triple>
  {
    if |rows| == 0 then [] else rows[0] + Flatten(rows[1..])
  }

  /** One region's colour: the truncated per-channel mean of its pixels, or
      (0, 0, 0) when it has none. */
  function SampleRegion(img: Image, r: Rect): (c: Triple)
    ensures |Flatten(Roi(img, r))| > 0 ==> IsFloorMean(c, Flatten(Roi(img, r)))
    ensures |Flatten(Roi(img, r))| == 0 ==> c == Black
  {
    var px := Flatten(Roi(img, r));
    if |px| == 0 then Black else Mean(px)
  }

  lemma {:induction false} FlattenOfEmptyRows(rows: seq<seq<Triple>>)
    requires forall i :: 0 <= i < |rows| ==> rows[i] == []
    ensures Flatten(rows) == []
  {
    if |rows| > 0 {
      FlattenOfEmptyRows(rows[1..]);
    }
  }

  /** A region of zero width or height samples to (0, 0, 0). */
  lemma EmptyRegionIsBlack(img: Image, r: Rect)
    requires r.w == 0 || r.h == 0
    ensures SampleRegion(img, r) == Black
  {
    var rows := Slice(img, r.y, r.y + r.h);
    if r.h != 0 {
      forall i | 0 <= i < |rows| ensures Slice(rows[i], r.x, r.x + r.w) == [] {
      }
    }
    FlattenOfEmptyRows(Roi(img, r));
  }

  /** A negative width is not an empty region: Python reads a negative
      slice bound from the end, so `row[0:-1]` keeps all but the last pixel
      and a one-row, two-pixel image sampled at width -1 yields its first
      pixel. */
  lemma NegativeWidthSamplesFromEnd(c: Triple)
    ensures SampleRegion([[c, Black]], Rect(0, 0, -1, 1)) == c
  {
    var img: Image := [[c, Black]];
    var r := Rect(0, 0, -1, 1);
    assert Slice(img, 0, 1) == img;
    assert Slice(img[0], 0, -1) == [c];
    assert Roi(img, r) == [[c]];
    assert Flatten([[c]]) == [c];
    assert [c][1..] == [];
    forall k | 0 <= k < 3 ensures ChannelSum([c], k) == Chan(c, k) {
      assert ChannelSum([c], k) == Chan(c, k) + ChannelSum([], k);
    }
  }

  /** A region whose pixels all share one colour samples to that colour. */
  lemma UniformRegionSamples(img: Image, r: Rect, c: Triple)
    requires |Flatten(Roi(img, r))| > 0
    requires forall i :: 0 <= i < |Flatten(Roi(img, r))| ==> Flatten(Roi(img, r))[i] == c
    ensures SampleRegion(img, r) == c
  {
    MeanOfUniform(Flatten(Roi(img, r)), c);
  }

  predicate Rectangular(img: Image, h: nat, w: nat)
  {
    |img| == h && forall i :: 0 <= i < h ==> |img[i]| == w
  }

  predicate Uniform(img: Image, c: Triple)
  {
    forall i, j :: 0 <= i < |img| && 0 <= j < |img[i]| ==> img[i][j] == c
  }

  lemma {:induction false} FlattenUniform(rows: seq<seq<Triple>>, c: Triple)
    requires Uniform(rows, c)
    ensures forall k :: 0 <= k < |Flatten(rows)| ==> Flatten(rows)[k] == c
    ensures |rows| > 0 ==> |Flatten(rows)| >= |rows[0]|
  {
    if |rows| > 0 {
      FlattenUniform(rows[1..], c);
    }
  }

  /** A non-empty region inside a single-colour image samples to that
      colour. */
  lemma UniformImageRegion(img: Image, h: nat, w: nat, c: Triple, r: Rect)
    requires Rectangular(img, h, w) && Uniform(img, c)
    requires r.w > 0 && r.h > 0 && Within(r, 0, 0, w, h)
    ensures SampleRegion(img, r) == c
  {
    var roi := Roi(img, r);
    assert Slice(img, r.y, r.y + r.h) == img[r.y..r.y + r.h];
    assert |roi| == r.h;
    forall i | 0 <= i < |roi| ensures roi[i] == img[r.y + i][r.x..r.x + r.w] {
    }
    assert Uniform(roi, c);
    FlattenUniform(roi, c);
    UniformRegionSamples(img, r, c);
  }

  lemma InsetBelowCell(cell: nat)
    requires cell > 0
    ensures 2 * Inset(cell) < cell
  {
  }

  lemma CellPositive(n: nat, grid: nat)
    requires grid > 0 && n >= grid
    ensures n / grid >= 1
  {
    assert n == grid * (n / grid) + n % grid;
    MulCancel(grid, 0, n / grid);
  }

  /** Every sticker region of a single-colour image at least `grid` pixels
      in each direction samples to that colour. */
  lemma UniformFaceSamples(img: Image, h: nat, w: nat, c: Triple, grid: nat)
    requires grid > 0 && h >= grid && w >= grid
    requires Rectangular(img, h, w) && Uniform(img, c)
    ensures forall k :: 0 <= k < grid * grid ==> SampleRegion(img, StickerRegions(h, w, grid)[k]) == c
  {
    var cellH, cellW := h / grid, w / grid;
    CellPositive(h, grid);
    CellPositive(w, grid);
    InsetBelowCell(cellH);
    InsetBelowCell(cellW);
    forall k | 0 <= k < grid * grid ensures SampleRegion(img, StickerRegions(h, w, grid)[k]) == c {
      var a := StickerRegions(h, w, grid)[k];
      assert a == RegionAt(h, w, grid, k / grid, k % grid);
      assert a.w == cellW - 2 * Inset(cellW) && a.h == cellH - 2 * Inset(cellH);
      StickerRegionInsideCell(h, w, grid, k);
      UniformImageRegion(img, h, w, c, a);
    }
  }

  /** `sample_regions_colors`: one colour per region, in the regions' order. */
  method SampleRegionsColors(img: Image, regions: seq<Rect>) returns (colors: seq<Triple>)
    ensures |colors| == |regions|
    ensures forall i :: 0 <= i < |regions| ==> colors[i] == SampleRegion(img, regions[i])
  {
    colors := [];
    for i := 0 to |regions|
      invariant |colors| == i
      invariant forall j :: 0 <= j < i ==> colors[j] == SampleRegion(img, regions[j])
    {
      var px := Flatten(Roi(img, regions[i]));
      if |px| == 0 {
        colors := colors + [Black];
        continue;
      }
      colors := colors + [Mean(px)];
    }
  }

  // ---------------------------------------------------------------------
  // Whole pipeline
  // ---------------------------------------------------------------------

  function Height(img: Image): nat
  {
    |img|
  }

  function Width(img: Image): nat
  {
    if |img| == 0 then 0 else |img[0]|
  }

  function SampleAll(img: Image, rs: seq<Rect>): (cs: seq<Triple>)
    ensures |cs| == |rs|
  {
    seq(|rs|, i requires 0 <= i < |rs| => SampleRegion(img, rs[i]))
  }

  /** `face_from_frame`: nothing when no face is found, otherwise the
      warped face and its nine sticker colours in row-major order. */
  function FaceColors<F, C>(frame: F, size: nat, v: Vision<F, C>): (r: Option<(Image, seq<Triple>)>)
    ensures r.None? <==> DetectedQuad(frame, v).None?
    ensures r.Some? ==> |r.value.1| == 9
  {
    match DetectedQuad(frame, v)
    case None => None
    case Some(quad) =>
      var warp := v.warp(frame, quad, size);
      Some((warp, SampleAll(warp, StickerRegions(Height(warp), Width(warp), 3))))
  }

  /** No face is reported exactly when no contour approximates to a
      4-vertex polygon of positive area. */
  lemma FaceColorsNoneIffNoQuad<F, C>(frame: F, size: nat, v: Vision<F, C>)
    ensures FaceColors(frame, size, v).None? <==>
      var polys := Approximations(v.contours(frame), v.approx);
      forall j :: 0 <= j < |polys| ==> |polys[j]| != 4 || v.area(polys[j]) <= 0
  {
    LargestQuadIndexSpec(Approximations(v.contours(frame), v.approx), v.area);
  }

  method FaceFromFrame<F, C>(frame: F, size: nat, v: Vision<F, C>) returns (r: Option<(Image, seq<Triple>)>)
    ensures r == FaceColors(frame, size, v)
  {
    var quad := DetectFaceContour(frame, v);
    if quad.None? {
      return None;
    }
    var warp := v.warp(frame, quad.value, size);
    var regions := GetStickerRegions(Height(warp), Width(warp), 3);
    var colors := SampleRegionsColors(warp, regions);
    assert colors == SampleAll(warp, regions);
    r := Some((warp, colors));
  }
}
