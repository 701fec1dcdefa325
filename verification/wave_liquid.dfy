/** The wave-topped liquid fill: a filled rectangle whose top edge is a row of
    vertices displaced by a travelling wave, drawn as a fan of triangles from
    the bottom-left corner. The sine itself is the `shape` parameter (the
    value of sin(2πp) at phase `p`); everything around it is modelled. */
module WaveLiquid {

  datatype Rect = Rect(xMin: real, yMin: real, width: real, height: real) {
    function xMax(): real { xMin + width }
    function yMax(): real { yMin + height }
  }

  datatype Wave = Wave(
    fillAmount: real,
    waveHeight: real,
    waveSpeed: real,
    waveSegments: int,
    waveOffset: real,
    waveTime: real)

  /** The fewest segments the setter and the editor validation allow. */
  const MinSegments: int := 10

  /** The serialized defaults. */
  const Default: Wave := Wave(0.0, 20.0, 3.0, 50, 0.0, 0.0)

  function Clamp01(v: real): (r: real)
    ensures 0.0 <= r <= 1.0
    ensures 0.0 <= v <= 1.0 ==> r == v
    ensures v < 0.0 ==> r == 0.0
    ensures v > 1.0 ==> r == 1.0
  {
    if v < 0.0 then 0.0 else if v > 1.0 then 1.0 else v
  }

  function Max(a: int, b: int): (r: int)
    ensures r >= a && r >= b && (r == a || r == b)
  {
    if a >= b then a else b
  }

  /** A state the setters and the editor validation can produce. */
  predicate Valid(w: Wave) {
    0.0 <= w.fillAmount <= 1.0 && w.waveSegments >= MinSegments
  }

  /** The `fillAmount` setter clamps into [0, 1]. */
  function SetFillAmount(w: Wave, v: real): (r: Wave)
    ensures r == w.(fillAmount := r.fillAmount)
    ensures 0.0 <= r.fillAmount <= 1.0
    ensures 0.0 <= v <= 1.0 ==> r.fillAmount == v
  {
    w.(fillAmount := Clamp01(v))
  }

  /** The `waveSegments` setter refuses fewer than ten segments. */
  function SetWaveSegments(w: Wave, v: int): (r: Wave)
    ensures r == w.(waveSegments := r.waveSegments)
    ensures r.waveSegments >= MinSegments
    ensures v >= MinSegments ==> r.waveSegments == v
    ensures v < MinSegments ==> r.waveSegments == MinSegments
  {
    w.(waveSegments := Max(MinSegments, v))
  }

  /** `OnValidate`: clamp the fill and the segment count. */
  function OnValidate(w: Wave): (r: Wave)
    ensures Valid(r)
    ensures Valid(w) ==> r == w
    ensures r.waveHeight == w.waveHeight && r.waveSpeed == w.waveSpeed
    ensures r.waveOffset == w.waveOffset && r.waveTime == w.waveTime
  {
    w.(fillAmount := Clamp01(w.fillAmount), waveSegments := Max(MinSegments, w.waveSegments))
  }

  /** The setters keep a valid state valid. */
  lemma SettersKeepValid(w: Wave, f: real, n: int)
    requires Valid(w)
    ensures Valid(SetFillAmount(w, f)) && Valid(SetWaveSegments(w, n))
  {
  }

  /** `Update`: the wave moves only while the container is partly filled. */
  function Update(w: Wave, dt: real): (r: Wave)
    ensures r == w.(waveTime := r.waveTime)
    ensures 0.0 < w.fillAmount < 1.0 ==> r.waveTime == w.waveTime + dt * w.waveSpeed
    ensures (w.fillAmount <= 0.0 || w.fillAmount >= 1.0) ==> r == w
  {
    if 0.0 < w.fillAmount < 1.0 then w.(waveTime := w.waveTime + dt * w.waveSpeed) else w
  }

  function UpdateN(w: Wave, dts: seq<real>): Wave
    decreases |dts|
  {
    if |dts| == 0 then w else UpdateN(Update(w, dts[0]), dts[1..])
  }

  function Total(dts: seq<real>): real
    decreases |dts|
  {
    if |dts| == 0 then 0.0 else dts[0] + Total(dts[1..])
  }

  /** Over frames of a partly filled container the phase advances by the
      elapsed time times the speed; nothing else changes. */
  lemma {:induction false} WaveTimeAccumulates(w: Wave, dts: seq<real>)
    requires 0.0 < w.fillAmount < 1.0
    ensures UpdateN(w, dts) == w.(waveTime := w.waveTime + Total(dts) * w.waveSpeed)
    decreases |dts|
  {
    if |dts| > 0 {
      WaveTimeAccumulates(Update(w, dts[0]), dts[1..]);
    }
  }

  datatype Vertex = Vertex(x: real, y: real)
  datatype Triangle = Triangle(a: int, b: int, c: int)

  /** The height of the liquid's flat surface. */
  function BaseY(w: Wave, rect: Rect): real {
    rect.yMin + rect.height * w.fillAmount
  }

  /** `i / segments` as the source's float division; zero segments (a
      division by zero there) is read as 0. */
  function Ratio(i: int, segments: int): real {
    if segments == 0 then 0.0 else (i as real) / (segments as real)
  }

  function Abs(x: real): real {
    if x < 0.0 then -x else x
  }

  lemma ProductNonnegative(a: real, b: real)
    requires a >= 0.0 && b >= 0.0
    ensures a * b >= 0.0
  {
  }

  /** A factor in [-1, 1] scales `h` into [-|h|, |h|]. */
  lemma ScaledWithin(f: real, h: real)
    ensures -1.0 <= f <= 1.0 ==> -Abs(h) <= f * h <= Abs(h)
  {
    if -1.0 <= f <= 1.0 {
      var m := Abs(h);
      ProductNonnegative(1.0 - f, m);
      ProductNonnegative(1.0 + f, m);
      assert f * h == f * m || f * h == -(f * m);
    }
  }

  /** The wave displacement of top vertex `i`: none once the container is full. */
  function WaveAt(w: Wave, i: int, shape: real -> real): (dy: real)
    ensures w.fillAmount >= 1.0 ==> dy == 0.0
    ensures w.fillAmount < 1.0 ==> dy == shape(Ratio(i, w.waveSegments) + w.waveTime + w.waveOffset) * w.waveHeight
    ensures (forall x :: -1.0 <= shape(x) <= 1.0) ==> -Abs(w.waveHeight) <= dy <= Abs(w.waveHeight)
  {
    if w.fillAmount < 1.0 then
      ScaledWithin(shape(Ratio(i, w.waveSegments) + w.waveTime + w.waveOffset), w.waveHeight);
      shape(Ratio(i, w.waveSegments) + w.waveTime + w.waveOffset) * w.waveHeight
    else 0.0
  }

  /** The `i`-th top vertex, clipped to the top of the container. */
  function TopVertex(w: Wave, rect: Rect, i: int, shape: real -> real): (v: Vertex)
    ensures v.y <= rect.yMax()
    ensures v.y == rect.yMax() || v.y == BaseY(w, rect) + WaveAt(w, i, shape)
    ensures BaseY(w, rect) + WaveAt(w, i, shape) <= rect.yMax() ==> v.y == BaseY(w, rect) + WaveAt(w, i, shape)
    ensures w.waveSegments != 0 ==> v.x == rect.xMin + rect.width * (i as real) / (w.waveSegments as real)
  {
    var y := BaseY(w, rect) + WaveAt(w, i, shape);
    Vertex(rect.xMin + (i as real) * Ratio(1, w.waveSegments) * rect.width,
           if y <= rect.yMax() then y else rect.yMax())
  }

  /** `OnPopulateMesh`. Vertices 0 and 1 are the bottom corners, vertices
      2 .. segments+2 the top edge from left to right; segment `i` is the two
      triangles (0, 2+i, 3+i) and (0, 3+i, 1). */
  method PopulateMesh(w: Wave, rect: Rect, shape: real -> real)
    returns (verts: seq<Vertex>, tris: seq<Triangle>)
    ensures w.fillAmount <= 0.0 ==> verts == [] && tris == []
    ensures w.fillAmount > 0.0 ==>
              && |verts| == 2 + (if w.waveSegments >= 0 then w.waveSegments + 1 else 0)
              && |tris| == 2 * (if w.waveSegments >= 0 then w.waveSegments else 0)
              && verts[0] == Vertex(rect.xMin, rect.yMin)
              && verts[1] == Vertex(rect.xMax(), rect.yMin)
    ensures forall k :: 2 <= k < |verts| ==> verts[k] == TopVertex(w, rect, k - 2, shape)
    ensures forall k :: 2 <= k < |verts| ==> verts[k].y <= rect.yMax()
    ensures forall t :: 0 <= t < |tris| ==>
              0 <= tris[t].a < |verts| && 0 <= tris[t].b < |verts| && 0 <= tris[t].c < |verts|
    ensures forall i :: 0 <= i && 2 * i + 1 < |tris| ==>
              tris[2 * i] == Triangle(0, 2 + i, 3 + i) && tris[2 * i + 1] == Triangle(0, 3 + i, 1)
  {
    verts := [];
    tris := [];
    if w.fillAmount <= 0.0 {
      return;
    }
    var segments := w.waveSegments;
    verts := [Vertex(rect.xMin, rect.yMin), Vertex(rect.xMax(), rect.yMin)];
    var i := 0;
    while i <= segments
      invariant 0 <= i <= (if segments >= 0 then segments + 1 else 0)
      invariant |verts| == 2 + i
      invariant verts[0] == Vertex(rect.xMin, rect.yMin) && verts[1] == Vertex(rect.xMax(), rect.yMin)
      invariant forall k :: 2 <= k < |verts| ==> verts[k] == TopVertex(w, rect, k - 2, shape)
    {
      verts := verts + [TopVertex(w, rect, i, shape)];
      i := i + 1;
    }
    i := 0;
    while i < segments
      invariant 0 <= i <= (if segments >= 0 then segments else 0)
      invariant |tris| == 2 * i
      invariant forall j :: 0 <= j < i ==>
                  tris[2 * j] == Triangle(0, 2 + j, 3 + j) && tris[2 * j + 1] == Triangle(0, 3 + j, 1)
      invariant forall t :: 0 <= t < |tris| ==>
                  0 <= tris[t].a <= 2 + i && 0 <= tris[t].b <= 2 + i && 0 <= tris[t].c <= 2 + i
    {
      tris := tris + [Triangle(0, 2 + i, 3 + i), Triangle(0, 3 + i, 1)];
      i := i + 1;
    }
  }

  /** Filled to the brim, the top edge is flat at the fill line (or at the
      top of the container, if that is lower). */
  lemma FullContainerIsFlat(w: Wave, rect: Rect, shape: real -> real, i: int)
    requires w.fillAmount >= 1.0
    ensures TopVertex(w, rect, i, shape).y == (if BaseY(w, rect) <= rect.yMax() then BaseY(w, rect) else rect.yMax())
  {
  }

  /** With positive segments and width, the top edge runs strictly left to
      right, from the left edge to the right edge of the container. */
  lemma TopEdgeSpansWidth(w: Wave, rect: Rect, shape: real -> real, i: int, j: int)
    requires w.waveSegments > 0 && rect.width > 0.0
    requires 0 <= i < j <= w.waveSegments
    ensures TopVertex(w, rect, i, shape).x < TopVertex(w, rect, j, shape).x
    ensures TopVertex(w, rect, 0, shape).x == rect.xMin
    ensures TopVertex(w, rect, w.waveSegments, shape).x == rect.xMax()
  {
    var s := Ratio(1, w.waveSegments);
    assert s > 0.0;
    assert (i as real) * s < (j as real) * s;
    assert (i as real) * s * rect.width < (j as real) * s * rect.width;
    assert (w.waveSegments as real) * s == 1.0;
  }
}
