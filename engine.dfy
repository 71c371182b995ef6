/** The wing mesh engine of src/engine.c: the NACA four-digit section
    equations, the vertex grid that `make_pts` fills, the two index maps, the
    three phases that stitch triangles into the index buffer, and the
    planform diagnostics.

    Grid conventions (R = chordwise points, S = spanwise points, c = 1 for a
    closed trailing edge):
      - the upper block holds R rows of S vertices at slots i*S + j;
      - the lower block starts at slot R*S and holds the rows 1 .. R-1-c at
        slots R*S + (i-1)*S + j; the leading-edge row, and the trailing-edge
        row when closed, are shared with the upper block. */
module Engine {
  import opened Types
  import opened Utils

  // =====================================================================
  // NACA four-digit section

  /** The camber line is evaluated ahead of the position of maximum camber;
      a camber position at or below FLT_EPSILON always takes the aft branch,
      so nothing is divided by p*p. */
  predicate AheadOfPeak(x: real, p: real)
  {
    x < p && p > FLT_EPSILON
  }

  /** The aft branch of the camber line (and the branch taken when p is
      negligible). */
  function AftCamber(x: real, m: real, p: real): real
    requires p != 1.0
  {
    var a := 2.0 * p * x - x * x;
    var b := 1.0 - p;
    m * (1.0 - 2.0 * p + a) / (b * b)
  }

  /** The forward branch of the camber line. */
  function ForwardCamber(x: real, m: real, p: real): real
    requires p != 0.0
  {
    var a := 2.0 * p * x - x * x;
    m * a / (p * p)
  }

  /** `get_camber`. A camber position of exactly 1 (a second digit of 10,
      which the decoder cannot produce) would divide by zero. */
  function Camber(x: real, m: real, p: real): real
    requires p != 1.0
  {
    if AheadOfPeak(x, p) then ForwardCamber(x, m, p) else AftCamber(x, m, p)
  }

  /** `get_gradient`: the derivative of the camber line. */
  function Gradient(x: real, m: real, p: real): real
    requires p != 1.0
  {
    var a := (2.0 * m) * (p - x);
    if AheadOfPeak(x, p) then a / (p * p)
    else
      var b := 1.0 - p;
      a / (b * b)
  }

  /** At the position of maximum camber both branches of the camber line
      reach the maximum camber m, so the line is continuous and peaks there,
      and the gradient vanishes. Stated for every camber position a
      four-digit code can express, p = d / 10 with d a single digit. For
      d = 0 (p = 0, below FLT_EPSILON) the aft branch is taken at every x,
      so nothing is divided by p * p. */
  lemma CamberPeakAtDigit(m: real, d: int)
    requires 0 <= d <= 9
    ensures var p := d as real / 10.0;
      && AftCamber(p, m, p) == m
      && (d > 0 ==> ForwardCamber(p, m, p) == m)
      && Camber(p, m, p) == m
      && Gradient(p, m, p) == 0.0
    ensures d == 0 ==> forall x :: Camber(x, m, 0.0) == AftCamber(x, m, 0.0)
  {
    if d == 0 {
    } else if d == 1 {
    } else if d == 2 {
    } else if d == 3 {
    } else if d == 4 {
    } else if d == 5 {
    } else if d == 6 {
    } else if d == 7 {
    } else if d == 8 {
    } else {
    }
  }

  /** `get_thickness`: the NACA four-digit half-thickness at chord fraction x
      for thickness ratio t. `sqrt` stands for `powf(x, 0.5f)`. */
  function Thickness(x: real, t: real, isClosed: bool, sqrt: real -> real): real
  {
    var x2 := x * x;
    var a4 := if isClosed then A4_CLOSED else A4_OPEN;
    (A0 * sqrt(x) + A1 * x + A2 * x2 + A3 * x2 * x + a4 * x2 * x2) * t / 0.2
  }

  /** The section has zero thickness at the leading edge, and at the trailing
      edge exactly when the closed-edge coefficient is used: the five closed
      coefficients sum to zero, the open ones leave 0.0021. */
  lemma ThicknessAtEdges(t: real, isClosed: bool, sqrt: real -> real)
    requires sqrt(0.0) == 0.0 && sqrt(1.0) == 1.0
    ensures Thickness(0.0, t, isClosed, sqrt) == 0.0
    ensures Thickness(1.0, t, isClosed, sqrt) == (if isClosed then 0.0 else 0.0105 * t)
    ensures t != 0.0 ==> (Thickness(1.0, t, isClosed, sqrt) == 0.0 <==> isClosed)
  {
    assert A0 + A1 + A2 + A3 + A4_CLOSED == 0.0;
    assert A0 + A1 + A2 + A3 + A4_OPEN == 0.0021;
  }

  /** `get_x_surface`: the surface abscissa, offset from the camber point by
      the thickness along the gradient used directly as an angle. */
  function SurfaceX(xc: real, thickness: real, theta: real, isUpper: bool, sin: real -> real): real
  {
    var sign := if isUpper then -1.0 else 1.0;
    xc + sign * thickness * sin(theta)
  }

  /** `get_z_surface`. */
  function SurfaceZ(zc: real, thickness: real, theta: real, isUpper: bool, cos: real -> real): real
  {
    var sign := if isUpper then 1.0 else -1.0;
    zc + sign * thickness * cos(theta)
  }

  /** The upper and lower surface points straddle the camber point: it is
      their midpoint. */
  lemma SurfacesStraddleCamber(xc: real, zc: real, thickness: real, theta: real, trig: Trig)
    ensures SurfaceX(xc, thickness, theta, true, trig.sin) + SurfaceX(xc, thickness, theta, false, trig.sin) == 2.0 * xc
    ensures SurfaceZ(zc, thickness, theta, true, trig.cos) + SurfaceZ(zc, thickness, theta, false, trig.cos) == 2.0 * zc
    ensures SurfaceZ(zc, thickness, theta, true, trig.cos) - SurfaceZ(zc, thickness, theta, false, trig.cos)
            == 2.0 * thickness * trig.cos(theta)
  {
  }

  // =====================================================================
  // Counts

  /** `get_num_pts`. */
  function NumPts(w: Wing): int
  {
    w.numPtsSpan * (2 * w.numPtsChord - BoolToInt(w.hasClosedTe) - 1)
  }

  /** `get_num_tris`. */
  function NumTris(w: Wing): int
  {
    var numTrisSurf := (w.numPtsChord - 1) * (w.numPtsSpan - 1) * 2;
    var numTrisSide := 2 * w.numPtsChord - BoolToInt(w.hasClosedTe) - 3;
    var numTrisAft := (1 - BoolToInt(w.hasClosedTe)) * (w.numPtsSpan - 1) * 2;
    2 * (numTrisSurf + numTrisSide) + numTrisAft
  }

  /** What the mesh code relies on without checking it: at least two
      spanwise stations (make_pts divides by S - 1), at least two chordwise
      points (it divides by R - 1), and at least three when the trailing edge
      is closed (otherwise the wall phase and the count formula disagree, see
      ClosedTwoRowWallMismatch). The command-line decoder guarantees R >= 20. */
  predicate MeshReady(w: Wing)
  {
    w.numPtsSpan >= 2 && w.numPtsChord >= 2 && (w.hasClosedTe ==> w.numPtsChord >= 3)
  }

  // =====================================================================
  // The vertex grid (make_pts)

  /** A grid point of one surface: chordwise row i, spanwise column j. */
  datatype GridRef = GridRef(isUpper: bool, i: int, j: int)

  /** The grid points `make_pts` visits: all R rows of the upper surface and
      rows 1 .. R-1-c of the lower surface. */
  predicate OnGrid(w: Wing, g: GridRef)
  {
    && 0 <= g.j < w.numPtsSpan
    && (if g.isUpper then 0 <= g.i < w.numPtsChord
        else 1 <= g.i < w.numPtsChord - BoolToInt(w.hasClosedTe))
  }

  /** The slot `make_pts` writes for grid point g. */
  function PtsSlot(w: Wing, g: GridRef): int
  {
    if g.isUpper then Sub2Ind(g.i - 0, g.j, w.numPtsSpan)
    else w.numPtsChord * w.numPtsSpan + Sub2Ind(g.i - 1, g.j, w.numPtsSpan)
  }

  /** The grid point whose vertex lives in slot s. */
  function SlotOwner(w: Wing, s: int): GridRef
    requires w.numPtsSpan >= 1
  {
    var upperSize := w.numPtsChord * w.numPtsSpan;
    if s < upperSize then GridRef(true, s / w.numPtsSpan, s % w.numPtsSpan)
    else GridRef(false, (s - upperSize) / w.numPtsSpan + 1, (s - upperSize) % w.numPtsSpan)
  }

  /** The vertex count splits into the upper block and the lower block. */
  lemma NumPtsBlocks(w: Wing)
    ensures NumPts(w) == w.numPtsChord * w.numPtsSpan
                         + (w.numPtsChord - 1 - BoolToInt(w.hasClosedTe)) * w.numPtsSpan
    ensures MeshReady(w) ==> w.numPtsChord * w.numPtsSpan <= NumPts(w)
  {
    if MeshReady(w) {
      assert (w.numPtsChord - 1 - BoolToInt(w.hasClosedTe)) * w.numPtsSpan >= 0;
    }
  }

  /** Every grid point has a slot in [0, get_num_pts), and the slot's owner is
      that grid point: no two grid points share a slot. */
  lemma SlotOfGridPoint(w: Wing, g: GridRef)
    requires MeshReady(w) && OnGrid(w, g)
    ensures 0 <= PtsSlot(w, g) < NumPts(w)
    ensures SlotOwner(w, PtsSlot(w, g)) == g
  {
    NumPtsBlocks(w);
    if g.isUpper {
      UpperSlot(w, g.i, g.j);
    } else {
      LowerSlot(w, g.i, g.j);
    }
  }

  lemma UpperSlot(w: Wing, i: int, j: int)
    requires MeshReady(w) && 0 <= i < w.numPtsChord && 0 <= j < w.numPtsSpan
    ensures 0 <= PtsSlot(w, GridRef(true, i, j)) < w.numPtsChord * w.numPtsSpan
    ensures SlotOwner(w, PtsSlot(w, GridRef(true, i, j))) == GridRef(true, i, j)
  {
    Sub2IndBounds(i, j, w.numPtsChord, w.numPtsSpan);
    Sub2IndDivMod(i, j, w.numPtsSpan);
  }

  lemma LowerSlot(w: Wing, i: int, j: int)
    requires MeshReady(w) && 1 <= i < w.numPtsChord - BoolToInt(w.hasClosedTe) && 0 <= j < w.numPtsSpan
    ensures var s := PtsSlot(w, GridRef(false, i, j));
      && w.numPtsChord * w.numPtsSpan <= s
      && s < w.numPtsChord * w.numPtsSpan + (w.numPtsChord - 1 - BoolToInt(w.hasClosedTe)) * w.numPtsSpan
    ensures SlotOwner(w, PtsSlot(w, GridRef(false, i, j))) == GridRef(false, i, j)
  {
    var S := w.numPtsSpan;
    var off := Sub2Ind(i - 1, j, S);
    Sub2IndBounds(i - 1, j, w.numPtsChord - 1 - BoolToInt(w.hasClosedTe), S);
    Sub2IndDivMod(i - 1, j, S);
    assert PtsSlot(w, GridRef(false, i, j)) - w.numPtsChord * S == off;
  }

  /** Every slot in [0, get_num_pts) belongs to a grid point whose slot it
      is: no slot is left unwritten. */
  lemma OwnerOfSlot(w: Wing, s: int)
    requires MeshReady(w) && 0 <= s < NumPts(w)
    ensures OnGrid(w, SlotOwner(w, s))
    ensures PtsSlot(w, SlotOwner(w, s)) == s
  {
    NumPtsBlocks(w);
    if s < w.numPtsChord * w.numPtsSpan {
      OwnerOfUpperSlot(w, s);
    } else {
      OwnerOfLowerSlot(w, s);
    }
  }

  lemma OwnerOfUpperSlot(w: Wing, s: int)
    requires MeshReady(w) && 0 <= s < w.numPtsChord * w.numPtsSpan
    ensures OnGrid(w, SlotOwner(w, s))
    ensures PtsSlot(w, SlotOwner(w, s)) == s
  {
    var S := w.numPtsSpan;
    DivBelow(s, S, w.numPtsChord);
    assert s == Sub2Ind(s / S, s % S, S);
  }

  lemma OwnerOfLowerSlot(w: Wing, s: int)
    requires MeshReady(w) && w.numPtsChord * w.numPtsSpan <= s < NumPts(w)
    ensures OnGrid(w, SlotOwner(w, s))
    ensures PtsSlot(w, SlotOwner(w, s)) == s
  {
    var R, S, c := w.numPtsChord, w.numPtsSpan, BoolToInt(w.hasClosedTe);
    NumPtsBlocks(w);
    var off := s - R * S;
    DivBelow(off, S, R - 1 - c);
    assert off == Sub2Ind(off / S, off % S, S);
    assert SlotOwner(w, s) == GridRef(false, off / S + 1, off % S);
  }

  /** The quotient of an index below m * n by n is a row below m. */
  lemma DivBelow(a: int, n: int, m: int)
    requires n > 0 && 0 <= a < m * n
    ensures 0 <= a / n < m
  {
  }

  /** The position `make_pts` gives a chordwise row: linear in i, or cosine
      spaced. */
  function ChordFraction(w: Wing, i: int, trig: Trig): real
    requires w.numPtsChord >= 2
  {
    var xn := i as real / (w.numPtsChord - 1) as real;
    if w.hasCosineSpacing then (1.0 - trig.cos(xn * PI)) / 2.0 else xn
  }

  /** The spanwise coordinate of station j. */
  function SpanStation(w: Wing, j: int): real
    requires w.numPtsSpan >= 2
  {
    w.semiSpan * j as real / (w.numPtsSpan - 1) as real
  }

  /** The tangent of the complement of a sweep angle. */
  function SweepTan(sweep: real, trig: Trig): real
  {
    trig.tan(ToRadians(90.0 - sweep))
  }

  /** The local chord at spanwise coordinate y: the root chord widened by
      the trailing-edge offset and narrowed by the leading-edge offset. */
  function LocalChord(rootChord: real, y: real, tanLe: real, tanTe: real): real
  {
    rootChord + y * tanTe - y * tanLe
  }

  /** The vertex `make_pts` computes for grid point g, converted to metres. */
  function GridVertex(w: Wing, trig: Trig, g: GridRef): Vec3
    requires w.numPtsSpan >= 2 && w.numPtsChord >= 2 && w.airfoil.p != 10
  {
    Place(SectionPoint(w, trig, g), SpanStation(w, g.j), w.rootChord,
          SweepTan(w.sweepLe, trig), SweepTan(w.sweepTe, trig), w.units)
  }

  /** A unit-chord section point placed at span station y: scaled by the
      local chord, shifted by the leading-edge offset, converted to metres. */
  function Place(section: Vec2, y: real, rootChord: real, tanLe: real, tanTe: real, units: Units): Vec3
  {
    var dxLe := y * tanLe;
    var localChord := LocalChord(rootChord, y, tanLe, tanTe);
    Vec3(ToMeters(section.x * localChord + dxLe, units), ToMeters(y, units),
         ToMeters(section.y * localChord, units))
  }

  /** The point of the unit-chord section that `make_pts` places at grid
      point g: the camber line at the row's chord fraction, offset by the
      thickness along the surface. */
  function SectionPoint(w: Wing, trig: Trig, g: GridRef): Vec2
    requires w.numPtsChord >= 2 && w.airfoil.p != 10
  {
    var m := w.airfoil.m as real / 100.0;
    var p := w.airfoil.p as real / 10.0;
    var t := w.airfoil.t as real / 100.0;
    var xnCamber := ChordFraction(w, g.i, trig);
    var theta := Gradient(xnCamber, m, p);
    var thickness := Thickness(xnCamber, t, w.hasClosedTe, trig.sqrt);
    var znCamber := Camber(xnCamber, m, p);
    Vec2(SurfaceX(xnCamber, thickness, theta, g.isUpper, trig.sin),
         SurfaceZ(znCamber, thickness, theta, g.isUpper, trig.cos))
  }

  /** The grid points `make_pts` has written once it has finished the
      surfaces before `pass` (0 = upper, 1 = lower), the columns before j of
      the current surface, and the rows before i of column j. */
  predicate WrittenBefore(g: GridRef, pass: int, j: int, i: int)
  {
    var gPass := if g.isUpper then 0 else 1;
    gPass < pass || (gPass == pass && (g.j < j || (g.j == j && g.i < i)))
  }

  /** Every slot owned by a grid point written before (pass, j, i) holds
      that grid point's vertex. */
  predicate PtsDone(w: Wing, trig: Trig, pts: seq<Vec3>, pass: int, j: int, i: int)
    requires w.numPtsSpan >= 2 && w.numPtsChord >= 2 && w.airfoil.p != 10
  {
    forall s :: 0 <= s < |pts| && WrittenBefore(SlotOwner(w, s), pass, j, i)
                ==> pts[s] == GridVertex(w, trig, SlotOwner(w, s))
  }

  /** Storing the vertex of grid point (pass, j, i) in its slot extends the
      written region by that point. */
  lemma PtsDoneStep(w: Wing, trig: Trig, pts: seq<Vec3>, pass: int, j: int, i: int)
    requires MeshReady(w) && w.airfoil.p != 10 && 0 <= pass <= 1
    requires |pts| == NumPts(w) && OwnersOnGrid(w, |pts|)
    requires OnGrid(w, GridRef(pass == 0, i, j))
    requires PtsDone(w, trig, pts, pass, j, i)
    ensures 0 <= PtsSlot(w, GridRef(pass == 0, i, j)) < |pts|
    ensures PtsDone(w, trig, pts[PtsSlot(w, GridRef(pass == 0, i, j)) := GridVertex(w, trig, GridRef(pass == 0, i, j))],
                    pass, j, i + 1)
  {
    SlotOfGridPoint(w, GridRef(pass == 0, i, j));
  }

  /** Every slot below n has its owner on the grid, and is that owner's slot. */
  predicate OwnersOnGrid(w: Wing, n: int)
    requires w.numPtsSpan >= 1
  {
    forall s :: 0 <= s < n ==> OnGrid(w, SlotOwner(w, s)) && PtsSlot(w, SlotOwner(w, s)) == s
  }

  /** `make_pts`: allocate the vertex buffer and fill every slot with the
      vertex of the grid point that owns it. */
  method MakePts(w: Wing, trig: Trig) returns (pts: array<Vec3>)
    requires MeshReady(w) && w.airfoil.p != 10
    ensures fresh(pts)
    ensures pts.Length == NumPts(w)
    ensures forall s :: 0 <= s < pts.Length ==> pts[s] == GridVertex(w, trig, SlotOwner(w, s))
  {
    var numRows := w.numPtsChord;
    var rowMax := numRows;
    var rowStart := 0;
    assert NumPts(w) >= 0;
    pts := new Vec3[NumPts(w)](_ => Vec3(0.0, 0.0, 0.0));
    forall s | 0 <= s < pts.Length
      ensures OnGrid(w, SlotOwner(w, s)) && PtsSlot(w, SlotOwner(w, s)) == s
    {
      OwnerOfSlot(w, s);
    }

    var isUpper := 1;
    while isUpper >= 0
      invariant -1 <= isUpper <= 1
      invariant isUpper >= 0 ==> rowStart == 0 && rowMax == numRows
      invariant PtsDone(w, trig, pts[..], 1 - isUpper, 0, 0)
    {
      if isUpper == 0 {
        rowStart := 1;
        rowMax := numRows - BoolToInt(w.hasClosedTe);
      }
      FillPtsSurface(w, trig, isUpper, rowStart, rowMax, pts);
      isUpper := isUpper - 1;
    }
    assert forall s :: 0 <= s < pts.Length ==> WrittenBefore(SlotOwner(w, s), 2, 0, 0);
  }

  /** One surface of `make_pts`: the loop over j. */
  method FillPtsSurface(w: Wing, trig: Trig, isUpper: int, rowStart: int, rowMax: int, pts: array<Vec3>)
    requires MeshReady(w) && w.airfoil.p != 10 && 0 <= isUpper <= 1
    requires pts.Length == NumPts(w) && OwnersOnGrid(w, pts.Length)
    requires rowStart == 1 - isUpper
    requires rowMax == if isUpper == 1 then w.numPtsChord else w.numPtsChord - BoolToInt(w.hasClosedTe)
    requires PtsDone(w, trig, pts[..], 1 - isUpper, 0, 0)
    modifies pts
    ensures PtsDone(w, trig, pts[..], 2 - isUpper, 0, 0)
  {
    for j := 0 to w.numPtsSpan
      invariant PtsDone(w, trig, pts[..], 1 - isUpper, j, 0)
    {
      FillPtsColumn(w, trig, isUpper, j, rowStart, rowMax, pts);
    }
  }

  /** One column of one surface of `make_pts`: the loop over i. */
  method FillPtsColumn(w: Wing, trig: Trig, isUpper: int, j: int, rowStart: int, rowMax: int,
                       pts: array<Vec3>)
    requires MeshReady(w) && w.airfoil.p != 10 && 0 <= isUpper <= 1 && 0 <= j < w.numPtsSpan
    requires pts.Length == NumPts(w) && OwnersOnGrid(w, pts.Length)
    requires rowStart == 1 - isUpper
    requires rowMax == if isUpper == 1 then w.numPtsChord else w.numPtsChord - BoolToInt(w.hasClosedTe)
    requires PtsDone(w, trig, pts[..], 1 - isUpper, j, 0)
    modifies pts
    ensures PtsDone(w, trig, pts[..], 1 - isUpper, j + 1, 0)
  {
    var numRows := w.numPtsChord;
    var numCols := w.numPtsSpan;
    for i := rowStart to rowMax
      invariant PtsDone(w, trig, pts[..], 1 - isUpper, j, i)
    {
      var ind;
      if isUpper == 1 {
        ind := Sub2Ind(i - rowStart, j, numCols);
      } else {
        ind := numRows * numCols + Sub2Ind(i - rowStart, j, numCols);
      }
      var g := GridRef(isUpper == 1, i, j);
      assert ind == PtsSlot(w, g);
      PtsDoneStep(w, trig, pts[..], 1 - isUpper, j, i);
      pts[ind] := GridVertex(w, trig, g);
    }
  }

  // =====================================================================
  // Index maps

  /** `get_upper_index`. */
  function UpperIndex(w: Wing, i: int, j: int): int
  {
    Sub2Ind(i, j, w.numPtsSpan)
  }

  /** `get_lower_index`: the leading-edge row, and the trailing-edge row of a
      closed section, are shared with the upper surface. */
  function LowerIndex(w: Wing, i: int, j: int): int
  {
    var isLastRow := i == w.numPtsChord - 1;
    if i == 0 || (isLastRow && w.hasClosedTe) then Sub2Ind(i, j, w.numPtsSpan)
    else
      var offset := Sub2Ind(i - 1, j, w.numPtsSpan);
      w.numPtsChord * w.numPtsSpan + offset
  }

  /** A reference to a grid vertex from the triangle phases: through the
      upper map or through the lower map. */
  datatype VRef = Up(i: int, j: int) | Lo(i: int, j: int)

  /** The grid point a reference denotes: a lower reference on a shared row
      is the upper grid point of that row. */
  function RefGrid(w: Wing, r: VRef): GridRef
  {
    match r
    case Up(i, j) => GridRef(true, i, j)
    case Lo(i, j) =>
      if i == 0 || (i == w.numPtsChord - 1 && w.hasClosedTe) then GridRef(true, i, j)
      else GridRef(false, i, j)
  }

  /** The index a reference resolves to. */
  function Resolve(w: Wing, r: VRef): int
  {
    match r
    case Up(i, j) => UpperIndex(w, i, j)
    case Lo(i, j) => LowerIndex(w, i, j)
  }

  predicate RefInRange(w: Wing, r: VRef)
  {
    0 <= r.i < w.numPtsChord && 0 <= r.j < w.numPtsSpan
  }

  /** Both index maps agree with the layout of `make_pts`: a reference to
      (i, j) resolves to the slot that holds the vertex of the grid point it
      denotes, which is a lower-block slot except on the shared rows. Hence
      every resolved index is below get_num_pts, and an upper index below
      R*S. */
  lemma ResolveIsPtsSlot(w: Wing, r: VRef)
    requires MeshReady(w) && RefInRange(w, r)
    ensures OnGrid(w, RefGrid(w, r))
    ensures Resolve(w, r) == PtsSlot(w, RefGrid(w, r))
    ensures 0 <= Resolve(w, r) < NumPts(w)
    ensures r.Up? ==> Resolve(w, r) < w.numPtsChord * w.numPtsSpan
    ensures r.Lo? ==> (RefGrid(w, r).isUpper <==> (r.i == 0 || (w.hasClosedTe && r.i == w.numPtsChord - 1)))
  {
    SlotOfGridPoint(w, RefGrid(w, r));
    if r.Up? {
      Sub2IndBounds(r.i, r.j, w.numPtsChord, w.numPtsSpan);
    }
  }

  /** Together with MakePts: the vertex buffer holds, at the index a
      reference resolves to, the vertex of the grid point it denotes. */
  lemma ResolvedVertex(w: Wing, trig: Trig, pts: seq<Vec3>, r: VRef)
    requires MeshReady(w) && w.airfoil.p != 10 && RefInRange(w, r)
    requires |pts| == NumPts(w)
    requires forall s :: 0 <= s < |pts| ==> pts[s] == GridVertex(w, trig, SlotOwner(w, s))
    ensures 0 <= Resolve(w, r) < |pts|
    ensures pts[Resolve(w, r)] == GridVertex(w, trig, RefGrid(w, r))
  {
    ResolveIsPtsSlot(w, r);
    SlotOfGridPoint(w, RefGrid(w, r));
  }

  /** The indices of a list of references. */
  function ResolveAll(w: Wing, rs: seq<VRef>): (r: seq<int>)
    ensures |r| == |rs|
    ensures forall n :: 0 <= n < |rs| ==> r[n] == Resolve(w, rs[n])
  {
    seq(|rs|, n requires 0 <= n < |rs| => Resolve(w, rs[n]))
  }

  // =====================================================================
  // Triangle phases, as reference lists

  /** The two triangles of surface cell (i, j): the corner cycle of the
      source, emitted as (c3, c2, c1) and (c3, c1, c0). */
  function SurfaceCellRefs(isUpper: bool, i: int, j: int): seq<VRef>
  {
    var c := SurfaceQuad(isUpper, i, j);
    [c[3], c[2], c[1], c[3], c[1], c[0]]
  }

  /** The corners c0..c3 of surface cell (i, j) in the order the source
      names them. */
  function SurfaceQuad(isUpper: bool, i: int, j: int): (c: seq<VRef>)
    ensures |c| == 4
  {
    if isUpper then [Up(i, j), Up(i, j + 1), Up(i + 1, j + 1), Up(i + 1, j)]
    else [Lo(i, j + 1), Lo(i, j), Lo(i + 1, j), Lo(i + 1, j + 1)]
  }

  /** The corners c0..c3 of the wall quad of row i at column j. */
  function WallQuad(isPort: bool, i: int, j: int): (c: seq<VRef>)
    ensures |c| == 4
  {
    if isPort then [Lo(i, j), Lo(i + 1, j), Up(i + 1, j), Up(i, j)]
    else [Lo(i + 1, j), Lo(i, j), Up(i, j), Up(i + 1, j)]
  }

  /** The wall triangles of chordwise row i on the port (j = 0) or starboard
      (j = S-1) side: one collapsed triangle on the leading-edge row and, when
      closed, on the last row; two triangles elsewhere. */
  function WallRowRefs(w: Wing, isPort: bool, i: int): seq<VRef>
  {
    var j := if isPort then 0 else w.numPtsSpan - 1;
    var isLastRow := i == w.numPtsChord - 2;
    if i == 0 then
      if isPort then [Up(i, j), Lo(i + 1, j), Up(i + 1, j)]
      else [Up(i, j), Up(i + 1, j), Lo(i + 1, j)]
    else if isLastRow && w.hasClosedTe then
      if isPort then [Lo(i + 1, j), Up(i, j), Lo(i, j)]
      else [Lo(i + 1, j), Lo(i, j), Up(i, j)]
    else
      var c := WallQuad(isPort, i, j);
      [c[0], c[1], c[2], c[0], c[2], c[3]]
  }

  /** The two aft-cap triangles of spanwise cell j on the last row. */
  function AftCellRefs(w: Wing, j: int): seq<VRef>
  {
    var i := w.numPtsChord - 1;
    var c := [Lo(i, j), Lo(i, j + 1), Up(i, j + 1), Up(i, j)];
    [c[0], c[1], c[2], c[0], c[2], c[3]]
  }

  // =====================================================================
  // Winding of the triangles in parameter space

  /** The parameter plane a triangle is viewed in: the planform (i, j) for
      the two surfaces, the chordwise section (i, s) for the side walls and
      the spanwise section (j, s) for the aft cap, where s is 1 on the upper
      surface and 0 on the lower one. The grid's x grows with i and its y
      with j, so a positive turn in these planes means a normal along +z,
      -y and +x respectively. */
  datatype Plane = Planform | Section | Span

  function Level(r: VRef): int
  {
    if r.Up? then 1 else 0
  }

  /** The coordinates of a reference in a plane. */
  function Coords(plane: Plane, r: VRef): (int, int)
  {
    match plane
    case Planform => (r.i, r.j)
    case Section => (r.i, Level(r))
    case Span => (r.j, Level(r))
  }

  /** Twice the signed area of the triangle (a, b, c): positive when it turns
      counter-clockwise. */
  function Turn(a: (int, int), b: (int, int), c: (int, int)): int
  {
    (b.0 - a.0) * (c.1 - a.1) - (b.1 - a.1) * (c.0 - a.0)
  }

  /** Every consecutive triple of `refs` turns by `sign` in `plane`. */
  predicate Wound(refs: seq<VRef>, plane: Plane, sign: int)
  {
    && |refs| % 3 == 0
    && forall q :: 0 <= q < |refs| / 3 ==>
         Turn(Coords(plane, refs[3 * q]), Coords(plane, refs[3 * q + 1]), Coords(plane, refs[3 * q + 2])) == sign
  }

  /** Upper-surface triangles turn counter-clockwise in the planform (normal
      up), lower-surface ones clockwise (normal down). */
  lemma SurfaceCellWinding(isUpper: bool, i: int, j: int)
    ensures Wound(SurfaceCellRefs(isUpper, i, j), Planform, if isUpper then 1 else -1)
  {
    var refs := SurfaceCellRefs(isUpper, i, j);
    var sign := if isUpper then 1 else -1;
    assert Turn(Coords(Planform, refs[0]), Coords(Planform, refs[1]), Coords(Planform, refs[2])) == sign;
    assert Turn(Coords(Planform, refs[3]), Coords(Planform, refs[4]), Coords(Planform, refs[5])) == sign;
  }

  /** Port-wall triangles face -y and starboard-wall triangles +y, the
      collapsed ones on the leading-edge and closed trailing-edge rows
      included. */
  lemma WallRowWinding(w: Wing, isPort: bool, i: int)
    ensures Wound(WallRowRefs(w, isPort, i), Section, if isPort then 1 else -1)
  {
    var refs := WallRowRefs(w, isPort, i);
    var sign := if isPort then 1 else -1;
    assert Turn(Coords(Section, refs[0]), Coords(Section, refs[1]), Coords(Section, refs[2])) == sign;
    if |refs| == 6 {
      assert Turn(Coords(Section, refs[3]), Coords(Section, refs[4]), Coords(Section, refs[5])) == sign;
    }
  }

  /** Aft-cap triangles face +x, out of the open trailing edge. */
  lemma AftCellWinding(w: Wing, j: int)
    ensures Wound(AftCellRefs(w, j), Span, 1)
  {
    var refs := AftCellRefs(w, j);
    assert Turn(Coords(Span, refs[0]), Coords(Span, refs[1]), Coords(Span, refs[2])) == 1;
    assert Turn(Coords(Span, refs[3]), Coords(Span, refs[4]), Coords(Span, refs[5])) == 1;
  }

  // ---------------------------------------------------------------------
  // Mirror symmetry of the corner cycles

  function Reverse<T>(a: seq<T>): (r: seq<T>)
    ensures |r| == |a|
    ensures forall n :: 0 <= n < |a| ==> r[n] == a[|a| - 1 - n]
  {
    if a == [] then [] else Reverse(a[1..]) + [a[0]]
  }

  /** The same cycle read from position r on. */
  function Rotate<T>(a: seq<T>, r: nat): seq<T>
    requires r <= |a|
  {
    a[r..] + a[..r]
  }

  /** The reference of the other surface at the same grid cell. */
  function Flip(r: VRef): VRef
  {
    if r.Up? then Lo(r.i, r.j) else Up(r.i, r.j)
  }

  /** The same references moved to column j. */
  function AtColumn(rs: seq<VRef>, j: int): (r: seq<VRef>)
    ensures |r| == |rs|
    ensures forall n :: 0 <= n < |rs| ==> r[n].i == rs[n].i && r[n].j == j && r[n].Up? == rs[n].Up?
  {
    seq(|rs|, n requires 0 <= n < |rs| => if rs[n].Up? then Up(rs[n].i, j) else Lo(rs[n].i, j))
  }

  /** The lower quad's corners run the upper quad's cycle backwards. */
  lemma SurfaceQuadsMirror(i: int, j: int)
    ensures seq(4, n requires 0 <= n < 4 => Flip(SurfaceQuad(false, i, j)[n]))
            == Rotate(Reverse(SurfaceQuad(true, i, j)), 2)
  {
    var u := SurfaceQuad(true, i, j);
    assert Reverse(u) == [u[3], u[2], u[1], u[0]];
  }

  /** The starboard quad's corners run the port quad's cycle backwards, and
      the collapsed starboard triangles are the port ones with their last two
      corners swapped. */
  lemma WallRowsMirror(w: Wing, i: int)
    requires 0 <= i < w.numPtsChord - 1
    ensures AtColumn(WallQuad(false, i, w.numPtsSpan - 1), 0) == Rotate(Reverse(WallQuad(true, i, 0)), 2)
    ensures var port, star := WallRowRefs(w, true, i), AtColumn(WallRowRefs(w, false, i), 0);
            |port| == 3 ==> star == [port[0], port[2], port[1]]
  {
    var p := WallQuad(true, i, 0);
    assert Reverse(p) == [p[3], p[2], p[1], p[0]];
  }

  // =====================================================================
  // Triangle phases, as index sequences in emission order

  /** The indices of cells 0 .. n-1 of row i of one surface. */
  function SurfaceRow(w: Wing, isUpper: bool, i: int, n: nat): seq<int>
  {
    if n == 0 then [] else SurfaceRow(w, isUpper, i, n - 1) + ResolveAll(w, SurfaceCellRefs(isUpper, i, n - 1))
  }

  /** The indices of rows 0 .. m-1 of one surface. */
  function SurfaceRows(w: Wing, isUpper: bool, m: nat): seq<int>
    requires w.numPtsSpan >= 1
  {
    if m == 0 then [] else SurfaceRows(w, isUpper, m - 1) + SurfaceRow(w, isUpper, m - 1, w.numPtsSpan - 1)
  }

  /** The indices of the first `passes` surface passes (upper, then lower). */
  function SurfacePasses(w: Wing, passes: nat): seq<int>
    requires w.numPtsSpan >= 1 && w.numPtsChord >= 1
  {
    if passes == 0 then []
    else if passes == 1 then SurfaceRows(w, true, w.numPtsChord - 1)
    else SurfaceRows(w, true, w.numPtsChord - 1) + SurfaceRows(w, false, w.numPtsChord - 1)
  }

  /** Everything `fill_upper_lower_indices` emits. */
  function UpperLowerIndices(w: Wing): seq<int>
    requires w.numPtsSpan >= 1 && w.numPtsChord >= 1
  {
    SurfaceRows(w, true, w.numPtsChord - 1) + SurfaceRows(w, false, w.numPtsChord - 1)
  }

  /** The indices of rows 0 .. m-1 of one wall. */
  function WallRows(w: Wing, isPort: bool, m: nat): seq<int>
  {
    if m == 0 then [] else WallRows(w, isPort, m - 1) + ResolveAll(w, WallRowRefs(w, isPort, m - 1))
  }

  /** Everything `fill_port_star_indices` emits: the port wall, then the
      starboard wall. */
  function PortStarIndices(w: Wing): seq<int>
    requires w.numPtsChord >= 1
  {
    WallRows(w, true, w.numPtsChord - 1) + WallRows(w, false, w.numPtsChord - 1)
  }

  /** The indices of aft-cap cells 0 .. n-1. */
  function AftCells(w: Wing, n: nat): seq<int>
  {
    if n == 0 then [] else AftCells(w, n - 1) + ResolveAll(w, AftCellRefs(w, n - 1))
  }

  /** Everything `fill_aft_indices` emits. */
  function AftIndices(w: Wing): seq<int>
    requires w.numPtsSpan >= 1
  {
    AftCells(w, w.numPtsSpan - 1)
  }

  /** The whole index buffer `make_indices` builds: surfaces, walls, and the
      aft cap only when the trailing edge is open. */
  function MeshIndices(w: Wing): seq<int>
    requires w.numPtsSpan >= 1 && w.numPtsChord >= 1
  {
    UpperLowerIndices(w) + PortStarIndices(w) + (if w.hasClosedTe then [] else AftIndices(w))
  }

  // =====================================================================
  // Lengths of the phases

  lemma {:induction false} SurfaceRowLength(w: Wing, isUpper: bool, i: int, n: nat)
    ensures |SurfaceRow(w, isUpper, i, n)| == 6 * n
  {
    if n > 0 {
      SurfaceRowLength(w, isUpper, i, n - 1);
    }
  }

  lemma MulSucc(m: int, r: int)
    ensures 6 * m * r == 6 * (m - 1) * r + 6 * r
  {
  }

  lemma {:induction false} SurfaceRowsLength(w: Wing, isUpper: bool, m: nat)
    requires w.numPtsSpan >= 1
    ensures |SurfaceRows(w, isUpper, m)| == 6 * m * (w.numPtsSpan - 1)
  {
    if m > 0 {
      SurfaceRowsLength(w, isUpper, m - 1);
      SurfaceRowLength(w, isUpper, m - 1, w.numPtsSpan - 1);
      assert |SurfaceRows(w, isUpper, m)|
             == |SurfaceRows(w, isUpper, m - 1)| + |SurfaceRow(w, isUpper, m - 1, w.numPtsSpan - 1)|;
      MulSucc(m, w.numPtsSpan - 1);
    }
  }

  /** `fill_upper_lower_indices` advances the cursor by 12 (R-1)(S-1). */
  lemma UpperLowerLength(w: Wing)
    requires MeshReady(w)
    ensures |UpperLowerIndices(w)| == 12 * (w.numPtsChord - 1) * (w.numPtsSpan - 1)
  {
    SurfaceRowsLength(w, true, w.numPtsChord - 1);
    SurfaceRowsLength(w, false, w.numPtsChord - 1);
    var a, b := w.numPtsChord - 1, w.numPtsSpan - 1;
    assert 12 * a * b == 6 * a * b + 6 * a * b;
  }

  /** The number of wall indices emitted for rows 0 .. m-1. */
  lemma {:induction false} WallRowsLength(w: Wing, isPort: bool, m: nat)
    requires MeshReady(w) && m <= w.numPtsChord - 1
    ensures |WallRows(w, isPort, m)|
            == if m == 0 then 0
               else 6 * m - 3 - (if w.hasClosedTe && m == w.numPtsChord - 1 then 3 else 0)
  {
    if m > 0 {
      WallRowsLength(w, isPort, m - 1);
    }
  }

  /** `fill_port_star_indices` advances the cursor by 6 (2R - c - 3). */
  lemma PortStarLength(w: Wing)
    requires MeshReady(w)
    ensures |PortStarIndices(w)| == 6 * (2 * w.numPtsChord - BoolToInt(w.hasClosedTe) - 3)
  {
    WallRowsLength(w, true, w.numPtsChord - 1);
    WallRowsLength(w, false, w.numPtsChord - 1);
  }

  lemma {:induction false} AftCellsLength(w: Wing, n: nat)
    ensures |AftCells(w, n)| == 6 * n
  {
    if n > 0 {
      AftCellsLength(w, n - 1);
    }
  }

  /** The emitted index count is exactly three per triangle of the closed
      form `get_num_tris`: the invariant `make_indices` asserts. */
  lemma MeshIndexCount(w: Wing)
    requires MeshReady(w)
    ensures NumTris(w) >= 0
    ensures |MeshIndices(w)| == 3 * NumTris(w)
  {
    UpperLowerLength(w);
    PortStarLength(w);
    AftCellsLength(w, w.numPtsSpan - 1);
    NumTrisBreakdown(w);
    assert |MeshIndices(w)| == |UpperLowerIndices(w)| + |PortStarIndices(w)|
                               + (if w.hasClosedTe then 0 else |AftIndices(w)|);
  }

  /** The index counts of the three phases, named so that callers need no
      multiplication to add them up. */
  lemma PhaseSizes(w: Wing) returns (ul: int, ps: int, aft: int)
    requires MeshReady(w)
    ensures ul == 12 * (w.numPtsChord - 1) * (w.numPtsSpan - 1) && ul >= 0
    ensures ps == 6 * (2 * w.numPtsChord - BoolToInt(w.hasClosedTe) - 3) && ps >= 0
    ensures aft == 6 * (w.numPtsSpan - 1) && aft >= 0
    ensures 3 * NumTris(w) == ul + ps + (if w.hasClosedTe then 0 else aft)
  {
    NumTrisBreakdown(w);
    ul, ps, aft := 12 * (w.numPtsChord - 1) * (w.numPtsSpan - 1),
                   6 * (2 * w.numPtsChord - BoolToInt(w.hasClosedTe) - 3),
                   6 * (w.numPtsSpan - 1);
    assert ul == 12 * ((w.numPtsChord - 1) * (w.numPtsSpan - 1));
  }

  /** get_num_tris, three indices per triangle, phase by phase. */
  lemma NumTrisBreakdown(w: Wing)
    requires MeshReady(w)
    ensures NumTris(w) >= 0
    ensures 3 * NumTris(w) == 12 * (w.numPtsChord - 1) * (w.numPtsSpan - 1)
                              + 6 * (2 * w.numPtsChord - BoolToInt(w.hasClosedTe) - 3)
                              + (if w.hasClosedTe then 0 else 6 * (w.numPtsSpan - 1))
  {
    var R, S := w.numPtsChord, w.numPtsSpan;
    var cells := (R - 1) * (S - 1);
    assert cells >= 0;
    assert 12 * (R - 1) * (S - 1) == 12 * cells;
    if w.hasClosedTe {
      assert NumTris(w) == 2 * (cells * 2 + (2 * R - 4));
    } else {
      assert NumTris(w) == 2 * (cells * 2 + (2 * R - 3)) + (S - 1) * 2;
    }
  }

  /** The closed-edge precondition R >= 3 is needed: with two chordwise
      points and a closed trailing edge, the wall phase emits one triangle per
      side while the formula allows none. */
  lemma ClosedTwoRowWallMismatch(w: Wing)
    requires w.numPtsChord == 2 && w.hasClosedTe
    ensures |PortStarIndices(w)| == 6
    ensures 2 * w.numPtsChord - BoolToInt(w.hasClosedTe) - 3 == 0
  {
    assert WallRows(w, true, 1) == ResolveAll(w, WallRowRefs(w, true, 0));
    assert WallRows(w, false, 1) == ResolveAll(w, WallRowRefs(w, false, 0));
  }

  // =====================================================================
  // Every emitted index names a vertex

  predicate AllBelow(s: seq<int>, bound: int)
  {
    forall n :: 0 <= n < |s| ==> 0 <= s[n] < bound
  }

  lemma ResolveAllBelow(w: Wing, rs: seq<VRef>)
    requires MeshReady(w)
    requires forall n :: 0 <= n < |rs| ==> RefInRange(w, rs[n])
    ensures AllBelow(ResolveAll(w, rs), NumPts(w))
  {
    forall n | 0 <= n < |rs|
      ensures 0 <= Resolve(w, rs[n]) < NumPts(w)
    {
      ResolveIsPtsSlot(w, rs[n]);
    }
  }

  lemma {:induction false} SurfaceRowBelow(w: Wing, isUpper: bool, i: int, n: nat)
    requires MeshReady(w) && 0 <= i < w.numPtsChord - 1 && n <= w.numPtsSpan - 1
    ensures AllBelow(SurfaceRow(w, isUpper, i, n), NumPts(w))
  {
    if n > 0 {
      SurfaceRowBelow(w, isUpper, i, n - 1);
      ResolveAllBelow(w, SurfaceCellRefs(isUpper, i, n - 1));
      AllBelowConcat(SurfaceRow(w, isUpper, i, n - 1), ResolveAll(w, SurfaceCellRefs(isUpper, i, n - 1)), NumPts(w));
    }
  }

  lemma {:induction false} SurfaceRowsBelow(w: Wing, isUpper: bool, m: nat)
    requires MeshReady(w) && m <= w.numPtsChord - 1
    ensures AllBelow(SurfaceRows(w, isUpper, m), NumPts(w))
  {
    if m > 0 {
      SurfaceRowsBelow(w, isUpper, m - 1);
      SurfaceRowBelow(w, isUpper, m - 1, w.numPtsSpan - 1);
      AllBelowConcat(SurfaceRows(w, isUpper, m - 1), SurfaceRow(w, isUpper, m - 1, w.numPtsSpan - 1), NumPts(w));
    }
  }

  lemma {:induction false} WallRowsBelow(w: Wing, isPort: bool, m: nat)
    requires MeshReady(w) && m <= w.numPtsChord - 1
    ensures AllBelow(WallRows(w, isPort, m), NumPts(w))
  {
    if m > 0 {
      WallRowsBelow(w, isPort, m - 1);
      ResolveAllBelow(w, WallRowRefs(w, isPort, m - 1));
      AllBelowConcat(WallRows(w, isPort, m - 1), ResolveAll(w, WallRowRefs(w, isPort, m - 1)), NumPts(w));
    }
  }

  lemma {:induction false} AftCellsBelow(w: Wing, n: nat)
    requires MeshReady(w) && n <= w.numPtsSpan - 1
    ensures AllBelow(AftCells(w, n), NumPts(w))
  {
    if n > 0 {
      AftCellsBelow(w, n - 1);
      ResolveAllBelow(w, AftCellRefs(w, n - 1));
      AllBelowConcat(AftCells(w, n - 1), ResolveAll(w, AftCellRefs(w, n - 1)), NumPts(w));
    }
  }

  lemma AllBelowConcat(a: seq<int>, b: seq<int>, bound: int)
    requires AllBelow(a, bound) && AllBelow(b, bound)
    ensures AllBelow(a + b, bound)
  {
  }

  lemma UpperLowerBelow(w: Wing)
    requires MeshReady(w)
    ensures AllBelow(UpperLowerIndices(w), NumPts(w))
  {
    SurfaceRowsBelow(w, true, w.numPtsChord - 1);
    SurfaceRowsBelow(w, false, w.numPtsChord - 1);
    AllBelowConcat(SurfaceRows(w, true, w.numPtsChord - 1), SurfaceRows(w, false, w.numPtsChord - 1), NumPts(w));
  }

  lemma PortStarBelow(w: Wing)
    requires MeshReady(w)
    ensures AllBelow(PortStarIndices(w), NumPts(w))
  {
    WallRowsBelow(w, true, w.numPtsChord - 1);
    WallRowsBelow(w, false, w.numPtsChord - 1);
    AllBelowConcat(WallRows(w, true, w.numPtsChord - 1), WallRows(w, false, w.numPtsChord - 1), NumPts(w));
  }

  /** Every index of the mesh is a valid vertex slot. */
  lemma MeshIndicesBelow(w: Wing)
    requires MeshReady(w)
    ensures AllBelow(MeshIndices(w), NumPts(w))
  {
    var n := NumPts(w);
    UpperLowerBelow(w);
    PortStarBelow(w);
    AllBelowConcat(UpperLowerIndices(w), PortStarIndices(w), n);
    if !w.hasClosedTe {
      AftCellsBelow(w, w.numPtsSpan - 1);
      AllBelowConcat(UpperLowerIndices(w) + PortStarIndices(w), AftIndices(w), n);
    } else {
      assert MeshIndices(w) == UpperLowerIndices(w) + PortStarIndices(w) + [];
    }
  }

  // =====================================================================
  // The fill phases

  /** `inds[k++] = v` for each v of `tri`, in order. */
  method Emit(inds: array<int>, k: int, tri: seq<int>) returns (kOut: int)
    requires 0 <= k && k + |tri| <= inds.Length
    modifies inds
    ensures kOut == k + |tri|
    ensures inds[k..kOut] == tri
    ensures forall n :: 0 <= n < inds.Length && !(k <= n < kOut) ==> inds[n] == old(inds[n])
  {
    kOut := k;
    for q := 0 to |tri|
      invariant kOut == k + q
      invariant inds[k..kOut] == tri[..q]
      invariant forall n :: 0 <= n < inds.Length && !(k <= n < kOut) ==> inds[n] == old(inds[n])
    {
      inds[kOut] := tri[q];
      kOut := kOut + 1;
    }
  }

  /** Emit `tri` at the cursor, extending the buffer's written prefix by it. */
  method EmitAfter(inds: array<int>, k: int, tri: seq<int>) returns (kOut: int)
    requires 0 <= k && k + |tri| <= inds.Length
    modifies inds
    ensures kOut == k + |tri|
    ensures inds[..kOut] == old(inds[..k]) + tri
    ensures forall n :: 0 <= n < inds.Length && !(k <= n < kOut) ==> inds[n] == old(inds[n])
  {
    kOut := Emit(inds, k, tri);
    assert inds[..kOut] == inds[..k] + inds[k..kOut];
  }

  /** One chordwise row of one surface: the innermost loop of
      `fill_upper_lower_indices`. */
  method FillSurfaceRow(w: Wing, isUpper: int, i: int, k: int, inds: array<int>) returns (kOut: int)
    requires MeshReady(w) && 0 <= isUpper <= 1 && 0 <= i < w.numPtsChord - 1
    requires 0 <= k && k + 6 * (w.numPtsSpan - 1) <= inds.Length
    modifies inds
    ensures kOut == k + 6 * (w.numPtsSpan - 1)
    ensures inds[..kOut] == old(inds[..k]) + SurfaceRow(w, isUpper == 1, i, w.numPtsSpan - 1)
    ensures forall n :: 0 <= n < inds.Length && !(k <= n < kOut) ==> inds[n] == old(inds[n])
  {
    ghost var prefix := inds[..k];
    kOut := k;
    for j := 0 to w.numPtsSpan - 1
      invariant kOut == k + 6 * j
      invariant inds[..kOut] == prefix + SurfaceRow(w, isUpper == 1, i, j)
      invariant forall n :: 0 <= n < inds.Length && !(k <= n < kOut) ==> inds[n] == old(inds[n])
    {
      var tri := SurfaceCellTriangles(w, isUpper, i, j);
      SurfaceRowStep(w, isUpper == 1, i, j, prefix, tri);
      kOut := EmitAfter(inds, kOut, tri);
    }
  }

  /** All rows of one surface: the loop over i of
      `fill_upper_lower_indices`. */
  method FillSurface(w: Wing, isUpper: int, k: int, inds: array<int>) returns (kOut: int)
    requires MeshReady(w) && 0 <= isUpper <= 1
    requires 0 <= k && k + |SurfaceRows(w, isUpper == 1, w.numPtsChord - 1)| <= inds.Length
    modifies inds
    ensures kOut == k + |SurfaceRows(w, isUpper == 1, w.numPtsChord - 1)|
    ensures inds[..kOut] == old(inds[..k]) + SurfaceRows(w, isUpper == 1, w.numPtsChord - 1)
    ensures forall n :: 0 <= n < inds.Length && !(k <= n < kOut) ==> inds[n] == old(inds[n])
  {
    ghost var prefix := inds[..k];
    ghost var total := |SurfaceRows(w, isUpper == 1, w.numPtsChord - 1)|;
    ghost var done: seq<int> := [];
    kOut := k;
    for i := 0 to w.numPtsChord - 1
      invariant done == SurfaceRows(w, isUpper == 1, i)
      invariant |done| <= total
      invariant kOut == k + |done|
      invariant inds[..kOut] == prefix + done
      invariant forall n :: 0 <= n < inds.Length && !(k <= n < kOut) ==> inds[n] == old(inds[n])
    {
      ghost var row := SurfaceRow(w, isUpper == 1, i, w.numPtsSpan - 1);
      SurfaceStep(w, isUpper == 1, i);
      ConcatAssoc(prefix, done, row);
      kOut := FillSurfaceRow(w, isUpper, i, kOut, inds);
      done := done + row;
    }
  }

  /** The two triangles of cell (i, j) of one surface, as the body of the
      innermost loop of `fill_upper_lower_indices` builds them. */
  method SurfaceCellTriangles(w: Wing, isUpper: int, i: int, j: int) returns (tri: seq<int>)
    requires 0 <= isUpper <= 1
    ensures tri == ResolveAll(w, SurfaceCellRefs(isUpper == 1, i, j))
  {
    var c0, c1, c2, c3;
    if isUpper == 1 {
      c0 := UpperIndex(w, i, j);
      c1 := UpperIndex(w, i, j + 1);
      c2 := UpperIndex(w, i + 1, j + 1);
      c3 := UpperIndex(w, i + 1, j);
    } else {
      c0 := LowerIndex(w, i, j + 1);
      c1 := LowerIndex(w, i, j);
      c2 := LowerIndex(w, i + 1, j);
      c3 := LowerIndex(w, i + 1, j + 1);
    }
    tri := [c3, c2, c1, c3, c1, c0];
  }

  /** Appending cell j of row i to cells 0..j-1 gives cells 0..j. */
  lemma SurfaceRowStep(w: Wing, isUpper: bool, i: int, j: nat, prefix: seq<int>, tri: seq<int>)
    requires tri == ResolveAll(w, SurfaceCellRefs(isUpper, i, j))
    ensures |tri| == 6
    ensures prefix + SurfaceRow(w, isUpper, i, j) + tri == prefix + SurfaceRow(w, isUpper, i, j + 1)
  {
    ConcatAssoc(prefix, SurfaceRow(w, isUpper, i, j), tri);
  }

  /** Row i of a surface extends rows 0..i-1 to rows 0..i, and they still fit. */
  lemma SurfaceStep(w: Wing, isUpper: bool, i: nat)
    requires MeshReady(w) && i < w.numPtsChord - 1
    ensures SurfaceRows(w, isUpper, i + 1) == SurfaceRows(w, isUpper, i) + SurfaceRow(w, isUpper, i, w.numPtsSpan - 1)
    ensures |SurfaceRow(w, isUpper, i, w.numPtsSpan - 1)| == 6 * (w.numPtsSpan - 1)
    ensures |SurfaceRows(w, isUpper, i + 1)| <= |SurfaceRows(w, isUpper, w.numPtsChord - 1)|
  {
    SurfaceRowsUnfold(w, isUpper, i);
    SurfaceRowLength(w, isUpper, i, w.numPtsSpan - 1);
    SurfaceRowsGrow(w, isUpper, i + 1, w.numPtsChord - 1);
  }

  lemma SurfaceRowsUnfold(w: Wing, isUpper: bool, i: nat)
    requires w.numPtsSpan >= 1
    ensures SurfaceRows(w, isUpper, i + 1) == SurfaceRows(w, isUpper, i) + SurfaceRow(w, isUpper, i, w.numPtsSpan - 1)
  {
  }

  lemma ConcatAssoc<T>(a: seq<T>, b: seq<T>, c: seq<T>)
    ensures a + b + c == a + (b + c)
  {
  }

  /** The rows emitted so far never outgrow the whole surface. */
  lemma {:induction false} SurfaceRowsGrow(w: Wing, isUpper: bool, a: nat, b: nat)
    requires w.numPtsSpan >= 1 && a <= b
    ensures |SurfaceRows(w, isUpper, a)| <= |SurfaceRows(w, isUpper, b)|
    decreases b
  {
    if a < b {
      SurfaceRowsGrow(w, isUpper, a, b - 1);
    }
  }

  /** `fill_upper_lower_indices`: two triangles per cell of each surface,
      upper surface first. */
  method FillUpperLowerIndices(w: Wing, k: int, inds: array<int>) returns (kOut: int)
    requires MeshReady(w)
    requires 0 <= k && k + 12 * (w.numPtsChord - 1) * (w.numPtsSpan - 1) <= inds.Length
    modifies inds
    ensures kOut == k + 12 * (w.numPtsChord - 1) * (w.numPtsSpan - 1)
    ensures inds[..kOut] == old(inds[..k]) + UpperLowerIndices(w)
    ensures forall n :: 0 <= n < inds.Length && !(k <= n < kOut) ==> inds[n] == old(inds[n])
  {
    UpperLowerLength(w);
    ghost var prefix := inds[..k];
    kOut := k;
    var isUpper := 1;
    while isUpper >= 0
      invariant -1 <= isUpper <= 1
      invariant kOut == k + |SurfacePasses(w, 1 - isUpper)|
      invariant inds[..kOut] == prefix + SurfacePasses(w, 1 - isUpper)
      invariant forall n :: 0 <= n < inds.Length && !(k <= n < kOut) ==> inds[n] == old(inds[n])
    {
      SurfacePassesStep(w, 1 - isUpper);
      ConcatAssoc(prefix, SurfacePasses(w, 1 - isUpper), SurfaceRows(w, isUpper == 1, w.numPtsChord - 1));
      kOut := FillSurface(w, isUpper, kOut, inds);
      isUpper := isUpper - 1;
    }
  }

  lemma SurfacePassesStep(w: Wing, pass: int)
    requires MeshReady(w) && 0 <= pass <= 1
    ensures SurfacePasses(w, pass + 1)
            == SurfacePasses(w, pass) + SurfaceRows(w, pass == 0, w.numPtsChord - 1)
  {
  }

  /** The wall passes done so far: none, the port wall, or both walls. */
  function WallPasses(w: Wing, passes: nat): seq<int>
    requires w.numPtsChord >= 1
  {
    if passes == 0 then []
    else if passes == 1 then WallRows(w, true, w.numPtsChord - 1)
    else PortStarIndices(w)
  }

  /** One wall: the loop over i of `fill_port_star_indices`. */
  method FillWall(w: Wing, isPort: int, k: int, inds: array<int>) returns (kOut: int)
    requires MeshReady(w) && 0 <= isPort <= 1
    requires 0 <= k && k + |WallRows(w, isPort == 1, w.numPtsChord - 1)| <= inds.Length
    modifies inds
    ensures kOut == k + |WallRows(w, isPort == 1, w.numPtsChord - 1)|
    ensures inds[..kOut] == old(inds[..k]) + WallRows(w, isPort == 1, w.numPtsChord - 1)
    ensures forall n :: 0 <= n < inds.Length && !(k <= n < kOut) ==> inds[n] == old(inds[n])
  {
    var R := w.numPtsChord;
    ghost var prefix := inds[..k];
    ghost var total := |WallRows(w, isPort == 1, R - 1)|;
    ghost var done: seq<int> := [];
    kOut := k;
    for i := 0 to R - 1
      invariant done == WallRows(w, isPort == 1, i)
      invariant |done| <= total
      invariant kOut == k + |done|
      invariant inds[..kOut] == prefix + done
      invariant forall n :: 0 <= n < inds.Length && !(k <= n < kOut) ==> inds[n] == old(inds[n])
    {
      var tri := WallRowTriangles(w, isPort, i);
      WallStep(w, isPort == 1, i, tri);
      ConcatAssoc(prefix, done, tri);
      kOut := EmitAfter(inds, kOut, tri);
      done := done + tri;
    }
  }

  /** The triangles of row i of one wall, as the body of the loop over i in
      `fill_port_star_indices` builds them. */
  method WallRowTriangles(w: Wing, isPort: int, i: int) returns (tri: seq<int>)
    requires MeshReady(w) && 0 <= isPort <= 1 && 0 <= i < w.numPtsChord - 1
    ensures tri == ResolveAll(w, WallRowRefs(w, isPort == 1, i))
  {
    var R, S := w.numPtsChord, w.numPtsSpan;
    var j := (1 - isPort) * (S - 1);
    var isLastRow := i == R - 2;
    if i == 0 {
      if isPort == 1 {
        tri := [UpperIndex(w, i, j), LowerIndex(w, i + 1, j), UpperIndex(w, i + 1, j)];
      } else {
        tri := [UpperIndex(w, i, j), UpperIndex(w, i + 1, j), LowerIndex(w, i + 1, j)];
      }
    } else if isLastRow && w.hasClosedTe {
      if isPort == 1 {
        tri := [LowerIndex(w, i + 1, j), UpperIndex(w, i, j), LowerIndex(w, i, j)];
      } else {
        tri := [LowerIndex(w, i + 1, j), LowerIndex(w, i, j), UpperIndex(w, i, j)];
      }
    } else {
      var c0, c1, c2, c3;
      if isPort == 1 {
        c0 := LowerIndex(w, i, j);
        c1 := LowerIndex(w, i + 1, j);
        c2 := UpperIndex(w, i + 1, j);
        c3 := UpperIndex(w, i, j);
      } else {
        c0 := LowerIndex(w, i + 1, j);
        c1 := LowerIndex(w, i, j);
        c2 := UpperIndex(w, i, j);
        c3 := UpperIndex(w, i + 1, j);
      }
      tri := [c0, c1, c2, c0, c2, c3];
    }
  }

  /** Row i of a wall extends rows 0..i-1 to rows 0..i, and they still fit. */
  lemma WallStep(w: Wing, isPort: bool, i: nat, tri: seq<int>)
    requires i < w.numPtsChord - 1
    requires tri == ResolveAll(w, WallRowRefs(w, isPort, i))
    ensures WallRows(w, isPort, i + 1) == WallRows(w, isPort, i) + tri
    ensures |WallRows(w, isPort, i + 1)| <= |WallRows(w, isPort, w.numPtsChord - 1)|
  {
    WallRowsGrow(w, isPort, i + 1, w.numPtsChord - 1);
  }

  /** The wall rows emitted so far never outgrow the whole wall. */
  lemma {:induction false} WallRowsGrow(w: Wing, isPort: bool, a: nat, b: nat)
    requires a <= b
    ensures |WallRows(w, isPort, a)| <= |WallRows(w, isPort, b)|
    decreases b
  {
    if a < b {
      WallRowsGrow(w, isPort, a, b - 1);
    }
  }

  /** `fill_port_star_indices`: the port wall (j = 0), then the starboard wall
      (j = S-1). */
  method FillPortStarIndices(w: Wing, k: int, inds: array<int>) returns (kOut: int)
    requires MeshReady(w)
    requires 0 <= k && k + 6 * (2 * w.numPtsChord - BoolToInt(w.hasClosedTe) - 3) <= inds.Length
    modifies inds
    ensures kOut == k + 6 * (2 * w.numPtsChord - BoolToInt(w.hasClosedTe) - 3)
    ensures inds[..kOut] == old(inds[..k]) + PortStarIndices(w)
    ensures forall n :: 0 <= n < inds.Length && !(k <= n < kOut) ==> inds[n] == old(inds[n])
  {
    PortStarLength(w);
    ghost var prefix := inds[..k];
    kOut := k;
    var isPort := 1;
    while isPort >= 0
      invariant -1 <= isPort <= 1
      invariant kOut == k + |WallPasses(w, 1 - isPort)|
      invariant inds[..kOut] == prefix + WallPasses(w, 1 - isPort)
      invariant forall n :: 0 <= n < inds.Length && !(k <= n < kOut) ==> inds[n] == old(inds[n])
    {
      assert WallPasses(w, 2 - isPort) == WallPasses(w, 1 - isPort) + WallRows(w, isPort == 1, w.numPtsChord - 1);
      ConcatAssoc(prefix, WallPasses(w, 1 - isPort), WallRows(w, isPort == 1, w.numPtsChord - 1));
      kOut := FillWall(w, isPort, kOut, inds);
      isPort := isPort - 1;
    }
  }

  /** `fill_aft_indices`: two triangles per spanwise cell across the open
      trailing edge. */
  method FillAftIndices(w: Wing, k: int, inds: array<int>) returns (kOut: int)
    requires MeshReady(w)
    requires 0 <= k && k + 6 * (w.numPtsSpan - 1) <= inds.Length
    modifies inds
    ensures kOut == k + 6 * (w.numPtsSpan - 1)
    ensures inds[..kOut] == old(inds[..k]) + AftIndices(w)
    ensures forall n :: 0 <= n < inds.Length && !(k <= n < kOut) ==> inds[n] == old(inds[n])
  {
    var i := w.numPtsChord - 1;
    ghost var prefix := inds[..k];
    kOut := k;
    for j := 0 to w.numPtsSpan - 1
      invariant kOut == k + 6 * j
      invariant inds[..kOut] == prefix + AftCells(w, j)
      invariant forall n :: 0 <= n < inds.Length && !(k <= n < kOut) ==> inds[n] == old(inds[n])
    {
      var c0 := LowerIndex(w, i, j);
      var c1 := LowerIndex(w, i, j + 1);
      var c2 := UpperIndex(w, i, j + 1);
      var c3 := UpperIndex(w, i, j);
      var tri := [c0, c1, c2, c0, c2, c3];
      assert tri == ResolveAll(w, AftCellRefs(w, j));
      ConcatAssoc(prefix, AftCells(w, j), tri);
      kOut := EmitAfter(inds, kOut, tri);
    }
  }

  /** `make_indices`: allocate 3 * get_num_tris indices and run the phases;
      the source's assertion that k / 3 equals get_num_tris is proved. */
  method MakeIndices(w: Wing) returns (indices: array<int>)
    requires MeshReady(w)
    ensures fresh(indices)
    ensures indices.Length == 3 * NumTris(w)
    ensures indices[..] == MeshIndices(w)
  {
    var k := 0;
    var numTris := NumTris(w);
    ghost var ul, ps, aft := PhaseSizes(w);
    indices := new int[3 * numTris];

    k := FillUpperLowerIndices(w, k, indices);
    assert indices[..k] == [] + UpperLowerIndices(w);
    k := FillPortStarIndices(w, k, indices);
    ghost var walls := UpperLowerIndices(w) + PortStarIndices(w);
    assert indices[..k] == walls;
    if !w.hasClosedTe {
      k := FillAftIndices(w, k, indices);
      assert indices[..k] == walls + AftIndices(w);
    } else {
      assert walls == MeshIndices(w);
    }

    assert k == ul + ps + (if w.hasClosedTe then 0 else aft);
    var numTrisCreated := k / 3;
    assert numTrisCreated == numTris;
    assert k == indices.Length;
  }

  // =====================================================================
  // Diagnostics

  /** `get_surface_area`: the planform area of both half-wings. */
  function SurfaceArea(w: Wing, trig: Trig): real
  {
    var dxLe := w.semiSpan * SweepTan(w.sweepLe, trig);
    var dxTe := w.semiSpan * SweepTan(w.sweepTe, trig);
    2.0 * w.rootChord * w.semiSpan + w.semiSpan * (dxTe - dxLe)
  }

  /** The area is that of two trapezoids between the root chord and the tip
      chord that make_pts uses at the last station. */
  lemma SurfaceAreaIsTrapezoids(w: Wing, trig: Trig)
    ensures SurfaceArea(w, trig)
            == w.semiSpan * (w.rootChord + LocalChord(w.rootChord, w.semiSpan, SweepTan(w.sweepLe, trig), SweepTan(w.sweepTe, trig)))
  {
  }

  /** `get_aspect_ratio`: (2 b)^2 / area, or 0 for a negligible area. */
  function AspectRatio(w: Wing, trig: Trig): (r: real)
    ensures SurfaceArea(w, trig) <= FLT_EPSILON ==> r == 0.0
    ensures SurfaceArea(w, trig) > FLT_EPSILON ==>
              r * SurfaceArea(w, trig) == (2.0 * w.semiSpan) * (2.0 * w.semiSpan) && r >= 0.0
  {
    var s := SurfaceArea(w, trig);
    var b := 2.0 * w.semiSpan;
    if s > FLT_EPSILON then
      assert b * b >= 0.0;
      b * b / s
    else 0.0
  }

  /** Entry i of the source's `sweep_angles` array. */
  function SweepAngle(w: Wing, i: int): real
  {
    if i == 0 then w.sweepLe else w.sweepTe
  }

  /** `tip_overlap`: the source compares the sweep complements in radians
      scaled by the semi-span, without taking their tangent. */
  function TipOverlap(w: Wing): bool
  {
    var offset0 := w.semiSpan * ToRadians(90.0 - w.sweepLe);
    var offset1 := w.semiSpan * ToRadians(90.0 - w.sweepTe);
    w.rootChord + offset1 <= offset0
  }

  /** The test fires exactly when the root chord is no longer than the
      semi-span times the sweep difference in radians. */
  lemma TipOverlapMeaning(w: Wing)
    ensures TipOverlap(w) <==> w.rootChord <= w.semiSpan * ((w.sweepTe - w.sweepLe) * PI_OVER_180)
  {
    assert w.semiSpan * ToRadians(90.0 - w.sweepLe) - w.semiSpan * ToRadians(90.0 - w.sweepTe)
           == w.semiSpan * ((w.sweepTe - w.sweepLe) * PI_OVER_180);
  }

  /** `tip_overlap` as the source computes it: the two offsets are filled in
      by a loop over the sweep angles. */
  method ComputeTipOverlap(w: Wing) returns (overlap: bool)
    ensures overlap == TipOverlap(w)
  {
    var offsets := new real[2];
    for i := 0 to 2
      invariant forall q :: 0 <= q < i ==> offsets[q] == w.semiSpan * ToRadians(90.0 - SweepAngle(w, q))
    {
      offsets[i] := w.semiSpan * ToRadians(90.0 - SweepAngle(w, i));
    }
    overlap := w.rootChord + offsets[1] <= offsets[0];
  }
}
