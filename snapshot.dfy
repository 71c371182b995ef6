/** The single-file snapshot wingstl.c: the same mesh engine as src/engine.c
    with its inputs fixed at compile time. Its index maps, counts and
    `fill_*_indices` functions are those of the Engine module; what differs is
    the fixed wing and a vertex formula without unit conversion. */
module Snapshot {
  import opened Types
  import opened Utils
  import opened Engine

  /** The wing that `main` builds from the compile-time defaults: a NACA
      0012 section, semi-span 6, root chord 1, sweeps of 80 and 85 degrees,
      cosine spacing, an open trailing edge, 1 spanwise and 19 chordwise
      panels. The snapshot has no units; Meters makes conversion a no-op. */
  const DefaultWing: Wing := Wing(Meters, NACA4Digit(0, 0, 12), 2, 20, 6.0, 1.0, 80.0, 85.0, false, true)

  /** The default wing meshes, with 78 vertices and 152 triangles; closing
      its trailing edge would give 76 and 148. */
  lemma DefaultCounts()
    ensures MeshReady(DefaultWing) && DefaultWing.airfoil.p != 10
    ensures NumPts(DefaultWing) == 78 && NumTris(DefaultWing) == 152
    ensures var closed := DefaultWing.(hasClosedTe := true);
            MeshReady(closed) && NumPts(closed) == 76 && NumTris(closed) == 148
  {
    var closed := DefaultWing.(hasClosedTe := true);
    assert NumPts(closed) == 2 * (2 * 20 - 1 - 1);
    assert NumTris(DefaultWing) == 2 * (19 * 1 * 2 + (2 * 20 - 0 - 3)) + 1 * 1 * 2;
  }

  /** The vertex that wingstl.c's `make_pts` stores for grid point g: the
      engine's formula with the local chord written through the tangent
      difference and no unit conversion. */
  function SnapshotVertex(w: Wing, trig: Trig, g: GridRef): Vec3
    requires w.numPtsSpan >= 2 && w.numPtsChord >= 2 && w.airfoil.p != 10
  {
    var tanLeading := SweepTan(w.sweepLe, trig);
    var tanDifference := SweepTan(w.sweepTe, trig) - tanLeading;
    SnapshotPlace(SectionPoint(w, trig, g), SpanStation(w, g.j), w.rootChord, tanLeading, tanDifference)
  }

  /** The placement of a section point in wingstl.c's `make_pts`. */
  function SnapshotPlace(section: Vec2, y: real, rootChord: real, tanLeading: real, tanDifference: real): Vec3
  {
    var dxLeading := y * tanLeading;
    var localChord := rootChord + y * tanDifference;
    Vec3(section.x * localChord + dxLeading, y, section.y * localChord)
  }

  /** For a wing in metres the snapshot and the engine compute the same
      vertex. */
  lemma SnapshotVertexAgrees(w: Wing, trig: Trig, g: GridRef)
    requires w.numPtsSpan >= 2 && w.numPtsChord >= 2 && w.airfoil.p != 10
    requires w.units == Meters
    ensures SnapshotVertex(w, trig, g) == GridVertex(w, trig, g)
  {
    var tanLeading, tanTrailing := SweepTan(w.sweepLe, trig), SweepTan(w.sweepTe, trig);
    SnapshotPlaceAgrees(SectionPoint(w, trig, g), SpanStation(w, g.j), w.rootChord, tanLeading, tanTrailing);
  }

  /** The two placements agree in metres: the tangent difference distributes. */
  lemma SnapshotPlaceAgrees(section: Vec2, y: real, rootChord: real, tanLe: real, tanTe: real)
    ensures SnapshotPlace(section, y, rootChord, tanLe, tanTe - tanLe) == Place(section, y, rootChord, tanLe, tanTe, Meters)
  {
    assert rootChord + y * (tanTe - tanLe) == rootChord + y * tanTe - y * tanLe;
  }

  /** wingstl.c's `make_pts`: every slot of the vertex buffer holds the
      snapshot vertex of the grid point that owns it. */
  method SnapshotMakePts(w: Wing, trig: Trig) returns (pts: array<Vec3>)
    requires MeshReady(w) && w.airfoil.p != 10 && w.units == Meters
    ensures fresh(pts)
    ensures pts.Length == NumPts(w)
    ensures forall s :: 0 <= s < pts.Length ==> pts[s] == SnapshotVertex(w, trig, SlotOwner(w, s))
  {
    pts := MakePts(w, trig);
    forall s | 0 <= s < pts.Length
      ensures pts[s] == SnapshotVertex(w, trig, SlotOwner(w, s))
    {
      SnapshotVertexAgrees(w, trig, SlotOwner(w, s));
    }
  }

  /** The default section is symmetric: with no camber the mean line is the
      chord and its slope is zero everywhere. */
  lemma DefaultSectionSymmetric(x: real)
    ensures Camber(x, DefaultWing.airfoil.m as real / 100.0, DefaultWing.airfoil.p as real / 10.0) == 0.0
    ensures Gradient(x, DefaultWing.airfoil.m as real / 100.0, DefaultWing.airfoil.p as real / 10.0) == 0.0
  {
  }
}
