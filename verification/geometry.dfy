/** The index topology of resa_pro/geometry3d/engine.py: revolving a 2D
    contour (axial positions and radii) about the x-axis into a vertex grid
    of n_axial rings of n_circ vertices, two triangles per quad between
    neighbouring rings, optional fan caps at both ends, and the joining of
    a chamber contour with a nozzle contour. Cosine and sine are
    parameters. */
module Geometry {
  import opened Common

  datatype Vertex = Vertex(x: real, y: real, z: real)

  /** A triangle, as three indices into the vertex list. */
  datatype Face = Face(a: nat, b: nat, c: nat)

  datatype RevolutionMesh = RevolutionMesh(vertices: seq<Vertex>, faces: seq<Face>)

  type Trig = real -> real

  /** Radii at or below this value get no end cap. */
  const CAP_EPS: real := 0.0000000001

  const TWO_PI: real := 2.0 * PI

  lemma MulStep(a: int, n: int)
    ensures (a + 1) * n == a * n + n
  {
  }

  lemma {:induction false} MulLeMono(a: nat, b: nat, n: nat)
    requires a <= b
    ensures a * n <= b * n
    decreases b - a
  {
    if a < b {
      MulLeMono(a, b - 1, n);
      MulStep(b - 1, n);
    }
  }

  /** Angle j of `linspace(0, 2*pi, n, endpoint=False)`. */
  function Theta(j: nat, n: nat): real
    requires j < n
  {
    (j as real) * (TWO_PI / (n as real))
  }

  /** Vertex (i, j) of the grid: the station's axial position, the radius
      turned through angle j. */
  function RingVertex(x: real, r: real, j: nat, n: nat, cos: Trig, sin: Trig): Vertex
    requires j < n
  {
    Vertex(x, r * cos(Theta(j, n)), r * sin(Theta(j, n)))
  }

  /** The n vertices of one axial station. */
  function Ring(x: real, r: real, n: nat, cos: Trig, sin: Trig): (ring: seq<Vertex>)
    ensures |ring| == n
    ensures forall j :: 0 <= j < n ==> ring[j] == RingVertex(x, r, j, n, cos, sin)
  {
    seq(n, j requires 0 <= j < n => RingVertex(x, r, j, n, cos, sin))
  }

  /** The rings of the first `rows` stations, station after station. */
  function Rings(xs: seq<real>, ys: seq<real>, rows: nat, n: nat, cos: Trig, sin: Trig): seq<Vertex>
    requires rows <= |xs| && rows <= |ys|
  {
    if rows == 0 then []
    else Rings(xs, ys, rows - 1, n, cos, sin) + Ring(xs[rows - 1], ys[rows - 1], n, cos, sin)
  }

  /** The grid holds rows * n vertices. */
  lemma {:induction false} RingsLength(xs: seq<real>, ys: seq<real>, rows: nat, n: nat, cos: Trig, sin: Trig)
    requires rows <= |xs| && rows <= |ys|
    ensures |Rings(xs, ys, rows, n, cos, sin)| == rows * n
  {
    if rows > 0 {
      RingsLength(xs, ys, rows - 1, n, cos, sin);
      MulStep(rows - 1, n);
    }
  }

  /** Vertex (i, j) sits at index i * n + j, on station i's axial position
      and radius. */
  lemma {:induction false} RingsIndex(xs: seq<real>, ys: seq<real>, rows: nat, n: nat, cos: Trig, sin: Trig,
                                      i: nat, j: nat)
    requires rows <= |xs| && rows <= |ys|
    requires i < rows && j < n
    ensures i * n + j < |Rings(xs, ys, rows, n, cos, sin)|
    ensures Rings(xs, ys, rows, n, cos, sin)[i * n + j] == RingVertex(xs[i], ys[i], j, n, cos, sin)
    ensures Rings(xs, ys, rows, n, cos, sin)[i * n + j].x == xs[i]
  {
    RingsLength(xs, ys, rows - 1, n, cos, sin);
    RingsLength(xs, ys, rows, n, cos, sin);
    MulStep(rows - 1, n);
    if i < rows - 1 {
      RingsIndex(xs, ys, rows - 1, n, cos, sin, i, j);
      MulLeMono(i + 1, rows - 1, n);
      MulStep(i, n);
    }
  }

  /** The two triangles of quad (i, j): [v00, v10, v01] and [v01, v10, v11],
      the column after the last wrapping round to 0. */
  function QuadFaces(i: nat, j: nat, n: nat): (fs: seq<Face>)
    requires j < n
    ensures |fs| == 2
  {
    var jNext := (j + 1) % n;
    var v00, v01, v10, v11 := i * n + j, i * n + jNext, (i + 1) * n + j, (i + 1) * n + jNext;
    [Face(v00, v10, v01), Face(v01, v10, v11)]
  }

  /** The triangles of quads (i, 0) .. (i, cols - 1). */
  function QuadRow(i: nat, cols: nat, n: nat): (fs: seq<Face>)
    requires cols <= n
  {
    if cols == 0 then [] else QuadRow(i, cols - 1, n) + QuadFaces(i, cols - 1, n)
  }

  /** The triangles between the first rows + 1 stations, band after band. */
  function SideFaces(rows: nat, n: nat): seq<Face>
  {
    if rows == 0 then [] else SideFaces(rows - 1, n) + QuadRow(rows - 1, n, n)
  }

  lemma {:induction false} QuadRowIndex(i: nat, cols: nat, n: nat, j: nat)
    requires cols <= n && j < cols
    ensures |QuadRow(i, cols, n)| == 2 * cols
    ensures QuadRow(i, cols, n)[2 * j] == QuadFaces(i, j, n)[0]
    ensures QuadRow(i, cols, n)[2 * j + 1] == QuadFaces(i, j, n)[1]
  {
    QuadRowLength(i, cols - 1, n);
    if j < cols - 1 {
      QuadRowIndex(i, cols - 1, n, j);
    }
  }

  lemma {:induction false} QuadRowLength(i: nat, cols: nat, n: nat)
    requires cols <= n
    ensures |QuadRow(i, cols, n)| == 2 * cols
  {
    if cols > 0 {
      QuadRowLength(i, cols - 1, n);
    }
  }

  lemma {:induction false} SideFacesLength(rows: nat, n: nat)
    ensures |SideFaces(rows, n)| == 2 * (rows * n)
  {
    if rows > 0 {
      SideFacesLength(rows - 1, n);
      QuadRowLength(rows - 1, n, n);
      MulStep(rows - 1, n);
    }
  }

  /** Quad (i, j) contributes faces 2(i n + j) and 2(i n + j) + 1, which are
      [v00, v10, v01] and [v01, v10, v11]. */
  lemma {:induction false} SideFacesIndex(rows: nat, n: nat, i: nat, j: nat)
    requires i < rows && j < n
    ensures 2 * (i * n + j) + 1 < |SideFaces(rows, n)|
    ensures SideFaces(rows, n)[2 * (i * n + j)] == Face(i * n + j, (i + 1) * n + j, i * n + (j + 1) % n)
    ensures SideFaces(rows, n)[2 * (i * n + j) + 1] ==
              Face(i * n + (j + 1) % n, (i + 1) * n + j, (i + 1) * n + (j + 1) % n)
  {
    SideFacesLength(rows - 1, n);
    MulStep(rows - 1, n);
    if i < rows - 1 {
      SideFacesIndex(rows - 1, n, i, j);
    } else {
      QuadRowIndex(i, n, n, j);
    }
  }

  /** Every index of every face is below nv. */
  predicate WithinBounds(fs: seq<Face>, nv: nat)
  {
    forall k :: 0 <= k < |fs| ==> fs[k].a < nv && fs[k].b < nv && fs[k].c < nv
  }

  lemma WithinBoundsAppend(f1: seq<Face>, f2: seq<Face>, nv: nat)
    requires WithinBounds(f1, nv) && WithinBounds(f2, nv)
    ensures WithinBounds(f1 + f2, nv)
  {
    forall k | 0 <= k < |f1 + f2|
      ensures (f1 + f2)[k].a < nv && (f1 + f2)[k].b < nv && (f1 + f2)[k].c < nv
    {
      if k >= |f1| {
        assert (f1 + f2)[k] == f2[k - |f1|];
      }
    }
  }

  lemma {:induction false} QuadRowWithin(i: nat, cols: nat, n: nat)
    requires cols <= n
    ensures WithinBounds(QuadRow(i, cols, n), (i + 2) * n)
  {
    if cols > 0 {
      QuadRowWithin(i, cols - 1, n);
      var j := cols - 1;
      MulStep(i + 1, n);
      MulStep(i, n);
      WithinBoundsAppend(QuadRow(i, cols - 1, n), QuadFaces(i, j, n), (i + 2) * n);
    }
  }

  lemma WithinBoundsMono(fs: seq<Face>, nv: nat, nv': nat)
    requires WithinBounds(fs, nv) && nv <= nv'
    ensures WithinBounds(fs, nv')
  {
  }

  /** The side triangles of rows bands only use the (rows + 1) * n grid
      vertices. */
  lemma {:induction false} SideFacesWithin(rows: nat, n: nat)
    ensures WithinBounds(SideFaces(rows, n), (rows + 1) * n)
  {
    if rows > 0 {
      SideFacesWithin(rows - 1, n);
      QuadRowWithin(rows - 1, n, n);
      MulStep(rows, n);
      WithinBoundsMono(SideFaces(rows - 1, n), rows * n, (rows + 1) * n);
      WithinBoundsAppend(SideFaces(rows - 1, n), QuadRow(rows - 1, n, n), (rows + 1) * n);
    }
  }

  /** The front cap's first `cols` fan triangles [centre, j_next, j]
      (inward facing). */
  function FrontFan(centre: nat, cols: nat, n: nat): seq<Face>
    requires cols <= n
  {
    if cols == 0 then [] else FrontFan(centre, cols - 1, n) + [Face(centre, cols % n, cols - 1)]
  }

  /** The rear cap's first `cols` fan triangles [centre, ring + j,
      ring + j_next]. */
  function RearFan(centre: nat, ring: nat, cols: nat, n: nat): seq<Face>
    requires cols <= n
  {
    if cols == 0 then [] else RearFan(centre, ring, cols - 1, n) + [Face(centre, ring + cols - 1, ring + cols % n)]
  }

  /** A fan has one triangle per column, each through the centre and two
      neighbouring rim vertices of the ring. */
  lemma {:induction false} FanShape(centre: nat, ring: nat, cols: nat, n: nat)
    requires cols <= n
    ensures |FrontFan(centre, cols, n)| == cols && |RearFan(centre, ring, cols, n)| == cols
    ensures forall j :: 0 <= j < cols ==> FrontFan(centre, cols, n)[j] == Face(centre, (j + 1) % n, j)
    ensures forall j :: 0 <= j < cols ==>
              RearFan(centre, ring, cols, n)[j] == Face(centre, ring + j, ring + (j + 1) % n)
  {
    if cols > 0 {
      FanShape(centre, ring, cols - 1, n);
    }
  }

  /** A fan round the ring starting at `ring` uses only the ring and the
      centre. */
  lemma {:induction false} FansWithin(centre: nat, ring: nat, cols: nat, n: nat, nv: nat)
    requires cols <= n && centre < nv && ring + n <= nv
    ensures WithinBounds(FrontFan(centre, cols, n), nv)
    ensures WithinBounds(RearFan(centre, ring, cols, n), nv)
  {
    if cols > 0 {
      FansWithin(centre, ring, cols - 1, n, nv);
    }
  }

  lemma {:induction false} FanLength(centre: nat, ring: nat, cols: nat, n: nat)
    requires cols <= n
    ensures |FrontFan(centre, cols, n)| == cols && |RearFan(centre, ring, cols, n)| == cols
  {
    if cols > 0 {
      FanLength(centre, ring, cols - 1, n);
    }
  }

  /** Whether `revolve_contour` caps the front and the rear. */
  predicate FrontCap(ys: seq<real>, closeEnds: bool)
  {
    closeEnds && |ys| > 0 && ys[0] > CAP_EPS
  }

  predicate RearCap(ys: seq<real>, closeEnds: bool)
  {
    closeEnds && |ys| > 0 && ys[|ys| - 1] > CAP_EPS
  }

  /** The number of quad bands: n_axial - 1, none for an empty contour. */
  function Bands(nAxial: nat): nat
  {
    if nAxial == 0 then 0 else nAxial - 1
  }

  /** The mesh `revolve_contour` builds: the grid, then the front centre,
      then the rear centre; the side triangles, then the front fan, then
      the rear fan. */
  function Revolution(xs: seq<real>, ys: seq<real>, n: nat, closeEnds: bool, cos: Trig, sin: Trig): RevolutionMesh
    requires |ys| >= |xs|
    requires closeEnds ==> |xs| > 0
  {
    var grid := |xs| * n;
    var front := FrontCap(ys, closeEnds);
    var rear := RearCap(ys, closeEnds);
    var rearCentre := grid + (if front then 1 else 0);
    RevolutionMesh(
      Rings(xs, ys, |xs|, n, cos, sin) +
      (if front then [Vertex(xs[0], 0.0, 0.0)] else []) +
      (if rear then [Vertex(xs[|xs| - 1], 0.0, 0.0)] else []),
      SideFaces(Bands(|xs|), n) +
      (if front then FrontFan(grid, n, n) else []) +
      (if rear then RearFan(rearCentre, (|xs| - 1) * n, n, n) else []))
  }

  /** Without caps there are n_axial n_circ vertices and 2 (n_axial - 1)
      n_circ triangles; each cap adds one vertex and n_circ triangles. */
  lemma RevolutionCounts(xs: seq<real>, ys: seq<real>, n: nat, closeEnds: bool, cos: Trig, sin: Trig)
    requires |ys| >= |xs|
    requires closeEnds ==> |xs| > 0
    ensures var m := Revolution(xs, ys, n, closeEnds, cos, sin);
            var front := FrontCap(ys, closeEnds);
            var rear := RearCap(ys, closeEnds);
            |m.vertices| == |xs| * n + (if front then 1 else 0) + (if rear then 1 else 0) &&
            |m.faces| == 2 * (Bands(|xs|) * n) + (if front then n else 0) + (if rear then n else 0)
  {
    RingsLength(xs, ys, |xs|, n, cos, sin);
    SideFacesLength(Bands(|xs|), n);
    var grid := |xs| * n;
    FanLength(grid, 0, n, n);
    if |xs| > 0 {
      FanLength(grid + (if FrontCap(ys, closeEnds) then 1 else 0), (|xs| - 1) * n, n, n);
    }
  }

  /** The face list is non-empty: there is at least one column, and either
      a band of side wall or a closed cap. `revolve_contour` passes its face
      list to `_compute_face_normals`, which indexes its columns and raises
      IndexError on an empty list. */
  predicate HasFaces(xs: seq<real>, ys: seq<real>, n: nat, closeEnds: bool)
  {
    n > 0 && (|xs| > 1 || FrontCap(ys, closeEnds) || RearCap(ys, closeEnds))
  }

  /** The mesh has a face exactly when HasFaces holds. */
  lemma RevolutionHasFacesIff(xs: seq<real>, ys: seq<real>, n: nat, closeEnds: bool, cos: Trig, sin: Trig)
    requires |ys| >= |xs|
    requires closeEnds ==> |xs| > 0
    ensures |Revolution(xs, ys, n, closeEnds, cos, sin).faces| > 0 <==> HasFaces(xs, ys, n, closeEnds)
  {
    RevolutionCounts(xs, ys, n, closeEnds, cos, sin);
    if Bands(|xs|) > 0 {
      MulLeMono(1, Bands(|xs|), n);
    }
  }

  /** Every face of the mesh indexes an existing vertex. */
  lemma RevolutionWellFormed(xs: seq<real>, ys: seq<real>, n: nat, closeEnds: bool, cos: Trig, sin: Trig)
    requires |ys| >= |xs|
    requires closeEnds ==> |xs| > 0
    ensures var m := Revolution(xs, ys, n, closeEnds, cos, sin);
            WithinBounds(m.faces, |m.vertices|)
  {
    var m := Revolution(xs, ys, n, closeEnds, cos, sin);
    var front := FrontCap(ys, closeEnds);
    var rear := RearCap(ys, closeEnds);
    var grid := |xs| * n;
    var rearCentre := grid + (if front then 1 else 0);
    RingsLength(xs, ys, |xs|, n, cos, sin);
    var nv := |m.vertices|;
    assert grid <= nv;
    var bands := Bands(|xs|);
    SideFacesWithin(bands, n);
    var sides := SideFaces(bands, n);
    if |xs| > 0 {
      assert bands + 1 == |xs|;
      WithinBoundsMono(sides, (bands + 1) * n, nv);
    } else {
      assert sides == [];
    }
    var frontFan: seq<Face> := if front then FrontFan(grid, n, n) else [];
    var rearFan: seq<Face> := if rear then RearFan(rearCentre, (|xs| - 1) * n, n, n) else [];
    if front {
      FansWithin(grid, 0, n, n, nv);
    }
    if rear {
      MulStep(|xs| - 1, n);
      FansWithin(rearCentre, (|xs| - 1) * n, n, n, nv);
    }
    WithinBoundsAppend(sides, frontFan, nv);
    WithinBoundsAppend(sides + frontFan, rearFan, nv);
  }

  /** The vertex grid, written into a zero-filled array station by station
      at index i * n + j. */
  method VertexGrid(xs: seq<real>, ys: seq<real>, n: nat, cos: Trig, sin: Trig) returns (vs: array<Vertex>)
    requires |ys| >= |xs|
    ensures fresh(vs)
    ensures vs[..] == Rings(xs, ys, |xs|, n, cos, sin)
  {
    var nAxial := |xs|;
    RingsLength(xs, ys, nAxial, n, cos, sin);
    vs := new Vertex[nAxial * n](_ => Vertex(0.0, 0.0, 0.0));
    for i := 0 to nAxial
      invariant i * n <= vs.Length == nAxial * n
      invariant vs[..i * n] == Rings(xs, ys, i, n, cos, sin)
    {
      MulStep(i, n);
      MulLeMono(i + 1, nAxial, n);
      WriteRing(vs, i * n, xs[i], ys[i], n, cos, sin);
    }
    assert vs[..] == vs[..nAxial * n];
  }

  /** The inner loop of the grid: the ring of one station written at
      base + j, leaving the entries before base as they were. */
  method WriteRing(vs: array<Vertex>, base: nat, x: real, r: real, n: nat, cos: Trig, sin: Trig)
    requires base + n <= vs.Length
    modifies vs
    ensures vs[..base + n] == old(vs[..base]) + Ring(x, r, n, cos, sin)
  {
    ghost var done := vs[..base];
    ghost var ring := Ring(x, r, n, cos, sin);
    for j := 0 to n
      invariant vs[..base + j] == done + ring[..j]
    {
      vs[base + j] := RingVertex(x, r, j, n, cos, sin);
      assert vs[..base + j + 1] == vs[..base + j] + [vs[base + j]];
      assert ring[..j + 1] == ring[..j] + [ring[j]];
    }
    assert ring[..n] == ring;
  }

  /** The side triangles, appended quad by quad. */
  method SideTriangles(nAxial: nat, n: nat) returns (faces: seq<Face>)
    ensures faces == SideFaces(Bands(nAxial), n)
  {
    faces := [];
    for i := 0 to Bands(nAxial)
      invariant faces == SideFaces(i, n)
    {
      for j := 0 to n
        invariant faces == SideFaces(i, n) + QuadRow(i, j, n)
      {
        var jNext := (j + 1) % n;
        var v00 := i * n + j;
        var v01 := i * n + jNext;
        var v10 := (i + 1) * n + j;
        var v11 := (i + 1) * n + jNext;
        faces := faces + [Face(v00, v10, v01)];
        faces := faces + [Face(v01, v10, v11)];
        assert [Face(v00, v10, v01), Face(v01, v10, v11)] == QuadFaces(i, j, n);
      }
    }
  }

  /** `revolve_contour`: the grid, the side triangles, and the caps of the
      ends whose radius exceeds 1e-10 when `close_ends` is set. */
  method RevolveContour(xs: seq<real>, ys: seq<real>, n: nat, closeEnds: bool, cos: Trig, sin: Trig)
    returns (mesh: RevolutionMesh)
    requires |ys| >= |xs|
    requires closeEnds ==> |xs| > 0
    requires HasFaces(xs, ys, n, closeEnds)
    ensures mesh == Revolution(xs, ys, n, closeEnds, cos, sin)
    ensures |mesh.faces| > 0
  {
    RevolutionHasFacesIff(xs, ys, n, closeEnds, cos, sin);
    var nAxial := |xs|;
    var grid := VertexGrid(xs, ys, n, cos, sin);
    var vertices := grid[..];
    var faces := SideTriangles(nAxial, n);
    RingsLength(xs, ys, nAxial, n, cos, sin);
    if closeEnds {
      if ys[0] > CAP_EPS {
        var centreFront := |vertices|;
        vertices := vertices + [Vertex(xs[0], 0.0, 0.0)];
        faces := AppendFrontFan(faces, centreFront, n);
      }
      if ys[|ys| - 1] > CAP_EPS {
        var centreRear := |vertices|;
        vertices := vertices + [Vertex(xs[|xs| - 1], 0.0, 0.0)];
        faces := AppendRearFan(faces, centreRear, (nAxial - 1) * n, n);
      }
    }
    mesh := RevolutionMesh(vertices, faces);
  }

  /** The front cap's loop: a fan of n triangles around the front centre. */
  method AppendFrontFan(faces: seq<Face>, centre: nat, n: nat) returns (r: seq<Face>)
    ensures r == faces + FrontFan(centre, n, n)
  {
    r := faces;
    for j := 0 to n
      invariant r == faces + FrontFan(centre, j, n)
    {
      var jNext := (j + 1) % n;
      r := r + [Face(centre, jNext, j)];
    }
  }

  /** The rear cap's loop: a fan of n triangles joining the rear centre to
      the last ring, which starts at vertex `ring`. */
  method AppendRearFan(faces: seq<Face>, centre: nat, ring: nat, n: nat) returns (r: seq<Face>)
    ensures r == faces + RearFan(centre, ring, n, n)
  {
    r := faces;
    for j := 0 to n
      invariant r == faces + RearFan(centre, ring, j, n)
    {
      var jNext := (j + 1) % n;
      r := r + [Face(centre, ring + j, ring + jNext)];
    }
  }

  // ---------------------------------------------------------------------
  // Contour joining
  // ---------------------------------------------------------------------

  /** The nozzle values after the first, each shifted by `offset`. */
  function ShiftTail(s: seq<real>, offset: real): (r: seq<real>)
    ensures |r| == (if |s| == 0 then 0 else |s| - 1)
    ensures forall k :: 0 <= k < |r| ==> r[k] == s[k + 1] + offset
  {
    if |s| <= 1 then [] else seq(|s| - 1, k requires 0 <= k < |s| - 1 => s[k + 1] + offset)
  }

  /** `combine_contours`: the chamber contour, then the nozzle contour
      without its throat point, its x shifted to start at the chamber's
      last x. */
  function CombineContours(chamberX: seq<real>, chamberY: seq<real>, nozzleX: seq<real>, nozzleY: seq<real>)
    : (r: (seq<real>, seq<real>))
    requires |chamberX| > 0
    ensures |r.0| == |chamberX| + (if |nozzleX| == 0 then 0 else |nozzleX| - 1)
    ensures |r.1| == |chamberY| + (if |nozzleY| == 0 then 0 else |nozzleY| - 1)
    ensures r.0[..|chamberX|] == chamberX && r.1[..|chamberY|] == chamberY
    ensures forall k :: 1 <= k < |nozzleX| ==>
              r.0[|chamberX| + k - 1] == nozzleX[k] + chamberX[|chamberX| - 1]
    ensures forall k :: 1 <= k < |nozzleY| ==> r.1[|chamberY| + k - 1] == nozzleY[k]
  {
    var throatX := chamberX[|chamberX| - 1];
    (chamberX + ShiftTail(nozzleX, throatX), chamberY + ShiftTail(nozzleY, 0.0))
  }

  predicate NonDecreasing(s: seq<real>)
  {
    forall k :: 0 < k < |s| ==> s[k - 1] <= s[k]
  }

  /** Non-decreasing chamber x and non-decreasing nozzle x starting at or
      after the throat give a non-decreasing combined x. */
  lemma CombinedMonotone(chamberX: seq<real>, chamberY: seq<real>, nozzleX: seq<real>, nozzleY: seq<real>)
    requires |chamberX| > 0
    requires NonDecreasing(chamberX) && NonDecreasing(nozzleX)
    requires |nozzleX| > 0 ==> nozzleX[0] >= 0.0
    ensures NonDecreasing(CombineContours(chamberX, chamberY, nozzleX, nozzleY).0)
  {
    var x := CombineContours(chamberX, chamberY, nozzleX, nozzleY).0;
    var c := |chamberX|;
    forall k | 0 < k < |x|
      ensures x[k - 1] <= x[k]
    {
      if k < c {
        assert x[k - 1] == chamberX[k - 1] && x[k] == chamberX[k];
      } else if k == c {
        assert x[k - 1] == chamberX[c - 1];
        assert x[k] == nozzleX[1] + chamberX[c - 1];
      } else {
        assert x[k - 1] == nozzleX[k - c] + chamberX[c - 1];
        assert x[k] == nozzleX[k - c + 1] + chamberX[c - 1];
      }
    }
  }
}
