/**
 * The building extruder of osmwave.cxx (class ObjHandler): every outer ring
 * of an area tagged `building` becomes a prism: one wall quad between each
 * pair of consecutive nodes, from the ring's lowest ground elevation plus
 * the base height up to the building height, and one flat roof polygon
 * over the ring's top vertices.
 *
 * A ring's projected coordinates are an interleaved buffer
 * [x0, y0, x1, y1, ...]; node k's bottom vertex is written as
 * (y_k, elevation, x_k) and its top vertex as (y_k, elevation + height, x_k).
 * Wall and roof indices are batch-relative and shifted by the writer's
 * offset, which the wall writer checkpoints at the ring's first vertex.
 */
module Buildings {
  import opened Wrappers
  import opened Obj
  import opened HeightTags
  import opened Projection
  import opened ElevationTiles

  /** A node reference of a ring, in degrees. */
  datatype NodeRef = NodeRef(lon: real, lat: real)

  /** numeric_limits<double>::max(), the start value of the ground search. */
  const DoubleMax: real := 179769313486231570814527423731704356798070567525844996598917476803157260780028538760589558632766878171540458953514382464234321326889464182768467546703537516986049910576551282076245490090389328944075868508455133942304583236903222948165808559332123348274797826204144723168738177180919299881250404026184124858368.0

  /** The default of ObjHandler's defaultBuildingHeight argument. */
  const DefaultBuildingHeight: real := 8.0

  /** std::min(a, b): b when b < a, otherwise a. */
  function StdMin(a: real, b: real): (r: real)
    ensures r <= a && r <= b
    ensures r == a || r == b
  {
    if b < a then b else a
  }

  /** The ground level of a ring: the least elevation of its nodes, folded
      from DoubleMax with std::min in node order. */
  function MinElevation(elevations: seq<real>): (r: real)
    ensures r <= DoubleMax
  {
    if elevations == [] then DoubleMax
    else StdMin(MinElevation(elevations[..|elevations| - 1]), elevations[|elevations| - 1])
  }

  /** The fold is the least of DoubleMax and the elevations: no elevation
      is below it, and it is one of them unless it is still DoubleMax. */
  lemma {:induction false} MinElevationIsLeast(elevations: seq<real>)
    ensures forall e :: e in elevations ==> MinElevation(elevations) <= e
    ensures MinElevation(elevations) == DoubleMax || MinElevation(elevations) in elevations
  {
    if elevations != [] {
      var init := elevations[..|elevations| - 1];
      MinElevationIsLeast(init);
      assert elevations == init + [elevations[|elevations| - 1]];
    }
  }

  /** The fold's step: one more elevation is folded in with std::min. */
  lemma {:induction false} MinElevationAppend(elevations: seq<real>, e: real)
    ensures MinElevation(elevations + [e]) == StdMin(MinElevation(elevations), e)
  {
    assert (elevations + [e])[..|elevations|] == elevations;
  }

  /** The buffer the node loop fills: each node's longitude then latitude,
      in radians. */
  function RadianCoords(nodes: seq<NodeRef>): (r: seq<real>)
    ensures |r| == 2 * |nodes|
  {
    if nodes == [] then []
    else
      var last := nodes[|nodes| - 1];
      RadianCoords(nodes[..|nodes| - 1]) + [last.lon * DegToRad, last.lat * DegToRad]
  }

  /** The node loop's step: node k appends its longitude and latitude. */
  lemma {:induction false} RadianCoordsStep(nodes: seq<NodeRef>, k: nat)
    requires k < |nodes|
    ensures RadianCoords(nodes[..k + 1]) == RadianCoords(nodes[..k]) + [nodes[k].lon * DegToRad, nodes[k].lat * DegToRad]
  {
    assert nodes[..k + 1][..k] == nodes[..k];
  }

  /** Node k's pair in the buffer is its longitude and latitude in radians. */
  lemma {:induction false} RadianCoordsPair(nodes: seq<NodeRef>, k: nat)
    requires k < |nodes|
    ensures RadianCoords(nodes)[2 * k] == nodes[k].lon * DegToRad
    ensures RadianCoords(nodes)[2 * k + 1] == nodes[k].lat * DegToRad
  {
    var init := nodes[..|nodes| - 1];
    if k < |init| {
      RadianCoordsPair(init, k);
    }
  }

  /** The ring's projected buffer: each node's pair is the projection of
      its longitude and latitude in radians. */
  function ProjectNodes(project: Projector, nodes: seq<NodeRef>): (r: seq<real>)
    ensures |r| == 2 * |nodes|
  {
    if nodes == [] then []
    else
      var last := nodes[|nodes| - 1];
      var p := project(last.lon * DegToRad, last.lat * DegToRad);
      ProjectNodes(project, nodes[..|nodes| - 1]) + [p.0, p.1]
  }

  /** Projecting the radian buffer in place, as pj_transform does, gives
      each node's projected pair at the node's position. */
  lemma {:induction false} ProjectNodesIsTransform(project: Projector, nodes: seq<NodeRef>)
    ensures |RadianCoords(nodes)| % 2 == 0
    ensures ProjectNodes(project, nodes) == Transform(project, RadianCoords(nodes))
  {
    var coords := RadianCoords(nodes);
    assert |coords| == 2 * |nodes|;
    if nodes != [] {
      var init := nodes[..|nodes| - 1];
      var n := |coords|;
      assert coords[..n - 2] == RadianCoords(init);
      ProjectNodesIsTransform(project, init);
    }
  }

  /** The total number of nodes of some rings. */
  function NodesBefore(rings: seq<seq<NodeRef>>, r: nat): nat
    requires r <= |rings|
  {
    if r == 0 then 0 else NodesBefore(rings, r - 1) + |rings[r - 1]|
  }

  /** Node k's wall foot. */
  function Bottom(coords: seq<real>, k: nat, elevation: real): Vec3
    requires 2 * k + 1 < |coords|
  {
    Vec3(coords[2 * k + 1], elevation, coords[2 * k])
  }

  /** Node k's wall top (and roof corner). */
  function Top(coords: seq<real>, k: nat, elevation: real, height: real): (top: Vec3)
    requires 2 * k + 1 < |coords|
    ensures var foot := Bottom(coords, k, elevation);
            top.x == foot.x && top.z == foot.z && top.y == foot.y + height
  {
    Vec3(coords[2 * k + 1], elevation + height, coords[2 * k])
  }

  /** The wall quad ringWalls emits once vertexCount has reached 2k: the
      batch-relative corners 2k-2, 2k, 2k+1, 2k-1, shifted by the offset. */
  function Quad(k: nat, offset: int): seq<int>
  {
    [2 * k - 2 + offset, 2 * k + offset, 2 * k + 1 + offset, 2 * k - 1 + offset]
  }

  /** What ringWalls writes for node k. */
  function PairLines(coords: seq<real>, k: nat, elevation: real, height: real, offset: int): seq<Line>
    requires 2 * k + 1 < |coords|
  {
    [Vertex(Bottom(coords, k, elevation)), Vertex(Top(coords, k, elevation, height))]
      + (if k != 0 then [Face(Quad(k, offset))] else [])
  }

  /** What ringWalls writes for the first n nodes. */
  function WallLines(coords: seq<real>, n: nat, elevation: real, height: real, offset: int): seq<Line>
    requires 2 * n <= |coords|
  {
    if n == 0 then []
    else WallLines(coords, n - 1, elevation, height, offset) + PairLines(coords, n - 1, elevation, height, offset)
  }

  /** The index list flatRoof gives its face: 2i + 1 for every node i,
      shifted by the offset. */
  function RoofFace(n: nat, offset: int): (r: seq<int>)
    ensures |r| == n
    ensures forall i :: 0 <= i < n ==> r[i] == 2 * i + 1 + offset
  {
    if n == 0 then [] else RoofFace(n - 1, offset) + [2 * (n - 1) + 1 + offset]
  }

  /** Everything one ring adds: its walls, then its roof. */
  function RingLines(coords: seq<real>, n: nat, elevation: real, height: real, offset: int): seq<Line>
    requires |coords| == 2 * n
  {
    WallLines(coords, n, elevation, height, offset) + [Face(RoofFace(n, offset))]
  }

  /** The walls of n nodes are two vertices per node and one quad per node
      after the first. */
  lemma {:induction false} WallLinesLength(coords: seq<real>, n: nat, elevation: real, height: real, offset: int)
    requires 2 * n <= |coords|
    ensures |WallLines(coords, n, elevation, height, offset)| == if n == 0 then 0 else 3 * n - 1
  {
    if n > 0 {
      WallLinesLength(coords, n - 1, elevation, height, offset);
    }
  }

  /** A ring's records are its walls and then its roof face, 3n in all
      (one for an empty ring). */
  lemma {:induction false} RingLinesLength(coords: seq<real>, n: nat, elevation: real, height: real, offset: int)
    requires |coords| == 2 * n
    ensures var r := RingLines(coords, n, elevation, height, offset);
            && |r| == (if n == 0 then 1 else 3 * n)
            && r[|r| - 1] == Face(RoofFace(n, offset))
  {
    WallLinesLength(coords, n, elevation, height, offset);
  }

  /** The walls followed by the roof face make up the ring's records. */
  lemma {:induction false} RoofAfterWalls(start: seq<Line>, coords: seq<real>, n: nat, elevation: real, height: real, offset: int,
                       walled: seq<Line>, out: seq<Line>)
    requires |coords| == 2 * n
    requires walled == start + WallLines(coords, n, elevation, height, offset)
    requires out == walled + [Face(RoofFace(n, offset))]
    ensures out == start + RingLines(coords, n, elevation, height, offset)
  {
  }

  /** Node k's records define its foot and then its top, and hold its
      quad, if any, and no other face. */
  lemma {:induction false} PairRecords(coords: seq<real>, k: nat, elevation: real, height: real, offset: int)
    requires 2 * k + 1 < |coords|
    ensures Vertices(PairLines(coords, k, elevation, height, offset)) == [Bottom(coords, k, elevation), Top(coords, k, elevation, height)]
    ensures Faces(PairLines(coords, k, elevation, height, offset)) == (if k != 0 then [Quad(k, offset)] else [])
  {
    var b, t := Bottom(coords, k, elevation), Top(coords, k, elevation, height);
    TwoVertices(b, t);
    if k != 0 {
      TwoVerticesAndFace(b, t, Quad(k, offset));
      assert PairLines(coords, k, elevation, height, offset) == [Vertex(b), Vertex(t), Face(Quad(k, offset))];
    } else {
      assert PairLines(coords, k, elevation, height, offset) == [Vertex(b), Vertex(t)];
    }
  }

  /** Two vertex records define their two vertices and no face. */
  lemma {:induction false} TwoVertices(b: Vec3, t: Vec3)
    ensures Vertices([Vertex(b), Vertex(t)]) == [b, t]
    ensures Faces([Vertex(b), Vertex(t)]) == []
  {
    var empty: seq<Line> := [];
    assert Vertices(empty) == [] && Faces(empty) == [];
    assert DefinedVertex(Vertex(b)) == Some(b) && DefinedVertex(Vertex(t)) == Some(t);
    AppendOne(empty, Vertex(b));
    assert empty + [Vertex(b)] == [Vertex(b)];
    AppendOne([Vertex(b)], Vertex(t));
    assert [Vertex(b)] + [Vertex(t)] == [Vertex(b), Vertex(t)];
  }

  /** A face record after them adds that face and no vertex. */
  lemma {:induction false} TwoVerticesAndFace(b: Vec3, t: Vec3, quad: seq<int>)
    ensures Vertices([Vertex(b), Vertex(t), Face(quad)]) == [b, t]
    ensures Faces([Vertex(b), Vertex(t), Face(quad)]) == [quad]
  {
    TwoVertices(b, t);
    AppendOne([Vertex(b), Vertex(t)], Face(quad));
    assert [Vertex(b), Vertex(t)] + [Face(quad)] == [Vertex(b), Vertex(t), Face(quad)];
  }

  /** The walls of n nodes define two vertices per node. */
  lemma {:induction false} WallVertexCount(coords: seq<real>, n: nat, elevation: real, height: real, offset: int)
    requires 2 * n <= |coords|
    ensures |Vertices(WallLines(coords, n, elevation, height, offset))| == 2 * n
  {
    if n != 0 {
      WallVertexCount(coords, n - 1, elevation, height, offset);
      VerticesAppend(WallLines(coords, n - 1, elevation, height, offset), PairLines(coords, n - 1, elevation, height, offset));
      PairRecords(coords, n - 1, elevation, height, offset);
    }
  }

  /** The walls define their vertices in node order: node k's foot at
      position 2k, its top at 2k + 1. */
  lemma {:induction false} WallVertices(coords: seq<real>, n: nat, elevation: real, height: real, offset: int, k: nat)
    requires 2 * n <= |coords| && k < n
    ensures var vs := Vertices(WallLines(coords, n, elevation, height, offset));
            && |vs| == 2 * n
            && vs[2 * k] == Bottom(coords, k, elevation) && vs[2 * k + 1] == Top(coords, k, elevation, height)
  {
    var init := WallLines(coords, n - 1, elevation, height, offset);
    var pair := PairLines(coords, n - 1, elevation, height, offset);
    WallVertexCount(coords, n - 1, elevation, height, offset);
    VerticesAppend(init, pair);
    PairRecords(coords, n - 1, elevation, height, offset);
    assert Vertices(WallLines(coords, n, elevation, height, offset)) == Vertices(init) + Vertices(pair);
    if k < n - 1 {
      WallVertices(coords, n - 1, elevation, height, offset, k);
    }
  }

  /** The walls of n nodes hold n - 1 faces. */
  lemma {:induction false} WallFaceCount(coords: seq<real>, n: nat, elevation: real, height: real, offset: int)
    requires 2 * n <= |coords|
    ensures |Faces(WallLines(coords, n, elevation, height, offset))| == if n == 0 then 0 else n - 1
  {
    if n != 0 {
      WallFaceCount(coords, n - 1, elevation, height, offset);
      FacesAppend(WallLines(coords, n - 1, elevation, height, offset), PairLines(coords, n - 1, elevation, height, offset));
      PairRecords(coords, n - 1, elevation, height, offset);
    }
  }

  /** The walls are n - 1 quads: quad k - 1 joins node k - 1 to node k. */
  lemma {:induction false} WallFaces(coords: seq<real>, n: nat, elevation: real, height: real, offset: int, k: nat)
    requires 2 * n <= |coords| && 1 <= k < n
    ensures var fs := Faces(WallLines(coords, n, elevation, height, offset));
            |fs| == n - 1 && fs[k - 1] == Quad(k, offset)
  {
    WallFaceCount(coords, n, elevation, height, offset);
    WallFacesStep(coords, n, elevation, height, offset);
    if k < n - 1 {
      WallFaces(coords, n - 1, elevation, height, offset, k);
    }
  }

  /** Node n - 1 adds the quad joining it to node n - 2. */
  lemma {:induction false} WallFacesStep(coords: seq<real>, n: nat, elevation: real, height: real, offset: int)
    requires 2 * n <= |coords| && 2 <= n
    ensures Faces(WallLines(coords, n, elevation, height, offset))
         == Faces(WallLines(coords, n - 1, elevation, height, offset)) + [Quad(n - 1, offset)]
  {
    PairRecords(coords, n - 1, elevation, height, offset);
    FacesAppendOne(WallLines(coords, n - 1, elevation, height, offset),
                   PairLines(coords, n - 1, elevation, height, offset), Quad(n - 1, offset));
  }

  /** Records with exactly one face, appended, add that face. */
  lemma {:induction false} FacesAppendOne(a: seq<Line>, b: seq<Line>, face: seq<int>)
    requires Faces(b) == [face]
    ensures Faces(a + b) == Faces(a) + [face]
  {
    FacesAppend(a, b);
  }


  /** A ring's faces are its n - 1 wall quads in node order, then the roof. */
  lemma {:induction false} RingFaces(coords: seq<real>, n: nat, elevation: real, height: real, offset: int)
    requires |coords| == 2 * n
    ensures var fs := Faces(RingLines(coords, n, elevation, height, offset));
            && |fs| == (if n == 0 then 1 else n)
            && (forall k :: 1 <= k < n ==> fs[k - 1] == Quad(k, offset))
            && fs[|fs| - 1] == RoofFace(n, offset)
  {
    var walls := WallLines(coords, n, elevation, height, offset);
    WallFaceCount(coords, n, elevation, height, offset);
    AppendOne(walls, Face(RoofFace(n, offset)));
    var fs := Faces(RingLines(coords, n, elevation, height, offset));
    assert fs == Faces(walls) + [RoofFace(n, offset)];
    forall k | 1 <= k < n
      ensures fs[k - 1] == Quad(k, offset)
    {
      WallFaces(coords, n, elevation, height, offset, k);
    }
  }

  /** Every index of a ring's walls and roof names one of the ring's own
      2n vertices: the range [offset, offset + 2n). */
  lemma {:induction false} RingIndicesInBatch(coords: seq<real>, n: nat, elevation: real, height: real, offset: int)
    requires |coords| == 2 * n
    ensures forall f, i :: f in Faces(RingLines(coords, n, elevation, height, offset)) && i in f ==>
              offset <= i < offset + 2 * n
  {
    var fs := Faces(RingLines(coords, n, elevation, height, offset));
    RingFaces(coords, n, elevation, height, offset);
    forall f, i | f in fs && i in f
      ensures offset <= i < offset + 2 * n
    {
      var j :| 0 <= j < |fs| && fs[j] == f;
      if j < |fs| - 1 {
        assert f == Quad(j + 1, offset);
      } else {
        assert f == RoofFace(n, offset);
      }
    }
  }

  /** A ring defines two vertices per node. */
  lemma {:induction false} RingVertexCount(coords: seq<real>, n: nat, elevation: real, height: real, offset: int)
    requires |coords| == 2 * n
    ensures |Vertices(RingLines(coords, n, elevation, height, offset))| == 2 * n
  {
    var walls := WallLines(coords, n, elevation, height, offset);
    AppendOne(walls, Face(RoofFace(n, offset)));
    WallVertexCount(coords, n, elevation, height, offset);
  }

  /** Node m's foot is at position 2m of the ring's vertex list and its top
      at 2m + 1; the roof adds no vertex. */
  lemma {:induction false} RingVertices(coords: seq<real>, n: nat, elevation: real, height: real, offset: int, m: nat)
    requires |coords| == 2 * n && m < n
    ensures var vs := Vertices(RingLines(coords, n, elevation, height, offset));
            && |vs| == 2 * n
            && vs[2 * m] == Bottom(coords, m, elevation)
            && vs[2 * m + 1] == Top(coords, m, elevation, height)
  {
    var walls := WallLines(coords, n, elevation, height, offset);
    assert Vertices(RingLines(coords, n, elevation, height, offset)) == Vertices(walls) by {
      AppendOne(walls, Face(RoofFace(n, offset)));
    }
    WallVertices(coords, n, elevation, height, offset, m);
  }

  /** Written after `prefix` with the offset at the ring's first vertex,
      node m's foot gets number offset + 2m and its top offset + 2m + 1. */
  lemma {:induction false} RingNodeVertices(prefix: seq<Line>, coords: seq<real>, n: nat, elevation: real, height: real,
                         offset: int, m: nat)
    requires offset == |Vertices(prefix)| + 1
    requires |coords| == 2 * n && m < n
    ensures var out := prefix + RingLines(coords, n, elevation, height, offset);
            && Resolve(out, offset + 2 * m) == Some(Bottom(coords, m, elevation))
            && Resolve(out, offset + 2 * m + 1) == Some(Top(coords, m, elevation, height))
  {
    var ring := RingLines(coords, n, elevation, height, offset);
    RingVertices(coords, n, elevation, height, offset, m);
    ResolveAfter(prefix, ring, 2 * m);
    ResolveAfter(prefix, ring, 2 * m + 1);
  }

  /** Quad k - 1 names, in order, the foot of node k - 1, the foot of node
      k, the top of node k and the top of node k - 1: the wall between the
      two nodes. */
  lemma {:induction false} QuadCorners(prefix: seq<Line>, coords: seq<real>, n: nat, elevation: real, height: real,
                    offset: int, k: nat)
    requires offset == |Vertices(prefix)| + 1
    requires |coords| == 2 * n && 1 <= k < n
    ensures var out := prefix + RingLines(coords, n, elevation, height, offset);
            var q := Quad(k, offset);
            && Resolve(out, q[0]) == Some(Bottom(coords, k - 1, elevation))
            && Resolve(out, q[1]) == Some(Bottom(coords, k, elevation))
            && Resolve(out, q[2]) == Some(Top(coords, k, elevation, height))
            && Resolve(out, q[3]) == Some(Top(coords, k - 1, elevation, height))
  {
    var q := Quad(k, offset);
    assert q == [offset + 2 * (k - 1), offset + 2 * k, offset + 2 * k + 1, offset + 2 * (k - 1) + 1];
    RingNodeVertices(prefix, coords, n, elevation, height, offset, k - 1);
    RingNodeVertices(prefix, coords, n, elevation, height, offset, k);
  }

  /** The roof's i-th index names the top of node i: the roof is the ring
      outline lifted to the top of the walls. */
  lemma {:induction false} RoofCorners(prefix: seq<Line>, coords: seq<real>, n: nat, elevation: real, height: real,
                    offset: int, i: nat)
    requires offset == |Vertices(prefix)| + 1
    requires |coords| == 2 * n && i < n
    ensures Resolve(prefix + RingLines(coords, n, elevation, height, offset), RoofFace(n, offset)[i])
            == Some(Top(coords, i, elevation, height))
  {
    assert RoofFace(n, offset)[i] == offset + 2 * i + 1;
    RingNodeVertices(prefix, coords, n, elevation, height, offset, i);
  }

  /** The building and base heights `area` computes, in that order; the
      first failure is the one that ends the run. */
  function Heights(tags: map<string, string>, defaultBuildingHeight: real): (r: Result<(real, real), HeightError>)
    ensures r.Ok? <==> GetBuildingHeight(tags, defaultBuildingHeight, "height", "building:levels").Ok?
                       && GetBuildingHeight(tags, 0.0, "min_height", "building:min_level").Ok?
    ensures r.Err? && GetBuildingHeight(tags, defaultBuildingHeight, "height", "building:levels").Ok? ==>
              r == Err(GetBuildingHeight(tags, 0.0, "min_height", "building:min_level").error)
    ensures GetBuildingHeight(tags, defaultBuildingHeight, "height", "building:levels").Err? ==>
              r == Err(GetBuildingHeight(tags, defaultBuildingHeight, "height", "building:levels").error)
    ensures r.Ok? ==> r.value == (GetBuildingHeight(tags, defaultBuildingHeight, "height", "building:levels").value,
                                  GetBuildingHeight(tags, 0.0, "min_height", "building:min_level").value)
  {
    match GetBuildingHeight(tags, defaultBuildingHeight, "height", "building:levels")
    case Err(e) => Err(e)
    case Ok(height) =>
      match GetBuildingHeight(tags, 0.0, "min_height", "building:min_level")
      case Err(e) => Err(e)
      case Ok(baseHeight) => Ok((height, baseHeight))
  }

  /** The records written for rings[..r] when the first ring's batch
      starts at vertex number `first`. Ring k stands on grounds[k]: its
      walls go from grounds[k] + baseHeight up to grounds[k] + height, and
      its batch starts after the 2 * NodesBefore(rings, k) vertices of the
      rings before it. */
  function AreaLines(project: Projector, rings: seq<seq<NodeRef>>, grounds: seq<real>, r: nat,
                     height: real, baseHeight: real, first: int): seq<Line>
    requires |grounds| == |rings| && r <= |rings|
  {
    if r == 0 then []
    else
      AreaLines(project, rings, grounds, r - 1, height, baseHeight, first)
        + RingAt(project, rings, grounds, r - 1, height, baseHeight, first)
  }

  /** Ring k's walls and roof within its area. */
  function RingAt(project: Projector, rings: seq<seq<NodeRef>>, grounds: seq<real>, k: nat,
                  height: real, baseHeight: real, first: int): seq<Line>
    requires |grounds| == |rings| && k < |rings|
  {
    RingLines(ProjectNodes(project, rings[k]), |rings[k]|, grounds[k] + baseHeight,
              height - baseHeight, first + 2 * NodesBefore(rings, k))
  }

  lemma {:induction false} RingAtVertexCount(project: Projector, rings: seq<seq<NodeRef>>, grounds: seq<real>, k: nat,
                          height: real, baseHeight: real, first: int)
    requires |grounds| == |rings| && k < |rings|
    ensures |Vertices(RingAt(project, rings, grounds, k, height, baseHeight, first))| == 2 * |rings[k]|
  {
    var offset := first + 2 * NodesBefore(rings, k);
    RingVertexCount(ProjectNodes(project, rings[k]), |rings[k]|, grounds[k] + baseHeight, height - baseHeight, offset);
  }

  /** Writing ring r's walls and roof after the first r rings gives the
      first r + 1 rings. */
  lemma {:induction false} AreaLinesStep(start: seq<Line>, project: Projector, rings: seq<seq<NodeRef>>, grounds: seq<real>, r: nat,
                      height: real, baseHeight: real, first: int, ground: real, offset: int, before: seq<Line>,
                      out: seq<Line>)
    requires |grounds| == |rings| && r < |rings|
    requires ground == grounds[r] && offset == first + 2 * NodesBefore(rings, r)
    requires before == start + AreaLines(project, rings, grounds, r, height, baseHeight, first)
    requires out == before + RingLines(ProjectNodes(project, rings[r]), |rings[r]|, ground + baseHeight,
                                       height - baseHeight, offset)
    ensures out == start + AreaLines(project, rings, grounds, r + 1, height, baseHeight, first)
    ensures offset + 2 * |rings[r]| == first + 2 * NodesBefore(rings, r + 1)
  {
    var done := AreaLines(project, rings, grounds, r, height, baseHeight, first);
    var ring := RingAt(project, rings, grounds, r, height, baseHeight, first);
    RingAtIs(project, rings, grounds, r, height, baseHeight, first, ground, offset);
    assert AreaLines(project, rings, grounds, r + 1, height, baseHeight, first) == done + ring;
    assert out == start + (done + ring) by {
      assert out == (start + done) + ring;
    }
  }

  /** Ring r's records, written at the counter value `offset` over the
      ground level `ground`. */
  lemma {:induction false} RingAtIs(project: Projector, rings: seq<seq<NodeRef>>, grounds: seq<real>, r: nat,
                 height: real, baseHeight: real, first: int, ground: real, offset: int)
    requires |grounds| == |rings| && r < |rings|
    requires ground == grounds[r] && offset == first + 2 * NodesBefore(rings, r)
    ensures RingAt(project, rings, grounds, r, height, baseHeight, first)
         == RingLines(ProjectNodes(project, rings[r]), |rings[r]|, ground + baseHeight, height - baseHeight, offset)
  {
  }

  /** The first r rings define two vertices per node. */
  lemma {:induction false} AreaVertexCount(project: Projector, rings: seq<seq<NodeRef>>, grounds: seq<real>, r: nat,
                                           height: real, baseHeight: real, first: int)
    requires |grounds| == |rings| && r <= |rings|
    ensures |Vertices(AreaLines(project, rings, grounds, r, height, baseHeight, first))| == 2 * NodesBefore(rings, r)
  {
    if r > 0 {
      AreaVertexCount(project, rings, grounds, r - 1, height, baseHeight, first);
      RingAtVertexCount(project, rings, grounds, r - 1, height, baseHeight, first);
      VerticesAppend(AreaLines(project, rings, grounds, r - 1, height, baseHeight, first),
                     RingAt(project, rings, grounds, r - 1, height, baseHeight, first));
    }
  }

  /** Node m of ring k, written after `prefix` with the next vertex number
      at the ring's batch start, gets its foot and top there. */
  lemma {:induction false} RingAtNodeVertices(prefix: seq<Line>, project: Projector, rings: seq<seq<NodeRef>>, grounds: seq<real>,
                           k: nat, height: real, baseHeight: real, first: int, m: nat)
    requires |grounds| == |rings| && k < |rings| && m < |rings[k]|
    requires first + 2 * NodesBefore(rings, k) == |Vertices(prefix)| + 1
    ensures var out := prefix + RingAt(project, rings, grounds, k, height, baseHeight, first);
            var coords := ProjectNodes(project, rings[k]);
            var index := first + 2 * NodesBefore(rings, k) + 2 * m;
            && Resolve(out, index) == Some(Bottom(coords, m, grounds[k] + baseHeight))
            && Resolve(out, index + 1) == Some(Top(coords, m, grounds[k] + baseHeight, height - baseHeight))
  {
    var coords, offset := ProjectNodes(project, rings[k]), first + 2 * NodesBefore(rings, k);
    RingAtIs(project, rings, grounds, k, height, baseHeight, first, grounds[k], offset);
    RingNodeVertices(prefix, coords, |rings[k]|, grounds[k] + baseHeight, height - baseHeight, offset, m);
  }

  /** The base case of AreaNodeVertices: node m of the last of the first
      k + 1 rings. */
  lemma {:induction false} LastRingNodeVertices(start: seq<Line>, project: Projector, rings: seq<seq<NodeRef>>, grounds: seq<real>,
                             k: nat, height: real, baseHeight: real, first: int, m: nat)
    requires |grounds| == |rings| && k < |rings| && m < |rings[k]|
    requires first == |Vertices(start)| + 1
    ensures var out := start + AreaLines(project, rings, grounds, k + 1, height, baseHeight, first);
            var coords := ProjectNodes(project, rings[k]);
            var index := first + 2 * NodesBefore(rings, k) + 2 * m;
            && Resolve(out, index) == Some(Bottom(coords, m, grounds[k] + baseHeight))
            && Resolve(out, index + 1) == Some(Top(coords, m, grounds[k] + baseHeight, height - baseHeight))
  {
    var before := AreaLines(project, rings, grounds, k, height, baseHeight, first);
    var ring := RingAt(project, rings, grounds, k, height, baseHeight, first);
    assert start + AreaLines(project, rings, grounds, k + 1, height, baseHeight, first) == (start + before) + ring;
    AreaVertexCount(project, rings, grounds, k, height, baseHeight, first);
    VerticesAppend(start, before);
    RingAtNodeVertices(start + before, project, rings, grounds, k, height, baseHeight, first, m);
  }

  /** Written after `start` with `first` the next vertex number, node m of
      ring k gets its foot at number first + 2 * NodesBefore(rings, k) + 2m
      and its top just after, both at ring k's own ground level: every
      ring's walls are numbered in its own batch, whatever follows. */
  lemma {:induction false} AreaNodeVertices(start: seq<Line>, project: Projector, rings: seq<seq<NodeRef>>,
                                            grounds: seq<real>, r: nat, height: real, baseHeight: real,
                                            first: int, k: nat, m: nat)
    requires |grounds| == |rings| && k < r <= |rings| && m < |rings[k]|
    requires first == |Vertices(start)| + 1
    ensures var out := start + AreaLines(project, rings, grounds, r, height, baseHeight, first);
            var coords := ProjectNodes(project, rings[k]);
            var index := first + 2 * NodesBefore(rings, k) + 2 * m;
            && Resolve(out, index) == Some(Bottom(coords, m, grounds[k] + baseHeight))
            && Resolve(out, index + 1) == Some(Top(coords, m, grounds[k] + baseHeight, height - baseHeight))
  {
    if k == r - 1 {
      LastRingNodeVertices(start, project, rings, grounds, k, height, baseHeight, first, m);
    } else {
      var before := AreaLines(project, rings, grounds, r - 1, height, baseHeight, first);
      var ring := RingAt(project, rings, grounds, r - 1, height, baseHeight, first);
      assert start + AreaLines(project, rings, grounds, r, height, baseHeight, first) == (start + before) + ring;
      var index := first + 2 * NodesBefore(rings, k) + 2 * m;
      var coords := ProjectNodes(project, rings[k]);
      AreaNodeVertices(start, project, rings, grounds, r - 1, height, baseHeight, first, k, m);
      ResolveKept(start + before, ring, index, Bottom(coords, m, grounds[k] + baseHeight),
                  Top(coords, m, grounds[k] + baseHeight, height - baseHeight));
    }
  }

  /** Two vertices numbered in a prefix keep their numbers whatever follows. */
  lemma {:induction false} ResolveKept(prefix: seq<Line>, more: seq<Line>, index: int, foot: Vec3, top: Vec3)
    requires Resolve(prefix, index) == Some(foot) && Resolve(prefix, index + 1) == Some(top)
    ensures Resolve(prefix + more, index) == Some(foot) && Resolve(prefix + more, index + 1) == Some(top)
  {
    ResolvePrefix(prefix, more, index);
    ResolvePrefix(prefix, more, index + 1);
  }

  class ObjHandler {
    /** The target projection (pj_transform from WGS84 to it). */
    const project: Projector
    /** The handler's own writer. */
    const writer: ObjWriter
    /** Scratch buffer for one ring's coordinates; empty between rings. */
    var wayCoords: seq<real>
    /** The ground lookup: the ElevationAt of the Elevation the handler was
        built with. */
    const elevation: Query
    const defaultBuildingHeight: real

    ghost predicate Valid()
      reads this, writer
    {
      writer.Valid() && wayCoords == []
    }

    /** osmwave.cxx:41-42; the default height, when the caller gives none,
        is DefaultBuildingHeight, as in osm_to_obj (osmwave.cxx:225). */
    constructor (project: Projector, writer: ObjWriter, elevation: Elevation,
                 defaultBuildingHeight: real := DefaultBuildingHeight)
      requires writer.Valid()
      ensures this.project == project && this.writer == writer
      ensures forall lat, lon :: this.elevation(lat, lon) == elevation.ElevationAt(lat, lon)
      ensures this.defaultBuildingHeight == defaultBuildingHeight
      ensures Valid()
    {
      this.project := project;
      this.writer := writer;
      this.elevation := (lat, lon) => elevation.ElevationAt(lat, lon);
      this.defaultBuildingHeight := defaultBuildingHeight;
      wayCoords := [];
    }

    /** Entry i of the elevations is the terrain height at node i. */
    lemma {:induction false} ElevationsAt(nodes: seq<NodeRef>, n: nat)
      requires n <= |nodes| && GroundKnown(nodes)
      ensures forall i :: 0 <= i < n ==> Elevations(nodes, n)[i] == elevation(nodes[i].lat, nodes[i].lon).value
    {
      if n > 0 {
        ElevationsAt(nodes, n - 1);
      }
    }

    /** Every node of the ring has a ground elevation. */
    predicate GroundKnown(nodes: seq<NodeRef>)
    {
      forall i :: 0 <= i < |nodes| ==> elevation(nodes[i].lat, nodes[i].lon).Ok?
    }

    /** The ground elevations of the first n nodes, in node order. */
    function Elevations(nodes: seq<NodeRef>, n: nat): (r: seq<real>)
      requires n <= |nodes| && GroundKnown(nodes)
      ensures |r| == n
    {
      if n == 0 then []
      else Elevations(nodes, n - 1) + [elevation(nodes[n - 1].lat, nodes[n - 1].lon).value]
    }

    /** A ring's ground level. */
    function Ground(nodes: seq<NodeRef>): (ground: real)
      requires GroundKnown(nodes)
      ensures forall i :: 0 <= i < |nodes| ==> ground <= elevation(nodes[i].lat, nodes[i].lon).value
      ensures ground == DoubleMax || exists i :: 0 <= i < |nodes| && ground == elevation(nodes[i].lat, nodes[i].lon).value
      ensures nodes == [] ==> ground == DoubleMax
    {
      var grounds := Elevations(nodes, |nodes|);
      ElevationsAt(nodes, |nodes|);
      MinElevationIsLeast(grounds);
      assert forall i :: 0 <= i < |nodes| ==> grounds[i] in grounds;
      MinElevation(grounds)
    }

    /** Every ring's ground level is known. */
    ghost predicate AllGroundKnown(rings: seq<seq<NodeRef>>)
    {
      forall k :: 0 <= k < |rings| ==> GroundKnown(rings[k])
    }

    /** The ground level of each ring, in ring order. */
    function RingGrounds(rings: seq<seq<NodeRef>>): (r: seq<real>)
      requires AllGroundKnown(rings)
      ensures |r| == |rings|
    {
      if rings == [] then []
      else RingGrounds(rings[..|rings| - 1]) + [Ground(rings[|rings| - 1])]
    }

    /** osmwave.cxx:64-71: fills the buffer with the ring's coordinates in
        radians and returns its ground level. */
    method ReadRing(nodes: seq<NodeRef>) returns (minElevation: real)
      requires wayCoords == [] && GroundKnown(nodes)
      modifies this`wayCoords
      ensures wayCoords == RadianCoords(nodes)
      ensures minElevation == Ground(nodes)
    {
      minElevation := DoubleMax;
      ghost var grounds: seq<real> := [];
      var k := 0;
      while k < |nodes|
        invariant 0 <= k <= |nodes|
        invariant wayCoords == RadianCoords(nodes[..k])
        invariant grounds == Elevations(nodes, k)
        invariant minElevation == MinElevation(grounds)
      {
        var lon := nodes[k].lon;
        var lat := nodes[k].lat;
        wayCoords := wayCoords + [lon * DegToRad];
        wayCoords := wayCoords + [lat * DegToRad];
        RadianCoordsStep(nodes, k);
        var ground := elevation(lat, lon).value;
        MinElevationAppend(grounds, ground);
        minElevation := StdMin(minElevation, ground);
        grounds := grounds + [ground];
        k := k + 1;
      }
      assert nodes[..k] == nodes;
    }

    /** One pass of ringWalls' loop (osmwave.cxx:88-97): the node's foot
        and top and, unless it is the first node, the quad back to the
        previous node. */
    method WritePair(coords: seq<real>, i: int, vertexCount: int, ghost node: nat, elevation: real, height: real)
      requires writer.Valid() && i == 2 * node && vertexCount == i && i + 1 < |coords|
      modifies writer
      ensures writer.out == old(writer.out) + PairLines(coords, node, elevation, height, writer.offset)
      ensures writer.offset == old(writer.offset) && writer.vertIndex == old(writer.vertIndex) + 2
      ensures writer.Valid()
    {
      var bottom := writer.WriteVertex(Vec3(coords[i + 1], elevation, coords[i]));
      var top := writer.WriteVertex(Vec3(coords[i + 1], elevation + height, coords[i]));
      ghost var pair := [Vertex(Bottom(coords, node, elevation)), Vertex(Top(coords, node, elevation, height))];
      assert writer.out == old(writer.out) + pair;
      if vertexCount != 0 {
        writer.BeginFace();
        writer.AddIndex(vertexCount - 2);
        writer.AddIndex(vertexCount);
        writer.AddIndex(vertexCount + 1);
        writer.AddIndex(vertexCount - 1);
        assert writer.face == Quad(node, writer.offset);
        writer.EndFace();
        assert writer.out == old(writer.out) + pair + [Face(Quad(node, writer.offset))];
      }
    }

    /** osmwave.cxx:83-99: checkpoints the writer, then per node writes
        the foot and the top and, from the second node on, the quad back to
        the previous node. */
    method RingWalls(coords: seq<real>, ghost n: nat, elevation: real, height: real)
      requires writer.Valid() && |coords| == 2 * n
      modifies writer
      ensures writer.offset == old(writer.vertIndex)
      ensures writer.out == old(writer.out) + WallLines(coords, n, elevation, height, writer.offset)
      ensures writer.vertIndex == old(writer.vertIndex) + |coords|
      ensures writer.Valid()
    {
      ghost var start := writer.out;
      writer.Checkpoint();
      var vertexCount := 0;
      var i := 0;
      ghost var node: nat := 0;
      while i != |coords|
        invariant 0 <= i <= |coords| && i == 2 * node && vertexCount == i
        invariant writer.offset == old(writer.vertIndex)
        invariant writer.out == start + WallLines(coords, node, elevation, height, writer.offset)
        invariant writer.vertIndex == old(writer.vertIndex) + i
        invariant writer.Valid()
        decreases |coords| - i
      {
        WritePair(coords, i, vertexCount, node, elevation, height);
        vertexCount := vertexCount + 2;
        i := i + 2;
        node := node + 1;
      }
    }

    /** osmwave.cxx:101-107: one face over the odd (top) batch indices. */
    method FlatRoof(nVerts: nat)
      requires writer.Valid()
      modifies writer
      ensures writer.out == old(writer.out) + [Face(RoofFace(nVerts, writer.offset))]
      ensures writer.offset == old(writer.offset) && writer.vertIndex == old(writer.vertIndex)
      ensures writer.Valid()
    {
      writer.BeginFace();
      var i := 0;
      while i < nVerts
        invariant 0 <= i <= nVerts
        invariant writer.face == RoofFace(i, writer.offset)
        invariant writer.out == old(writer.out) && writer.Valid()
        invariant writer.offset == old(writer.offset) && writer.vertIndex == old(writer.vertIndex)
      {
        writer.AddIndex(i * 2 + 1);
        i := i + 1;
      }
      writer.EndFace();
    }

    /** Ring k's entry is that ring's ground level. */
    lemma {:induction false} RingGroundsAt(rings: seq<seq<NodeRef>>, k: nat)
      requires AllGroundKnown(rings) && k < |rings|
      ensures GroundKnown(rings[k]) && RingGrounds(rings)[k] == Ground(rings[k])
    {
      var n := |rings| - 1;
      if k < n {
        assert rings[..n][k] == rings[k];
        RingGroundsAt(rings[..n], k);
      }
    }

    /** One pass of the ring loop (osmwave.cxx:57-78): read the ring, project
        it, write its walls and its roof, clear the buffer. */
    method Ring(nodes: seq<NodeRef>, height: real, baseHeight: real) returns (ground: real)
      requires Valid() && GroundKnown(nodes)
      modifies writer, this`wayCoords
      ensures Valid()
      ensures ground == Ground(nodes)
      ensures writer.out == old(writer.out) + RingLines(ProjectNodes(project, nodes), |nodes|, ground + baseHeight,
                                                        height - baseHeight, old(writer.vertIndex))
      ensures writer.vertIndex == old(writer.vertIndex) + 2 * |nodes|
    {
      ghost var start, first := writer.out, writer.vertIndex;
      ground := ReadRing(nodes);
      ghost var coords := ProjectNodes(project, nodes);
      ProjectNodesIsTransform(project, nodes);
      wayCoords := Transform(project, wayCoords);
      assert wayCoords == coords;
      var e, h := ground + baseHeight, height - baseHeight;
      RingWalls(wayCoords, |nodes|, e, h);
      ghost var walled := writer.out;
      FlatRoof(|nodes|);
      RoofAfterWalls(start, coords, |nodes|, e, h, first, walled, writer.out);
      wayCoords := [];
    }

    /** The ring loop of osmwave.cxx:57-78: every outer ring in turn, each
        numbered after the vertices of the rings before it. */
    method Rings(outerRings: seq<seq<NodeRef>>, height: real, baseHeight: real)
      requires Valid() && AllGroundKnown(outerRings)
      modifies writer, this`wayCoords
      ensures Valid()
      ensures writer.out == old(writer.out) + AreaLines(project, outerRings, RingGrounds(outerRings), |outerRings|,
                                                        height, baseHeight, old(writer.vertIndex))
      ensures writer.vertIndex == old(writer.vertIndex) + 2 * NodesBefore(outerRings, |outerRings|)
    {
      ghost var first := writer.vertIndex;
      ghost var start := writer.out;
      ghost var grounds := RingGrounds(outerRings);
      var r := 0;
      while r < |outerRings|
        invariant 0 <= r <= |outerRings|
        invariant Valid()
        invariant writer.out == start + AreaLines(project, outerRings, grounds, r, height, baseHeight, first)
        invariant writer.vertIndex == first + 2 * NodesBefore(outerRings, r)
      {
        ghost var before, offset := writer.out, writer.vertIndex;
        RingGroundsAt(outerRings, r);
        var ground := Ring(outerRings[r], height, baseHeight);
        AreaLinesStep(start, project, outerRings, grounds, r, height, baseHeight, first, ground, offset, before,
                      writer.out);
        r := r + 1;
      }
    }

    /** osmwave.cxx:44-80. Areas without a `building` tag are skipped.
        Otherwise the building height and then the base height are read
        from the tags; a failure there is the exception that ends the run
        (returned here, with nothing written). Each outer ring then gets its
        walls, from its ground level plus the base height up to its ground
        level plus the building height, and its roof. */
    method Area(tags: map<string, string>, outerRings: seq<seq<NodeRef>>) returns (failure: Option<HeightError>)
      requires Valid() && AllGroundKnown(outerRings)
      modifies writer, this`wayCoords
      ensures Valid()
      ensures "building" !in tags ==> failure == None && writer.out == old(writer.out)
      ensures "building" in tags && Heights(tags, defaultBuildingHeight).Err? ==>
                failure == Some(Heights(tags, defaultBuildingHeight).error) && writer.out == old(writer.out)
      ensures "building" in tags && Heights(tags, defaultBuildingHeight).Ok? ==>
                var (height, baseHeight) := Heights(tags, defaultBuildingHeight).value;
                && failure == None
                && writer.out == old(writer.out)
                     + AreaLines(project, outerRings, RingGrounds(outerRings), |outerRings|, height, baseHeight,
                                 old(writer.vertIndex))
                && writer.vertIndex == old(writer.vertIndex) + 2 * NodesBefore(outerRings, |outerRings|)
    {
      if "building" !in tags {
        return None;
      }
      var heightResult := GetBuildingHeight(tags, defaultBuildingHeight, "height", "building:levels");
      if heightResult.Err? {
        return Some(heightResult.error);
      }
      var baseResult := GetBuildingHeight(tags, 0.0, "min_height", "building:min_level");
      if baseResult.Err? {
        return Some(baseResult.error);
      }
      Rings(outerRings, heightResult.value, baseResult.value);
      failure := None;
    }
  }

  /** The handler of osm_to_obj (osmwave.cxx:225), built without a height
      argument: buildings with no height tag get DefaultBuildingHeight. */
  method OsmHandler(project: Projector, writer: ObjWriter, elevation: Elevation) returns (handler: ObjHandler)
    requires writer.Valid()
    ensures fresh(handler) && handler.Valid()
    ensures handler.project == project && handler.writer == writer
    ensures handler.defaultBuildingHeight == 8.0
  {
    handler := new ObjHandler(project, writer, elevation);
  }
}
