/**
 * The indexed mesh writer of ObjWriter.cxx: an append-only stream of OBJ
 * records with a running 1-based vertex counter (`vertIndex`) and a batch
 * offset (`offset`) that turns a batch's 0-based local indices into the
 * file's global vertex numbers.
 *
 * The stream is modelled as the sequence of records written so far; the text
 * formatting of each record is not modelled. Only the constructor,
 * `materialLibrary`, `material` and the `write` template have bodies in the
 * source; `checkpoint`, both `vertex` overloads, `beginFace`, `operator<<`
 * and `endFace` are only declared, and the bodies given to them here are
 * assumptions (README lists them).
 */
module Obj {
  import opened Wrappers

  /** A point or direction in three dimensions. */
  datatype Vec3 = Vec3(x: real, y: real, z: real)

  /** One record of the OBJ stream. */
  datatype Line =
    /** The text "mtllib" followed directly by the path, with no space
        between them (ObjWriter.cxx:8). */
    | MaterialLibrary(path: string)
    /** The text "mtl" followed directly by the material name
        (ObjWriter.cxx:12); OBJ's own statement would be "usemtl". */
    | UseMaterial(name: string)
    | Vertex(p: Vec3)
    | VertexNormal(p: Vec3, n: Vec3)
    | Face(indices: seq<int>)

  /** The vertex a record defines, if any. */
  function DefinedVertex(l: Line): Option<Vec3>
  {
    match l
    case Vertex(p) => Some(p)
    case VertexNormal(p, _) => Some(p)
    case _ => None
  }

  /** The vertices the records define, in order: OBJ gives the vertex at
      position i of this sequence the number i + 1. */
  function Vertices(lines: seq<Line>): seq<Vec3>
  {
    if lines == [] then []
    else
      var last := lines[|lines| - 1];
      Vertices(lines[..|lines| - 1]) + (if DefinedVertex(last).Some? then [DefinedVertex(last).value] else [])
  }

  /** The vertex a face index N names in a stream. */
  function Resolve(lines: seq<Line>, index: int): Option<Vec3>
  {
    var vs := Vertices(lines);
    if 1 <= index <= |vs| then Some(vs[index - 1]) else None
  }

  /** The face records, in order. */
  function Faces(lines: seq<Line>): seq<seq<int>>
  {
    if lines == [] then []
    else
      var last := lines[|lines| - 1];
      Faces(lines[..|lines| - 1]) + (if last.Face? then [last.indices] else [])
  }

  /** The records `write` emits for its vertices, in order. */
  function VertexLines(vertices: seq<Vec3>): (r: seq<Line>)
    ensures |r| == |vertices|
  {
    seq(|vertices|, k requires 0 <= k < |vertices| => Vertex(vertices[k]))
  }

  lemma {:induction false} VerticesAppend(a: seq<Line>, b: seq<Line>)
    ensures Vertices(a + b) == Vertices(a) + Vertices(b)
    decreases |b|
  {
    if b == [] {
      assert a + b == a;
    } else {
      var init := b[..|b| - 1];
      assert (a + b)[..|a + b| - 1] == a + init;
      VerticesAppend(a, init);
    }
  }

  lemma {:induction false} FacesAppend(a: seq<Line>, b: seq<Line>)
    ensures Faces(a + b) == Faces(a) + Faces(b)
    decreases |b|
  {
    if b == [] {
      assert a + b == a;
    } else {
      var init := b[..|b| - 1];
      assert (a + b)[..|a + b| - 1] == a + init;
      FacesAppend(a, init);
    }
  }

  /** Appending one record adds its vertex, if any, and its face, if any. */
  lemma {:induction false} AppendOne(a: seq<Line>, l: Line)
    ensures Vertices(a + [l]) == Vertices(a) + (if DefinedVertex(l).Some? then [DefinedVertex(l).value] else [])
    ensures Faces(a + [l]) == Faces(a) + (if l.Face? then [l.indices] else [])
  {
    assert (a + [l])[..|a + [l]| - 1] == a;
  }

  /** A batch of vertex records defines exactly its vertices. */
  lemma {:induction false} VertexLinesVertices(vertices: seq<Vec3>)
    ensures Vertices(VertexLines(vertices)) == vertices
    ensures Faces(VertexLines(vertices)) == []
  {
    if vertices != [] {
      var init := vertices[..|vertices| - 1];
      var lines := VertexLines(vertices);
      assert lines == VertexLines(init) + [Vertex(vertices[|vertices| - 1])];
      VertexLinesVertices(init);
      assert init + [vertices[|vertices| - 1]] == vertices;
    }
  }

  /** Vertex numbers of records appended after `prefix` continue from
      prefix's count: local vertex k of `lines` gets number
      |Vertices(prefix)| + 1 + k. */
  lemma {:induction false} ResolveAfter(prefix: seq<Line>, lines: seq<Line>, k: nat)
    requires k < |Vertices(lines)|
    ensures Resolve(prefix + lines, |Vertices(prefix)| + 1 + k) == Some(Vertices(lines)[k])
  {
    var vp, vl := Vertices(prefix), Vertices(lines);
    VerticesAppend(prefix, lines);
    ResolveIn(prefix + lines, vp + vl, |vp| + 1 + k);
    assert (vp + vl)[|vp| + k] == vl[k];
  }

  /** Resolve looks the index up in the stream's vertex list. */
  lemma {:induction false} ResolveIn(lines: seq<Line>, vs: seq<Vec3>, index: int)
    requires Vertices(lines) == vs
    ensures Resolve(lines, index) == if 1 <= index <= |vs| then Some(vs[index - 1]) else None
  {
  }

  /** Appending records never renumbers the vertices already written. */
  lemma {:induction false} ResolvePrefix(lines: seq<Line>, more: seq<Line>, index: int)
    requires Resolve(lines, index).Some?
    ensures Resolve(lines + more, index) == Resolve(lines, index)
  {
    VerticesAppend(lines, more);
  }

  /** The k-th vertex of a batch written after `prefix` is vertex number
      |Vertices(prefix)| + 1 + k of the stream: the batch's local indices
      are shifted by the counter value at the batch's start. */
  lemma {:induction false} BatchNumbering(prefix: seq<Line>, vertices: seq<Vec3>, k: nat)
    requires k < |vertices|
    ensures Resolve(prefix + VertexLines(vertices), |Vertices(prefix)| + 1 + k) == Some(vertices[k])
  {
    VertexLinesVertices(vertices);
    ResolveAfter(prefix, VertexLines(vertices), k);
  }

  /** Two batches written one after the other are numbered
      [s, s + n1) and [s + n1, s + n1 + n2), with s = |Vertices(prefix)| + 1:
      adjacent and disjoint. */
  lemma {:induction false} AdjacentBatches(prefix: seq<Line>, first: seq<Vec3>, second: seq<Vec3>)
    ensures var all := prefix + VertexLines(first) + VertexLines(second);
            var s := |Vertices(prefix)| + 1;
            && |Vertices(all)| == s - 1 + |first| + |second|
            && (forall k :: 0 <= k < |first| ==> Resolve(all, s + k) == Some(first[k]))
            && (forall k :: 0 <= k < |second| ==> Resolve(all, s + |first| + k) == Some(second[k]))
  {
    var mid := prefix + VertexLines(first);
    VerticesAppend(prefix, VertexLines(first));
    VertexLinesVertices(first);
    FirstBatch(prefix, first, VertexLines(second));
    SecondBatch(mid, second, |Vertices(prefix)| + 1 + |first|);
  }

  /** A batch keeps its numbers whatever is written after it. */
  lemma {:induction false} FirstBatch(prefix: seq<Line>, first: seq<Vec3>, more: seq<Line>)
    ensures forall k :: 0 <= k < |first| ==> Resolve(prefix + VertexLines(first) + more, |Vertices(prefix)| + 1 + k) == Some(first[k])
  {
    forall k | 0 <= k < |first|
      ensures Resolve(prefix + VertexLines(first) + more, |Vertices(prefix)| + 1 + k) == Some(first[k])
    {
      BatchNumbering(prefix, first, k);
      ResolvePrefix(prefix + VertexLines(first), more, |Vertices(prefix)| + 1 + k);
    }
  }

  /** The batch written last: its vertices are numbered from s, one more
      than the number of vertices before it. */
  lemma {:induction false} SecondBatch(mid: seq<Line>, second: seq<Vec3>, s: int)
    requires s == |Vertices(mid)| + 1
    ensures |Vertices(mid + VertexLines(second))| == s - 1 + |second|
    ensures forall k :: 0 <= k < |second| ==> Resolve(mid + VertexLines(second), s + k) == Some(second[k])
  {
    VerticesAppend(mid, VertexLines(second));
    VertexLinesVertices(second);
    forall k | 0 <= k < |second|
      ensures Resolve(mid + VertexLines(second), s + k) == Some(second[k])
    {
      BatchNumbering(mid, second, k);
    }
  }

  class ObjWriter {
    /** The number the next vertex will get (OBJ numbers from 1). */
    var vertIndex: int
    /** The counter value at the last checkpoint. */
    var offset: int
    /** Everything written to the stream so far. */
    var out: seq<Line>
    /** The indices of the face being built between beginFace and endFace. */
    var face: seq<int>

    /** vertIndex is always one more than the number of vertices written. */
    ghost predicate Valid()
      reads this
    {
      vertIndex == |Vertices(out)| + 1
    }

    /** ObjWriter.cxx:4: the counter starts at 1. The source leaves offset
        uninitialised; here it starts at the counter's value. */
    constructor ()
      ensures vertIndex == 1 && out == [] && face == [] && Valid()
    {
      vertIndex := 1;
      offset := 1;
      out := [];
      face := [];
    }

    /** ObjWriter.cxx:7-9; the counter is untouched. */
    method WriteMaterialLibrary(path: string)
      requires Valid()
      modifies this`out
      ensures out == old(out) + [MaterialLibrary(path)]
      ensures Valid()
    {
      AppendOne(out, MaterialLibrary(path));
      out := out + [MaterialLibrary(path)];
    }

    /** ObjWriter.cxx:11-13; the counter is untouched. */
    method WriteMaterial(name: string)
      requires Valid()
      modifies this`out
      ensures out == old(out) + [UseMaterial(name)]
      ensures Valid()
    {
      AppendOne(out, UseMaterial(name));
      out := out + [UseMaterial(name)];
    }

    /** The `write` template (ObjWriter.cxx:15-31) without its face loop:
        one record per vertex, the counter advanced once per vertex; the
        result is the counter after the batch. */
    method Write(vertices: seq<Vec3>) returns (r: int)
      requires Valid()
      modifies this`vertIndex, this`out
      ensures out == old(out) + VertexLines(vertices)
      ensures vertIndex == old(vertIndex) + |vertices| && r == vertIndex
      ensures Valid()
    {
      var startVertIndex := vertIndex;
      ghost var start := out;
      var k := 0;
      while k < |vertices|
        invariant 0 <= k <= |vertices|
        invariant out == start + VertexLines(vertices[..k])
        invariant vertIndex == startVertIndex + k
        invariant Valid()
      {
        assert VertexLines(vertices[..k + 1]) == VertexLines(vertices[..k]) + [Vertex(vertices[k])];
        AppendOne(out, Vertex(vertices[k]));
        out := out + [Vertex(vertices[k])];
        vertIndex := vertIndex + 1;
        k := k + 1;
      }
      assert vertices[..k] == vertices;
      r := vertIndex;
    }

    /** Assumed (declared at ObjWriter.hxx:21): the batch base becomes the
        current counter. */
    method Checkpoint()
      modifies this`offset
      ensures offset == vertIndex
    {
      offset := vertIndex;
    }

    /** Assumed (declared at ObjWriter.hxx:23): writes a vertex record,
        returns its global number and advances the counter. */
    method WriteVertex(p: Vec3) returns (index: int)
      requires Valid()
      modifies this`vertIndex, this`out
      ensures index == old(vertIndex) && vertIndex == old(vertIndex) + 1
      ensures out == old(out) + [Vertex(p)]
      ensures Valid()
    {
      AppendOne(out, Vertex(p));
      index := vertIndex;
      out := out + [Vertex(p)];
      vertIndex := vertIndex + 1;
    }

    /** Assumed (declared at ObjWriter.hxx:24): as WriteVertex, with a normal. */
    method WriteVertexNormal(p: Vec3, n: Vec3) returns (index: int)
      requires Valid()
      modifies this`vertIndex, this`out
      ensures index == old(vertIndex) && vertIndex == old(vertIndex) + 1
      ensures out == old(out) + [VertexNormal(p, n)]
      ensures Valid()
    {
      AppendOne(out, VertexNormal(p, n));
      index := vertIndex;
      out := out + [VertexNormal(p, n)];
      vertIndex := vertIndex + 1;
    }

    /** Assumed (declared at ObjWriter.hxx:25): starts an empty face. */
    method BeginFace()
      modifies this`face
      ensures face == []
    {
      face := [];
    }

    /** Assumed (`operator<<`, declared at ObjWriter.hxx:26): adds a
        batch-relative index, shifted by the offset. */
    method AddIndex(vertex: int)
      modifies this`face
      ensures face == old(face) + [vertex + offset]
    {
      face := face + [vertex + offset];
    }

    /** Assumed (declared at ObjWriter.hxx:27): writes the face record. */
    method EndFace()
      requires Valid()
      modifies this`out, this`face
      ensures out == old(out) + [Face(old(face))] && face == []
      ensures Valid()
    {
      AppendOne(out, Face(face));
      out := out + [Face(face)];
      face := [];
    }
  }

  /** Two consecutive `write` calls: the second batch starts where the
      first one ended, so their number ranges are adjacent and disjoint. */
  method WriteTwoBatches(w: ObjWriter, first: seq<Vec3>, second: seq<Vec3>) returns (end1: int, end2: int)
    requires w.Valid()
    modifies w
    ensures end1 == old(w.vertIndex) + |first| && end2 == end1 + |second|
    ensures w.out == old(w.out) + VertexLines(first) + VertexLines(second)
    ensures w.Valid()
  {
    end1 := w.Write(first);
    end2 := w.Write(second);
  }
}
