/**
 * Primitive meshes: a flat list of vertex coordinates, three per vertex, and a list of
 * indices into those vertices, plus the rule the primitive renderer uses to draw them.
 *
 * Coordinates are only copied, never computed on, so their type is a parameter `C`.
 * The OpenGL buffers a primitive owns are not modelled: a primitive is the data it
 * uploads (its vertex list, its index list and its `numVertices` count).
 */
module Primitives {
  import opened Common

  /** A point in space (an engine `Vector3`). */
  datatype Vector3<C> = Vector3(x: C, y: C, z: C)

  /**
   * The data a `Primitive` is built from: coordinates three per vertex, the indices
   * of the vertices to draw, and the number of indices (an `unsigned int`).
   */
  datatype Primitive<C> = Primitive(vertices: seq<C>, indices: seq<nat>, numVertices: nat)

  /** The private constructor: `numVertices` is the index count, stored as an `unsigned int`. */
  function Make<C>(vertices: seq<C>, indices: seq<nat>): (p: Primitive<C>)
    ensures p.vertices == vertices && p.indices == indices
    ensures p.numVertices < U32
    ensures |indices| < U32 ==> p.numVertices == |indices|
  {
    Primitive(vertices, indices, |indices| % U32)
  }

  /** The coordinates of a list of vertices, x, y and z of each in turn. */
  function Flatten<C>(verts: seq<Vector3<C>>): (s: seq<C>)
    ensures |s| == 3 * |verts|
  {
    if verts == [] then []
    else
      var v := verts[|verts| - 1];
      Flatten(verts[..|verts| - 1]) + [v.x, v.y, v.z]
  }

  /**
   * The vertices a coordinate list describes, as the vertex attribute layout reads it:
   * three consecutive coordinates per vertex.
   */
  function Positions<C>(s: seq<C>): (verts: seq<Vector3<C>>)
    requires |s| % 3 == 0
    ensures |verts| == |s| / 3
  {
    if s == [] then []
    else Positions(s[..|s| - 3]) + [Vector3(s[|s| - 3], s[|s| - 2], s[|s| - 1])]
  }

  /** Appending one vertex's coordinates appends that vertex. */
  lemma PositionsSnoc<C>(s: seq<C>, v: Vector3<C>)
    requires |s| % 3 == 0
    ensures Positions(s + [v.x, v.y, v.z]) == Positions(s) + [v]
  {

  }

  /** The coordinates of two vertices, written out, read back as those vertices. */
  lemma PositionsOf2<C>(a: Vector3<C>, b: Vector3<C>)
    ensures Positions([a.x, a.y, a.z, b.x, b.y, b.z]) == [a, b]
  {

  }

  /** The coordinates of three vertices, written out, read back as those vertices. */
  lemma PositionsOf3<C>(a: Vector3<C>, b: Vector3<C>, c: Vector3<C>)
    ensures Positions([a.x, a.y, a.z, b.x, b.y, b.z, c.x, c.y, c.z]) == [a, b, c]
  {
    PositionsOf2(a, b);
    PositionsSnoc([a.x, a.y, a.z, b.x, b.y, b.z], c);
    assert [a.x, a.y, a.z, b.x, b.y, b.z, c.x, c.y, c.z] == [a.x, a.y, a.z, b.x, b.y, b.z] + [c.x, c.y, c.z];
  }

  /** The coordinates of four vertices, written out, read back as those vertices. */
  lemma PositionsOf4<C>(a: Vector3<C>, b: Vector3<C>, c: Vector3<C>, d: Vector3<C>)
    ensures Positions([a.x, a.y, a.z, b.x, b.y, b.z, c.x, c.y, c.z, d.x, d.y, d.z]) == [a, b, c, d]
  {
    PositionsOf3(a, b, c);
    PositionsSnoc([a.x, a.y, a.z, b.x, b.y, b.z, c.x, c.y, c.z], d);
    assert [a.x, a.y, a.z, b.x, b.y, b.z, c.x, c.y, c.z, d.x, d.y, d.z]
      == [a.x, a.y, a.z, b.x, b.y, b.z, c.x, c.y, c.z] + [d.x, d.y, d.z];
  }

  /** Reading back flattened vertices gives the same vertices, in the same order. */
  lemma {:induction false} PositionsFlatten<C>(verts: seq<Vector3<C>>)
    ensures Positions(Flatten(verts)) == verts
  {
    if verts != [] {
      var s := Flatten(verts);
      var init := verts[..|verts| - 1];
      assert s[..|s| - 3] == Flatten(init);
      PositionsFlatten(init);
    }
  }

  /** Vertex `i` occupies coordinates `3 * i` to `3 * i + 2`. */
  lemma {:induction false} FlattenAt<C>(verts: seq<Vector3<C>>, i: nat)
    requires i < |verts|
    ensures Flatten(verts)[3 * i] == verts[i].x
    ensures Flatten(verts)[3 * i + 1] == verts[i].y
    ensures Flatten(verts)[3 * i + 2] == verts[i].z
    decreases |verts|
  {
    if i < |verts| - 1 {
      var init := verts[..|verts| - 1];
      FlattenAt(init, i);
    }
  }

  /** The indices `0, 1, ..., n - 1`. */
  function Range(n: nat): (r: seq<nat>)
    ensures |r| == n
  {
    if n == 0 then [] else Range(n - 1) + [n - 1]
  }

  /** Index `i` of `Range(n)` is `i`. */
  lemma {:induction false} RangeAt(n: nat, i: nat)
    requires i < n
    ensures Range(n)[i] == i
  {
    if i < n - 1 {
      RangeAt(n - 1, i);
    }
  }

  /**
   * A primitive the renderer can draw safely: whole vertices, every index naming one of
   * them, and a draw count equal to the number of indices.
   */
  predicate WellFormed<C>(p: Primitive<C>) {
    && |p.vertices| % 3 == 0
    && (forall k :: 0 <= k < |p.indices| ==> p.indices[k] < |p.vertices| / 3)
    && p.numVertices == |p.indices|
  }

  /** `Line` as corrected: a segment from `p1` to `p2`, drawn through indices 0 and 1. */
  function Line<C>(p1: Vector3<C>, p2: Vector3<C>): (p: Primitive<C>)
    ensures p.indices == [0, 1] && WellFormed(p)
    ensures Positions(p.vertices) == [p1, p2]
  {
    PositionsOf2(p1, p2);
    Make([p1.x, p1.y, p1.z, p2.x, p2.y, p2.z], [0, 1])
  }

  /** `Line` as written: the third coordinate of the first vertex is taken from `p1.x`. */
  function LineAsWritten<C>(p1: Vector3<C>, p2: Vector3<C>): (p: Primitive<C>)
    ensures p.indices == [0, 1] && WellFormed(p)
    ensures Positions(p.vertices) == [Vector3(p1.x, p1.y, p1.x), p2]
  {
    PositionsOf2(Vector3(p1.x, p1.y, p1.x), p2);
    Make([p1.x, p1.y, p1.x, p2.x, p2.y, p2.z], [0, 1])
  }

  /**
   * The line as written starts at `p1` exactly when `p1.x == p1.z`: the line from
   * (1, 2, 3) to (4, 5, 6) starts at (1, 2, 1) instead.
   */
  lemma LineAsWrittenMisplacesStart<C>(p1: Vector3<C>, p2: Vector3<C>)
    ensures LineAsWritten(p1, p2) == Line(p1, p2) <==> p1.x == p1.z
    ensures Positions(LineAsWritten(Vector3(1, 2, 3), Vector3(4, 5, 6)).vertices)[0] == Vector3(1, 2, 1)
  {

  }

  /** `Triangle`: three vertices drawn as one triangle. */
  function Triangle<C>(v1: Vector3<C>, v2: Vector3<C>, v3: Vector3<C>): (p: Primitive<C>)
    ensures p.indices == [0, 1, 2] && WellFormed(p)
    ensures Positions(p.vertices) == [v1, v2, v3]
  {
    PositionsOf3(v1, v2, v3);
    Make([v1.x, v1.y, v1.z, v2.x, v2.y, v2.z, v3.x, v3.y, v3.z], [0, 1, 2])
  }

  /** `Rectangle`: four corners in turn, drawn as the triangles (1, 2, 3) and (3, 4, 1). */
  function Rectangle<C>(v1: Vector3<C>, v2: Vector3<C>, v3: Vector3<C>, v4: Vector3<C>): (p: Primitive<C>)
    ensures p.indices == [0, 1, 2, 2, 3, 0] && WellFormed(p)
    ensures Positions(p.vertices) == [v1, v2, v3, v4]
  {
    PositionsOf4(v1, v2, v3, v4);
    Make([v1.x, v1.y, v1.z, v2.x, v2.y, v2.z, v3.x, v3.y, v3.z, v4.x, v4.y, v4.z], [0, 1, 2, 2, 3, 0])
  }

  /** Every index of `0 .. n - 1` names one of the `n` flattened vertices. */
  lemma PolygonWellFormed<C>(verts: seq<Vector3<C>>)
    requires |verts| < U32
    ensures WellFormed(Make(Flatten(verts), Range(|verts|)))
  {
    DivModUnique(|Flatten(verts)|, |verts|, 0, 3);
    forall k | 0 <= k < |verts|
      ensures Range(|verts|)[k] < |Flatten(verts)| / 3
    {
      RangeAt(|verts|, k);
    }
  }

  /**
   * `Polygon`: the given vertices in order, each drawn once, by index. The loop counter is
   * an `int`, so the vertex count must stay below 2^31.
   */
  method Polygon<C>(verts: seq<Vector3<C>>) returns (p: Primitive<C>)
    requires |verts| < 0x8000_0000
    ensures p.vertices == Flatten(verts) && p.indices == Range(|verts|)
    ensures Positions(p.vertices) == verts
    ensures WellFormed(p)
  {
    var vertices: seq<C> := [];
    var indices: seq<nat> := [];
    var i := 0;
    while i < |verts|
      invariant i <= |verts|
      invariant vertices == Flatten(verts[..i])
      invariant indices == Range(i)
    {
      assert verts[..i + 1][..i] == verts[..i];
      vertices := vertices + [verts[i].x, verts[i].y, verts[i].z];
      indices := indices + [i];
      i := i + 1;
    }
    assert verts[..i] == verts;
    PositionsFlatten(verts);
    PolygonWellFormed(verts);
    p := Make(vertices, indices);
  }

  /** How the renderer draws a primitive's indices. */
  datatype DrawMode = LineLoop | Triangles

  /** The draw-mode rule: outline when asked for a wireframe or when fewer than three indices. */
  function ModeFor(wireframe: bool, numVertices: nat): (m: DrawMode)
    ensures m == Triangles <==> !wireframe && 3 <= numVertices
  {
    if wireframe || numVertices < 3 then LineLoop else Triangles
  }

  /**
   * Triangles are drawn only for solid primitives with a whole triangle's worth of indices:
   * a line is always outlined, a triangle or rectangle is filled unless it is a wireframe.
   */
  lemma ConstructorModes<C>(wireframe: bool, a: Vector3<C>, b: Vector3<C>, c: Vector3<C>, d: Vector3<C>)
    ensures ModeFor(wireframe, Line(a, b).numVertices) == LineLoop
    ensures ModeFor(wireframe, Triangle(a, b, c).numVertices) == (if wireframe then LineLoop else Triangles)
    ensures ModeFor(wireframe, Rectangle(a, b, c, d).numVertices) == (if wireframe then LineLoop else Triangles)
    ensures ModeFor(wireframe, Make(Flatten([a, b]), Range(2)).numVertices) == LineLoop
  {
  }

  /**
   * A primitive renderer component: the primitive, whether to outline it, whether to draw
   * it at all, and whether it is a screen-space element. Its colour is not modelled.
   */
  datatype PrimitiveRenderer<C> = PrimitiveRenderer(primitive: Primitive<C>, wireframe: bool, enabled: bool, uiElement: bool)

  /**
   * One `glDrawElements` call: the entity it draws, the draw mode, the index count, and
   * whether the camera's view and projection are used (identity ones otherwise).
   */
  datatype DrawCall = DrawCall(entity: nat, mode: DrawMode, count: nat, useCamera: bool)

  /** The draw call the render system issues for entity `e` with renderer `r`. */
  function CallFor<C>(e: nat, r: PrimitiveRenderer<C>): DrawCall {
    DrawCall(e, ModeFor(r.wireframe, r.primitive.numVertices), r.primitive.numVertices, !r.uiElement)
  }

  /** The draw calls for entities `0 .. |rs| - 1`, in order, skipping disabled renderers. */
  function DrawCalls<C>(rs: seq<PrimitiveRenderer<C>>): seq<DrawCall> {
    if rs == [] then []
    else
      var e := |rs| - 1;
      DrawCalls(rs[..e]) + (if rs[e].enabled then [CallFor(e, rs[e])] else [])
  }

  /**
   * `PrimitiveRenderSystem::Update`: one draw call per enabled renderer, in entity order;
   * disabled renderers are skipped.
   */
  method Render<C>(rs: seq<PrimitiveRenderer<C>>) returns (calls: seq<DrawCall>)
    ensures calls == DrawCalls(rs)
  {
    calls := [];
    var e := 0;
    while e < |rs|
      invariant e <= |rs|
      invariant calls == DrawCalls(rs[..e])
    {
      assert rs[..e + 1][..e] == rs[..e];
      if rs[e].enabled {
        calls := calls + [CallFor(e, rs[e])];
      }
      e := e + 1;
    }
    assert rs[..e] == rs;
  }

  /**
   * Exactly the enabled renderers are drawn, each once with its own draw call, in
   * increasing entity order.
   */
  lemma {:induction false} DrawCallsExactlyEnabled<C>(rs: seq<PrimitiveRenderer<C>>)
    ensures forall c :: c in DrawCalls(rs) ==> c.entity < |rs| && rs[c.entity].enabled && c == CallFor(c.entity, rs[c.entity])
    ensures forall e :: 0 <= e < |rs| && rs[e].enabled ==> CallFor(e, rs[e]) in DrawCalls(rs)
    ensures forall i, j :: 0 <= i < j < |DrawCalls(rs)| ==> DrawCalls(rs)[i].entity < DrawCalls(rs)[j].entity
  {
    if rs != [] {
      var e := |rs| - 1;
      var init := rs[..e];
      DrawCallsExactlyEnabled(init);
      assert forall k :: 0 <= k < e ==> init[k] == rs[k];
    }
  }
}
