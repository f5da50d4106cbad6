/** TerrainRenderer: turns a width x depth height field into a triangle mesh (one vertex
    per grid cell, two triangles per grid quad) and records it as the data it uploads. */
module TerrainMesh {
  import opened Common
  import opened Buffer

  /** Necrosis::Vertex. `normal` holds the vector that updateBuffers hands to
      glm::normalize; the normalisation itself is floating point and not modelled. */
  datatype Vertex = Vertex(position: Vec3, normal: Vec3, uv: Vec2)

  /** The getHeight lambda: x is clamped to [0, width-1] and z to [0, depth-1] before the
      row-major lookup, so every lookup reads an element of the field. */
  function HeightAt(heights: seq<real>, width: nat, depth: nat, x: int, z: int): (h: real)
    requires width > 0 && depth > 0 && |heights| >= width * depth
  {
    var cx := Clamp(x, 0, width - 1);
    var cz := Clamp(z, 0, depth - 1);
    SlotRoundTrip(width, depth, cx, cz);
    heights[Slot(width, cx, cz)]
  }

  /** Inside the grid the clamped lookup is the plain one; outside it, the border sample is
      replicated (left/right of a row, above/below a column). */
  lemma HeightAtReplicatesBorder(heights: seq<real>, width: nat, depth: nat, x: int, z: int)
    requires width > 0 && depth > 0 && |heights| >= width * depth
    ensures 0 <= x < width && 0 <= z < depth ==>
      Slot(width, x, z) < width * depth && HeightAt(heights, width, depth, x, z) == heights[Slot(width, x, z)]
    ensures x < 0 ==> HeightAt(heights, width, depth, x, z) == HeightAt(heights, width, depth, 0, z)
    ensures x >= width ==> HeightAt(heights, width, depth, x, z) == HeightAt(heights, width, depth, width - 1, z)
    ensures z < 0 ==> HeightAt(heights, width, depth, x, z) == HeightAt(heights, width, depth, x, 0)
    ensures z >= depth ==> HeightAt(heights, width, depth, x, z) == HeightAt(heights, width, depth, x, depth - 1)
  {
    if 0 <= x < width && 0 <= z < depth {
      SlotRoundTrip(width, depth, x, z);
    }
  }

  /** The vertex updateBuffers writes for grid cell (x, z): the grid centred on the origin
      in the X/Z plane, the cell's height as y, the central-difference slope vector
      (hL - hR, 2, hU - hD) built from clamped lookups, and uv = (x / width, z / depth). */
  function VertexAt(heights: seq<real>, width: nat, depth: nat, x: nat, z: nat): Vertex
    requires x < width && z < depth && |heights| >= width * depth
  {
    SlotRoundTrip(width, depth, x, z);
    var hL := HeightAt(heights, width, depth, x - 1, z);
    var hR := HeightAt(heights, width, depth, x + 1, z);
    var hU := HeightAt(heights, width, depth, x, z - 1);
    var hD := HeightAt(heights, width, depth, x, z + 1);
    Vertex(
      Vec3(x as real - width as real / 2.0, heights[Slot(width, x, z)], z as real - depth as real / 2.0),
      Vec3(hL - hR, 2.0, hU - hD),
      Vec2(x as real / width as real, z as real / depth as real))
  }

  /** The vertex in slot i: that of cell (i % width, i / width). */
  function VertexFor(heights: seq<real>, width: nat, depth: nat, i: nat): Vertex
    requires i < width * depth && |heights| >= width * depth
  {
    CellOfSlot(width, depth, i);
    VertexAt(heights, width, depth, i % width, i / width)
  }

  /** Slot z*width + x of the vertex buffer holds the vertex of cell (x, z). */
  lemma VertexForSlot(heights: seq<real>, width: nat, depth: nat, x: nat, z: nat)
    requires x < width && z < depth && |heights| >= width * depth
    ensures Slot(width, x, z) < width * depth
    ensures VertexFor(heights, width, depth, Slot(width, x, z)) == VertexAt(heights, width, depth, x, z)
  {
    SlotRoundTrip(width, depth, x, z);
  }

  /** The vertex buffer updateBuffers builds. */
  function MeshVertices(heights: seq<real>, width: nat, depth: nat): (vs: seq<Vertex>)
    requires |heights| >= width * depth
  {
    seq(width * depth, i requires 0 <= i < width * depth => VertexFor(heights, width, depth, i))
  }

  /** Vertex buffer shape: width*depth vertices, the vertex of cell (x, z) at slot
      z*width + x, with that cell's height as its y component. */
  lemma MeshVerticesAtCell(heights: seq<real>, width: nat, depth: nat, x: nat, z: nat)
    requires x < width && z < depth && |heights| >= width * depth
    ensures |MeshVertices(heights, width, depth)| == width * depth
    ensures Slot(width, x, z) < width * depth
    ensures MeshVertices(heights, width, depth)[Slot(width, x, z)] == VertexAt(heights, width, depth, x, z)
    ensures MeshVertices(heights, width, depth)[Slot(width, x, z)].position.y == heights[Slot(width, x, z)]
  {
    SlotRoundTrip(width, depth, x, z);
  }

  /** On a flat field every slope vector, border vertices included, is (0, 2, 0), so every
      normal points straight up. */
  lemma FlatFieldNormals(heights: seq<real>, width: nat, depth: nat, c: real, x: nat, z: nat)
    requires x < width && z < depth && |heights| >= width * depth
    requires forall i :: 0 <= i < |heights| ==> heights[i] == c
    ensures VertexAt(heights, width, depth, x, z).normal == Vec3(0.0, 2.0, 0.0)
    ensures VertexAt(heights, width, depth, x, z).position.y == c
  {
    SlotRoundTrip(width, depth, x, z);
    forall i: int, j: int
      ensures HeightAt(heights, width, depth, i, j) == c
    {
      var cx, cz := Clamp(i, 0, width - 1), Clamp(j, 0, depth - 1);
      SlotRoundTrip(width, depth, cx, cz);
    }
  }

  /** The six indices of quad (x, z): triangles (bottomLeft, topRight, topLeft) and
      (bottomRight, topRight, bottomLeft), with "top" the next row in z. */
  function QuadIndices(width: nat, x: nat, z: nat): (q: seq<nat>)
  {
    var bottomLeft := Slot(width, x, z);
    var bottomRight := Slot(width, x, z) + 1;
    var topLeft := Slot(width, x, z + 1);
    var topRight := Slot(width, x, z + 1) + 1;
    [bottomLeft, topRight, topLeft, bottomRight, topRight, bottomLeft]
  }

  /** Number of grid quads: (width - 1) * (depth - 1). */
  function NumQuads(width: nat, depth: nat): nat
    requires width > 0 && depth > 0
  {
    MulMonotonic(0, width - 1, depth - 1);
    (width - 1) * (depth - 1)
  }

  /** The grids updateBuffers handles with defined behaviour: both dimensions positive and
      below 2^31 (each is cast to i32 and decremented for the clamp), and the vertex count
      width * depth and the index count numQuads * 6 both fit in 32 bits (they are uint32
      products that size the buffers the loops fill). */
  predicate MeshFits(width: nat, depth: nat)
  {
    0 < width < 0x8000_0000 && 0 < depth < 0x8000_0000
    && width * depth < U32_MOD && 6 * NumQuads(width, depth) < U32_MOD
  }

  /** On a grid that fits, the wrapped uint32 sizes of updateBuffers are the true counts:
      vertices.resize(width * depth) holds one vertex per cell and indices.resize(numQuads * 6)
      holds six indices per quad. */
  lemma MeshFitsSizes(width: u32, depth: u32)
    requires MeshFits(width, depth)
    ensures MulU32(width, depth) == width * depth
    ensures MulU32(width - 1, depth - 1) == NumQuads(width, depth)
    ensures (MulU32(width - 1, depth - 1) * 6) % U32_MOD == |MeshIndices(width, depth)|
  {
    assert NumQuads(width, depth) <= 6 * NumQuads(width, depth);
  }

  /** Index i of the index buffer: corner i % 6 of quad number i / 6, quads counted in
      row-major order. */
  function IndexAt(width: nat, i: nat): nat
    requires width > 1
  {
    var q := i / 6;
    QuadIndices(width, q % (width - 1), q / (width - 1))[i % 6]
  }

  /** The index buffer updateBuffers builds. */
  function MeshIndices(width: nat, depth: nat): (ix: seq<nat>)
    requires width > 0 && depth > 0
  {
    seq(6 * NumQuads(width, depth), i requires 0 <= i < 6 * NumQuads(width, depth) => if width > 1 then IndexAt(width, i) else 0)
  }

  /** Quad number z*(width-1) + x of the index buffer is quad (x, z). */
  lemma {:induction false} QuadNumber(width: nat, x: nat, z: nat, k: nat)
    requires width > 1 && x < width - 1 && k < 6
    ensures IndexAt(width, 6 * Slot(width - 1, x, z) + k) == QuadIndices(width, x, z)[k]
  {
    var q := Slot(width - 1, x, z);
    DivModOf(6 * q + k, 6, q, k);
    DivModOf(q, width - 1, z, x);
  }

  /** The index buffer has 6 * (width-1) * (depth-1) entries, and quad (x, z) occupies the
      six entries starting at 6 * (z*(width-1) + x), as [bl, tr, tl, br, tr, bl]. */
  lemma MeshIndicesAtQuad(width: nat, depth: nat, x: nat, z: nat, k: nat)
    requires width > 0 && depth > 0 && x < width - 1 && z < depth - 1 && k < 6
    ensures |MeshIndices(width, depth)| == 6 * (width - 1) * (depth - 1)
    ensures 6 * Slot(width - 1, x, z) + k < |MeshIndices(width, depth)|
    ensures MeshIndices(width, depth)[6 * Slot(width - 1, x, z) + k] == QuadIndices(width, x, z)[k]
  {
    assert 6 * (width - 1) * (depth - 1) == 6 * NumQuads(width, depth);
    SlotRoundTrip(width - 1, depth - 1, x, z);
    QuadNumber(width, x, z, k);
  }

  /** The index buffer up to the end of quad (x, z) is the buffer up to its start followed
      by the quad's six indices. */
  lemma MeshIndicesGrow(width: nat, depth: nat, x: nat, z: nat)
    requires width > 0 && depth > 0 && x < width - 1 && z < depth - 1
    ensures 6 * Slot(width - 1, x, z) + 6 <= |MeshIndices(width, depth)|
    ensures var s := 6 * Slot(width - 1, x, z);
      MeshIndices(width, depth)[..s + 6] == MeshIndices(width, depth)[..s] + QuadIndices(width, x, z)
  {
    var s := 6 * Slot(width - 1, x, z);
    var m := MeshIndices(width, depth);
    SlotRoundTrip(width - 1, depth - 1, x, z);
    assert s + 6 <= |m|;
    forall k | 0 <= k < 6 ensures m[s + k] == QuadIndices(width, x, z)[k] {
      MeshIndicesAtQuad(width, depth, x, z, k);
    }
    assert m[..s + 6] == m[..s] + m[s..s + 6];
  }

  /** Every corner of a quad names a vertex of the grid. */
  lemma QuadIndicesInGrid(width: nat, depth: nat, x: nat, z: nat)
    requires x < width - 1 && z < depth - 1
    ensures forall k :: 0 <= k < 6 ==> QuadIndices(width, x, z)[k] < width * depth
  {
    SlotRoundTrip(width, depth, x + 1, z + 1);
  }

  /** Every index in the index buffer is smaller than width*depth, the vertex count. */
  lemma MeshIndicesInBounds(width: nat, depth: nat)
    requires width > 0 && depth > 0
    ensures forall i :: 0 <= i < |MeshIndices(width, depth)| ==> MeshIndices(width, depth)[i] < width * depth
  {
    forall i | 0 <= i < |MeshIndices(width, depth)|
      ensures MeshIndices(width, depth)[i] < width * depth
    {
      assert width > 1;
      var q := i / 6;
      assert q < NumQuads(width, depth);
      CellOfSlot(width - 1, depth - 1, q);
      QuadIndicesInGrid(width, depth, q % (width - 1), q / (width - 1));
    }
  }

  /** A 2x2 field gives one quad whose triangles are (0, 3, 2) and (1, 3, 0). */
  lemma TwoByTwoMesh()
    ensures MeshIndices(2, 2) == [0, 3, 2, 1, 3, 0]
  {
    assert |MeshIndices(2, 2)| == 6;
    forall k | 0 <= k < 6
      ensures MeshIndices(2, 2)[k] == [0, 3, 2, 1, 3, 0][k]
    {
      QuadNumber(2, 0, 0, k);
    }
  }

  /** The vertex loop of updateBuffers: a width*depth buffer filled in z/x order through a
      running slot counter. */
  method BuildVertices(heights: seq<real>, width: u32, depth: u32) returns (vertices: seq<Vertex>)
    requires width > 0 && depth > 0 && |heights| >= width * depth
    ensures vertices == MeshVertices(heights, width, depth)
  {
    var buffer := new Vertex[width * depth];
    ghost var mesh := MeshVertices(heights, width, depth);
    var index := 0;
    var z := 0;
    while z < depth
      invariant 0 <= z <= depth && index == z * width && index <= width * depth
      invariant forall i :: 0 <= i < index ==> buffer[i] == mesh[i]
    {
      MulMonotonic(z + 1, depth, width);
      var x := 0;
      while x < width
        invariant 0 <= x <= width && index == z * width + x && index <= width * depth
        invariant forall i :: 0 <= i < index ==> buffer[i] == mesh[i]
      {
        VertexForSlot(heights, width, depth, x, z);
        var y := heights[index];
        var hL := HeightAt(heights, width, depth, x - 1, z);
        var hR := HeightAt(heights, width, depth, x + 1, z);
        var hU := HeightAt(heights, width, depth, x, z - 1);
        var hD := HeightAt(heights, width, depth, x, z + 1);
        var normal := Vec3(hL - hR, 2.0, hU - hD);
        buffer[index] := Vertex(
          Vec3(x as real - width as real / 2.0, y, z as real - depth as real / 2.0),
          normal,
          Vec2(x as real / width as real, z as real / depth as real));
        assert buffer[index] == mesh[index];
        index := index + 1;
        x := x + 1;
      }
      z := z + 1;
    }
    assert index == width * depth;
    vertices := buffer[..];
  }

  /** The six stores of one quad in updateBuffers' index loop: the top-left triangle
      (bottomLeft, topRight, topLeft), then the bottom-right one (bottomRight, topRight,
      bottomLeft). Entries before `index` are kept. */
  method WriteQuad(buffer: array<nat>, index: nat, width: nat, x: nat, z: nat)
    requires index + 6 <= buffer.Length
    modifies buffer
    ensures buffer[..index + 6] == old(buffer[..index]) + QuadIndices(width, x, z)
    ensures buffer[index + 6..] == old(buffer[index + 6..])
  {
    var bottomLeft := z * width + x;
    var bottomRight := z * width + x + 1;
    var topLeft := (z + 1) * width + x;
    var topRight := (z + 1) * width + x + 1;
    buffer[index] := bottomLeft;
    buffer[index + 1] := topRight;
    buffer[index + 2] := topLeft;
    buffer[index + 3] := bottomRight;
    buffer[index + 4] := topRight;
    buffer[index + 5] := bottomLeft;
    assert buffer[index..index + 6] == QuadIndices(width, x, z);
    assert buffer[..index + 6] == buffer[..index] + buffer[index..index + 6];
  }

  /** The index loop of updateBuffers: six indices per quad, quads in row-major order. */
  method BuildIndices(width: u32, depth: u32) returns (indices: seq<nat>)
    requires width > 0 && depth > 0
    ensures indices == MeshIndices(width, depth)
  {
    var numQuads := NumQuads(width, depth);
    var buffer := new nat[numQuads * 6];
    ghost var spec := MeshIndices(width, depth);
    var index := 0;
    var z := 0;
    while z < depth - 1
      invariant 0 <= z <= depth - 1 && index == 6 * Slot(width - 1, 0, z) && index <= buffer.Length
      invariant buffer[..index] == spec[..index]
    {
      MulMonotonic(z + 1, depth - 1, width - 1);
      var x := 0;
      while x < width - 1
        invariant 0 <= x <= width - 1
        invariant index == 6 * Slot(width - 1, x, z) && index <= buffer.Length
        invariant buffer[..index] == spec[..index]
      {
        MeshIndicesGrow(width, depth, x, z);
        WriteQuad(buffer, index, width, x, z);
        index := index + 6;
        x := x + 1;
      }
      assert Slot(width - 1, width - 1, z) == Slot(width - 1, 0, z + 1);
      z := z + 1;
    }
    assert index == buffer.Length;
    indices := buffer[..];
    assert indices == buffer[..index];
  }

  /** The layout the renderer's constructor pushes: position (3 floats), normal (3 floats),
      uv (2 floats). */
  function TerrainLayout(): seq<VertexBufferElement>
  {
    [VertexBufferElement(GL_FLOAT, 3, GL_TRUE), VertexBufferElement(GL_FLOAT, 3, GL_TRUE),
     VertexBufferElement(GL_FLOAT, 2, GL_TRUE)]
  }

  /** That layout has a 32-byte stride, with attributes at offsets 0, 12 and 24. */
  lemma TerrainLayoutStride()
    ensures Bytes(TerrainLayout()) == 32
    ensures PrefixBytes(TerrainLayout(), 0) == 0
    ensures PrefixBytes(TerrainLayout(), 1) == 12
    ensures PrefixBytes(TerrainLayout(), 2) == 24
  {
    var es := TerrainLayout();
    assert es[..0] == [] && es[..1][..0] == [];
    assert Bytes(es[..1]) == 12;
    assert es[..2][..1] == es[..1];
    assert Bytes(es[..2]) == 24;
    assert es[..3] == es && es[..3][..2] == es[..2];
    assert Bytes(es[..3]) == 32;
  }

  /** The layout pushed by the renderer's constructor: three GL_FLOAT elements of 3, 3 and
      2 components, 32 bytes per vertex. */
  method MakeTerrainLayout() returns (layout: VertexBufferLayout)
    ensures fresh(layout) && layout.Valid()
    ensures layout.elements == TerrainLayout() && layout.stride == 32
  {
    layout := new VertexBufferLayout();
    layout.Push(GL_FLOAT, 3);
    layout.Push(GL_FLOAT, 3);
    layout.Push(GL_FLOAT, 2);
    assert layout.elements == TerrainLayout();
    TerrainLayoutStride();
  }

  /** Object names of the GL objects a renderer owns, supplied by the caller. */
  datatype RendererHandles = RendererHandles(vao: nat, vbo: nat, ibo: nat)

  /** TerrainRenderer: a vertex array with the terrain layout, an empty vertex buffer and
      index buffer, and the mesh data last uploaded into them. */
  class TerrainRenderer {
    const vao: VertexArray
    const vbo: VertexBuffer
    const ibo: IndexBuffer
    var vertexData: seq<Vertex>
    var indexData: seq<nat>

    /** Creates the buffers empty and wires the layout (3, 3, 2 floats) into the vertex array. */
    constructor (handles: RendererHandles)
      ensures fresh(vao) && fresh(vbo) && fresh(ibo)
      ensures vao.enabled == SlotsBelow(3)
      ensures vao.attributes == AttribTable(TerrainLayout(), 32, 3)
      ensures vbo.count == 0 && ibo.count == 0
      ensures vertexData == [] && indexData == []
    {
      var va := new VertexArray(handles.vao);
      var vb := new VertexBuffer(handles.vbo, 0, GL_FLOAT);
      var ib := new IndexBuffer(handles.ibo, 0);
      var layout := MakeTerrainLayout();
      va.AddBuffer(vb, layout);
      vao, vbo, ibo := va, vb, ib;
      vertexData := [];
      indexData := [];
    }

    /** updateBuffers: nothing is built or uploaded for an empty grid; on a grid that fits,
        the vertex and index buffers of the field replace the uploaded data. On a larger
        grid the source's wrapped buffer sizes or its i32 casts make the loops undefined
        (writes past a buffer, a signed overflow, a clamp with lo > hi); the model then
        uploads nothing. */
    method UpdateBuffers(heights: seq<real>, width: u32, depth: u32)
      requires MeshFits(width, depth) ==> |heights| >= width * depth
      modifies this
      ensures !MeshFits(width, depth) ==> vertexData == old(vertexData) && indexData == old(indexData)
      ensures MeshFits(width, depth) ==>
        vertexData == MeshVertices(heights, width, depth) && indexData == MeshIndices(width, depth)
    {
      if width == 0 || depth == 0 { return; }
      if !MeshFits(width, depth) { return; }
      var vertices := BuildVertices(heights, width, depth);
      var indices := BuildIndices(width, depth);
      vertexData := vertices;
      indexData := indices;
    }
  }
}
