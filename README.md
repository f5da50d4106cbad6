# Geophagia terrain core in Dafny

Geophagia is a terrain editor built on the Necrosis renderer. This project models:

- **TerrainMesh** (TerrainRenderer): how a `width x depth` height field becomes a
  triangle mesh. There is one vertex per grid cell, with clamped neighbour lookups for the
  slope vector. Each grid quad gives six indices in row-major order. The vertex layout
  (3, 3, 2 floats) is wired into the vertex array.
- **Heightmap** (Terrain): the terrain object.
  - Its sized constructor.
  - The raw loader, as a parser over the file's bytes: an 8-byte header of two
    little-endian `u32`, then 4-byte samples. The validation chain is modelled branch by branch,
    including the dimensions stored before they are refused, the size mismatch that
    only warns, and the 32-bit wrap of the `u32` product `width * depth`.
  - The image loader, as a copy from decoded pixels.
- **Fbm** (FbmGenerator):
  - the octave clamp;
  - the in-place swap shuffle of the 512-entry permutation table;
  - the two-level hash and the lattice cell of `_sample`;
  - `fade` and `lerp` over the reals;
  - the octave sums of `_generateHeightmap`.
- **Voronoi** (VoronoiGenerator): the guards, the centroid creation and the per-cell
  scan as written, which seeds its minimum from the origin (see "## Findings"), beside the
  corrected nearest-centroid scan.
- **Buffer** (Buffer.h / Buffer.cpp):
  - `getSizeofType`;
  - the layout's `push` and stride;
  - the attribute offsets of `addBuffer` as prefix sums, with `uint32_t` and `uint64_t`
    wrap-around written out;
  - the counts of the vertex and index buffers.
- **Texture** (Texture.cpp):
  - the texture registry, a vector of textures whose ids are their insertion positions;
  - `updateTexture`;
  - the sampler's move operations and `setAnisotropySamples`.

How the code is written:

- Code that changes state in the source is a class whose fields the methods update, with
  `modifies` clauses. Each loop method is proved against a specification function, for
  example `BuildIndices` against `MeshIndices`, `ShuffleTable` against `Shuffle` and
  `ScanCells` against `FieldAsWritten`. The properties are lemmas about those functions.
- Several things are parameters instead of code:
  - the random streams, which are input sequences of draws;
  - `glm::length`, which is a distance function;
  - the decoding of an `f32` payload word, which is a function `u32 -> real`;
  - stb_image, which is its result (an `Image`, or a `Decoded` given by a function of the
    path and the requested channel count);
  - GL object names, which the caller supplies.
- A GL call that matters is returned as a value: the texture deleted, the names bound,
  the upload made or the anisotropy applied.
- Floats are modelled as `real`.

## Model

| member | source | states |
|---|---|---|
| Common.MulU32 | src/Terrain/Terrain.cpp:71 | the `u32` product `_width * _depth`: never above the true product, equal to it exactly when the product is below 2^32, and positive only when both factors are |
| Common.Clamp | src/Terrain/TerrainRenderer.cpp:52-53 | std::clamp: the result lies in [lo, hi], equals v inside it, and is the nearer bound outside it |
| TerrainMesh.HeightAt | src/Terrain/TerrainRenderer.cpp:51-55 | the getHeight lambda: x clamped to [0, width-1] and z to [0, depth-1], then the row-major sample; HeightAtReplicatesBorder states what it reads inside and outside the grid |
| TerrainMesh.VertexAt | src/Terrain/TerrainRenderer.cpp:61-81 | the vertex of cell (x, z): position (x - width/2, sample, z - depth/2), slope vector (hL - hR, 2, hU - hD) from clamped neighbours, uv (x/width, z/depth); VertexForSlot and FlatFieldNormals state where it lies and what it gives on a flat field |
| TerrainMesh.MeshVertices | src/Terrain/TerrainRenderer.cpp:47-85 | the vertex buffer: width*depth vertices, slot i holding the vertex of cell (i % width, i / width); MeshVerticesAtCell states its length and per-cell content, and BuildVertices is proved equal to it |
| TerrainMesh.HeightAtReplicatesBorder | src/Terrain/TerrainRenderer.cpp:51-55 | inside the grid the clamped lookup reads heights[z*width + x]; left, right, above and below the grid it reads the border sample of that row or column |
| TerrainMesh.VertexForSlot | src/Terrain/TerrainRenderer.cpp:58-61 | slot z*width + x lies in the buffer and holds the vertex built for cell (x, z) |
| TerrainMesh.MeshVerticesAtCell | src/Terrain/TerrainRenderer.cpp:47-82 | the vertex buffer has width*depth entries; slot z*width + x holds cell (x, z)'s vertex, whose y is heights[z*width + x] |
| TerrainMesh.FlatFieldNormals | src/Terrain/TerrainRenderer.cpp:63-68 | on a constant field the vector passed to normalize is (0, 2, 0) at every vertex, border vertices included |
| TerrainMesh.QuadIndices | src/Terrain/TerrainRenderer.cpp:93-106 | the six indices of quad (x, z): (bottomLeft, topRight, topLeft, bottomRight, topRight, bottomLeft); QuadIndicesInGrid states that each lies below width*depth |
| TerrainMesh.MeshIndices | src/Terrain/TerrainRenderer.cpp:48-109 | the index buffer: 6*(width-1)*(depth-1) entries, the quads' indices in z/x order; MeshIndicesAtQuad, MeshIndicesGrow and MeshIndicesInBounds state its layout and bounds, and BuildIndices is proved equal to it |
| TerrainMesh.QuadNumber | src/Terrain/TerrainRenderer.cpp:89-107 | entry 6*(z*(width-1) + x) + k of the flat index buffer is corner k of quad (x, z) |
| TerrainMesh.MeshIndicesAtQuad | src/Terrain/TerrainRenderer.cpp:48-107 | the index buffer has 6*(width-1)*(depth-1) entries, and quad (x, z) occupies the six entries starting at 6*(z*(width-1) + x) as [bl, tr, tl, br, tr, bl] |
| TerrainMesh.MeshIndicesGrow | src/Terrain/TerrainRenderer.cpp:89-107 | the index buffer up to the end of quad (x, z) is the buffer up to its start followed by that quad's six indices, so quads appear in row-major order |
| TerrainMesh.QuadIndicesInGrid | src/Terrain/TerrainRenderer.cpp:93-96 | every corner of a quad is a vertex of the grid (< width*depth) |
| TerrainMesh.MeshIndicesInBounds | src/Terrain/TerrainRenderer.cpp:93-107 | every index in the index buffer is smaller than width*depth |
| TerrainMesh.TwoByTwoMesh | src/Terrain/TerrainRenderer.cpp:89-107 | a 2x2 field gives exactly the triangles (0, 3, 2) and (1, 3, 0) |
| TerrainMesh.BuildVertices | src/Terrain/TerrainRenderer.cpp:47-85 | the vertex loop fills all width*depth slots, and the buffer equals MeshVertices |
| TerrainMesh.BuildIndices | src/Terrain/TerrainRenderer.cpp:48-109 | the index loop fills all 6*(width-1)*(depth-1) slots, and the buffer equals MeshIndices |
| TerrainMesh.WriteQuad | src/Terrain/TerrainRenderer.cpp:93-106 | the six stores of a quad put its [bl, tr, tl, br, tr, bl] after the entries already written, and the entries after the six keep their values |
| TerrainMesh.TerrainLayout | src/Terrain/TerrainRenderer.cpp:17-20 | the elements the renderer pushes: position and normal of three floats, uv of two; TerrainLayoutStride and MakeTerrainLayout state the stride and offsets |
| TerrainMesh.TerrainLayoutStride | src/Terrain/TerrainRenderer.cpp:17-20 | the terrain layout has a 32-byte stride, with attributes at offsets 0, 12 and 24 |
| TerrainMesh.MakeTerrainLayout | src/Terrain/TerrainRenderer.cpp:17-20 | the three pushes give elements (GL_FLOAT, 3), (GL_FLOAT, 3), (GL_FLOAT, 2), all normalized, with stride 32 |
| TerrainMesh.TerrainRenderer.constructor | src/Terrain/TerrainRenderer.cpp:9-24 | empty vertex and index buffers (count 0); the vertex array enables slots 0..2 with the terrain layout's attributes |
| TerrainMesh.MeshFits | src/Terrain/TerrainRenderer.cpp:47-54 | the grids on which updateBuffers is defined: both dimensions positive and below 2^31, width*depth and 6*(width-1)*(depth-1) below 2^32; MeshFitsSizes states that the wrapped buffer sizes are then the true counts |
| TerrainMesh.MeshFitsSizes | src/Terrain/TerrainRenderer.cpp:47-49 | on a grid that fits, the wrapped `u32` sizes `width * depth` and `numQuads * 6` are the true vertex and index counts |
| TerrainMesh.TerrainRenderer.UpdateBuffers | src/Terrain/TerrainRenderer.cpp:40-116 | a grid that fits (MeshFits: both dimensions positive and below 2^31, width*depth and 6*(width-1)*(depth-1) below 2^32) gets MeshVertices and MeshIndices of the field as its uploaded data; any other grid (empty, or undefined behaviour in the source) changes nothing |
| Heightmap.LeU32 | src/Terrain/Terrain.cpp:55-62 | the uint32 that file.read stores from four little-endian bytes; LeU32OfEncodeU32 states that it inverts the encoding |
| Heightmap.PayloadWord | src/Terrain/Terrain.cpp:80 | the bit pattern of payload sample k, four bytes at 8 + 4k; PayloadWordOfEncodeWords states that it reads back the words written |
| Heightmap.LeU32OfEncodeU32 | src/Terrain/Terrain.cpp:55-62 | reading a little-endian u32 back from its four bytes gives the value |
| Heightmap.PayloadWordOfEncodeWords | src/Terrain/Terrain.cpp:80 | sample k of a payload written from words ws is ws[k], and the payload holds one sample per word |
| Heightmap.RawVerdict | src/Terrain/Terrain.cpp:36-77 | the validation chain: a file that loads has more than 8 bytes and positive dimensions, and a size mismatch is flagged exactly when width*depth modulo 2^32 differs from the count of payload samples |
| Heightmap.Resize | src/Terrain/Terrain.cpp:79 | std::vector::resize(n, fill): n entries, the old entries kept, the new ones set to fill |
| Heightmap.ReadPayload | src/Terrain/Terrain.cpp:80 | the read into the heights buffer: as many leading entries as the payload holds are replaced by the decoded samples, the rest kept; MatchingPayloadReplacesAll states that a matching payload replaces them all |
| Heightmap.LoadedHeights | src/Terrain/Terrain.cpp:79-80 | the heights after resize(n, 2.0) and the payload read: n entries, sample i where the payload has one, else the old height, else 2.0; MatchingPayloadReplacesAll and RawRoundTrip state it for matching and encoded files |
| Heightmap.MatchingPayloadReplacesAll | src/Terrain/Terrain.cpp:79-80 | when the payload holds exactly width*depth (modulo 2^32) samples, height i is decoded sample i, whatever the old heights were |
| Heightmap.HeaderOnlyFileFails | src/Terrain/Terrain.cpp:45-49 | a file with nothing after its 8-byte header is refused as an invalid size |
| Heightmap.RawRoundTrip | src/Terrain/Terrain.cpp:35-86 | a file written from positive dimensions and width*depth samples loads, with a size warning exactly when width*depth is at least 2^32; the heights are the first width*depth modulo 2^32 decoded samples in order |
| Heightmap.ImageHeights | src/Terrain/Terrain.cpp:112-115 | width*height modulo 2^32 heights, height i being pixel i as a number; ImageHeightsAreBytes states that they lie in [0, 255] |
| Heightmap.ImageHeightsAreBytes | src/Terrain/Terrain.cpp:112-115 | heights copied from an image lie in [0, 255] |
| Heightmap.Terrain.constructor | src/Terrain/Terrain.cpp:9 | an empty 0x0 terrain with no heights and a fresh renderer |
| Heightmap.Terrain.Sized | src/Terrain/Terrain.cpp:11-25 | width*depth modulo 2^32 heights, all 0; on a grid that fits (MeshFits) the renderer holds the mesh of that flat field, otherwise its data stay empty |
| Heightmap.Terrain.LoadRawFromFile | src/Terrain/Terrain.cpp:35-87 | result true exactly when the file passes the chain; open, size and payload failures change nothing; a zero dimension is stored with the heights untouched; a load stores the header's dimensions, the heights LoadedHeights over width*depth modulo 2^32 entries (samples over the old heights, 2.0 past them), and the renderer holds the mesh when the grid fits (MeshFits) and is unchanged otherwise |
| Heightmap.Terrain.LoadImageFromFile | src/Terrain/Terrain.cpp:89-120 | a missing image or a non-positive dimension is refused and changes nothing; otherwise the dimensions are the image's, there are width*height modulo 2^32 heights with height i pixel i, and the renderer holds the mesh when the grid fits (MeshFits) and is unchanged otherwise |
| Fbm.ClampOctaves | src/Terrain/Generators/FbmGenerator.cpp:31-32 | the count lies in [1, 8]: values below 1 become 1, above 8 become 8, the rest are kept |
| Fbm.ClampOctavesIsNearest | src/Terrain/Generators/FbmGenerator.cpp:31-32 | the clamped count is the value of [1, 8] nearest the requested one, and clamping is idempotent |
| Fbm.Mask | src/Terrain/Generators/FbmGenerator.cpp:88-92 | v & 0xff is in [0, 255] and congruent to v modulo 256 |
| Fbm.Hash | src/Terrain/Generators/FbmGenerator.cpp:20-22 | _hash: perm[perm[x & 0xff] + (y & 0xff)]; HashInBounds states that both lookups are in bounds and HashIsPeriodic that it has period 256 in each argument |
| Fbm.HashInBounds | src/Terrain/Generators/FbmGenerator.cpp:20-22 | the inner lookup is at most 510, inside the 512-entry table, and the hash is a valid gradient index |
| Fbm.HashIsPeriodic | src/Terrain/Generators/FbmGenerator.cpp:20-22 | the hash repeats every 256 cells in x and in y |
| Fbm.LatticeBounds | src/Terrain/Generators/FbmGenerator.cpp:88-95 | the corners lie in [0, 255] and x1 = x0 + 1 wrapping 255 to 0; the offset u lies in [0, 1) exactly when 0 <= point.x < 256 |
| Fbm.LatticeOf | src/Terrain/Generators/FbmGenerator.cpp:88-95 | the lattice cell of a point: x0 and y0 are floor & 0xff, x1 and y1 the next cell & 0xff, and u, v the offsets from x0, y0; LatticeBounds states the corner ranges, that 255 wraps to 0, and that an offset lies in [0, 1) exactly when its coordinate lies in [0, 256) |
| Fbm.Fade | src/Terrain/Generators/FbmGenerator.cpp:83 | fade(t) = t*t*(3 - 2t); FadeEndpoints states fade(0) = 0, fade(1) = 1 and its symmetry |
| Fbm.Lerp | src/Terrain/Generators/FbmGenerator.cpp:84 | lerp(p, q, t) = p*(1 - t) + q*t; LerpEndpoints states lerp at 0, at 1 and for p = q |
| Fbm.Sample | src/Terrain/Generators/FbmGenerator.cpp:86-116 | _sample: the four corner gradients by hash, dotted with the corner offsets, mixed by two faded lerps in u and one in v; SampleVanishesOnLattice states that it is 0 at lattice points |
| Fbm.FadeEndpoints | src/Terrain/Generators/FbmGenerator.cpp:83 | fade(0) = 0, fade(1) = 1, fade(1 - t) = 1 - fade(t) |
| Fbm.LerpEndpoints | src/Terrain/Generators/FbmGenerator.cpp:84 | lerp(p, q, 0) = p, lerp(p, q, 1) = q, and lerp(p, p, t) = p |
| Fbm.SampleVanishesOnLattice | src/Terrain/Generators/FbmGenerator.cpp:86-116 | the noise is 0 at every lattice point of the first period |
| Fbm.NextOctave | src/Terrain/Generators/FbmGenerator.cpp:70-73 | one pass of the octave loop: amplitude * (sample + 1)/2 added at the scaled point, the amplitude added to the total, then the amplitude halved and the frequency doubled |
| Fbm.Octaves | src/Terrain/Generators/FbmGenerator.cpp:63-74 | the running values after n passes from height 0, total 0, amplitude 1, frequency 0.01; OctaveTotals states the amplitude and total it reaches |
| Fbm.FbmHeight | src/Terrain/Generators/FbmGenerator.cpp:63-76 | the height of cell (x, z): the octave sum of amplitude * (sample + 1)/2 at doubling frequency from 0.01, divided by total / 256; OctaveTotals states that the total is then at least 1, so the division is defined |
| Fbm.FbmField | src/Terrain/Generators/FbmGenerator.cpp:59-78 | the heights buffer: width*depth entries, slot z*width + x holding FbmHeight of cell (x, z); FbmFieldAtCell states the placement and BuildField is proved equal to it |
| Fbm.OctaveTotals | src/Terrain/Generators/FbmGenerator.cpp:63-76 | the amplitude stays in (0, 1] and the total is 2(1 - amplitude), so after one octave or more the final division by total / 256 is defined |
| Fbm.FbmFieldAtCell | src/Terrain/Generators/FbmGenerator.cpp:59-77 | the field has width*depth entries and cell (x, z)'s height is at slot z*width + x |
| Fbm.ShuffleStep | src/Terrain/Generators/FbmGenerator.cpp:50-52 | step i of the shuffle: entries i and j of the table swapped, then entry i copied to i + 256 |
| Fbm.Shuffle | src/Terrain/Generators/FbmGenerator.cpp:46-53 | the table after the first k steps from the given start; ShuffleIsPermutation, SecondHalfIsSnapshot, FixedDrawsKeepFirstHalf and HalvesCanDiffer state what the steps do to both halves, and ShuffleTable is proved equal to it |
| Fbm.StepPermutesFirstHalf | src/Terrain/Generators/FbmGenerator.cpp:50-51 | one swap step permutes entries 0..255 |
| Fbm.ShuffleIsPermutation | src/Terrain/Generators/FbmGenerator.cpp:46-53 | after the reset and any number of steps, entries 0..255 hold 0..255 in some order |
| Fbm.SecondHalfIsSnapshot | src/Terrain/Generators/FbmGenerator.cpp:49-53 | entry i + 256 is entry i as it stood right after step i, and no later step changes it |
| Fbm.FixedDrawsKeepFirstHalf | src/Terrain/Generators/FbmGenerator.cpp:49-51 | steps whose draw is their own index leave the first half unchanged |
| Fbm.HalvesCanDiffer | src/Terrain/Generators/FbmGenerator.cpp:49-53 | with draws 0, 0, 2, 3, ..., 255 entry 0 ends as 1 while entry 256 is 0: the halves need not agree |
| Fbm.FbmGenerator.constructor | src/Terrain/Generators/FbmGenerator.cpp:8 | three octaves, the given terrain, 256 gradients and a 512-entry table |
| Fbm.FbmGenerator.FillGradients | src/Terrain/Generators/FbmGenerator.cpp:41-44 | the gradients are the first 256 draws, in order |
| Fbm.FbmGenerator.ShuffleTable | src/Terrain/Generators/FbmGenerator.cpp:46-53 | the table after the two loops is Shuffle of the table with its first half reset to 0..255 |
| Fbm.FbmGenerator.CellHeight | src/Terrain/Generators/FbmGenerator.cpp:63-76 | the octave loop for a cell ends in FbmHeight: the octave sum divided by total / 256 |
| Fbm.FbmGenerator.BuildField | src/Terrain/Generators/FbmGenerator.cpp:59-78 | the cell loops fill every slot of the width*depth buffer and give FbmField |
| Fbm.FbmGenerator.GenerateHeightmap | src/Terrain/Generators/FbmGenerator.cpp:24-80 | without a terrain nothing changes; otherwise the octave count is clamped, the gradients and table are rebuilt, and the heights are FbmField over them |
| Voronoi.CentroidOf | src/Terrain/Generators/VoronoiGenerator.cpp:46-52 | centroid k is (draw 3k * width, draw 3k+2 * 256, draw 3k+1 * depth); CentroidInsideTerrain states where it lies for draws in [0, 1) |
| Voronoi.Centroids | src/Terrain/Generators/VoronoiGenerator.cpp:43-53 | the first n centroids in draw order; MakeCentroids is proved equal to it |
| Voronoi.CentroidInsideTerrain | src/Terrain/Generators/VoronoiGenerator.cpp:45-52 | centroid k takes x = draw 3k * width, z = draw 3k+1 * depth and elevation = draw 3k+2 * 256, stored as (x, elevation, z); draws in [0, 1) place it inside the terrain with elevation in [0, 256) |
| Voronoi.ScanAsWritten | src/Terrain/Generators/VoronoiGenerator.cpp:59-70 | the running minimum and height after centroids 1..j-1, seeded with centroid 0's distance from the origin and height 0; ScanAsWrittenSettles states what it settles on |
| Voronoi.FieldAsWritten | src/Terrain/Generators/VoronoiGenerator.cpp:55-71 | the heights as written: width*depth modulo 2^32 cells, cell i getting ScanAsWritten's height at (i % width, i / width); FieldAsWrittenHeights states which values occur, and ScanCells and GenerateHeightmap are proved equal to it |
| Voronoi.ScanAsWrittenSettles | src/Terrain/Generators/VoronoiGenerator.cpp:58-70 | the running minimum is the least of centroid 0's distance from the origin and the distances of centroids 1.. from the cell; the height is 0, or the elevation of the first centroid k >= 1 at the minimum when that is strictly below the origin distance |
| Voronoi.FieldAsWrittenHeights | src/Terrain/Generators/VoronoiGenerator.cpp:55-70 | every height as written is 0 or the elevation of a centroid with index >= 1; with one centroid every height is 0 |
| Voronoi.ScanNearest | src/Terrain/Generators/VoronoiGenerator.cpp:59-70 | the corrected scan: seeded with centroid 0's distance from the cell and centroid 0's elevation; ScanNearestIsNearest states that it finds a nearest centroid |
| Voronoi.NearestField | src/Terrain/Generators/VoronoiGenerator.cpp:55-71 | the corrected heights over the same cells, each from ScanNearest; NearestFieldIsNearest states that each height belongs to a nearest centroid, and ScanCellsNearest is proved equal to it |
| Voronoi.ScanNearestIsNearest | src/Terrain/Generators/VoronoiGenerator.cpp:57-70 | the corrected scan's minimum is the least distance over all centroids, and the height is the elevation of the first centroid at it |
| Voronoi.NearestFieldIsNearest | src/Terrain/Generators/VoronoiGenerator.cpp:55-70 | each corrected height is the elevation of a centroid nearest to its cell |
| Voronoi.SingleCentroidDiscrepancy | src/Terrain/Generators/VoronoiGenerator.cpp:59-70 | with one centroid of non-zero elevation, every height as written is 0 while the corrected field takes that elevation |
| Voronoi.VoronoiGenerator.constructor | src/Terrain/Generators/VoronoiGenerator.cpp:9-10 | 15 centroids and the given terrain |
| Voronoi.VoronoiGenerator.MakeCentroids | src/Terrain/Generators/VoronoiGenerator.cpp:43-53 | exactly n centroids, centroid k built from draws 3k..3k+2 |
| Voronoi.VoronoiGenerator.ScanCentroids | src/Terrain/Generators/VoronoiGenerator.cpp:61-70 | the centroid loop of one cell ends where ScanAsWritten settles when started as the source starts it, and where ScanNearest settles when started from centroid 0 measured from the cell |
| Voronoi.VoronoiGenerator.ScanCells | src/Terrain/Generators/VoronoiGenerator.cpp:55-70 | the cell loop as written gives FieldAsWritten |
| Voronoi.VoronoiGenerator.ScanCellsNearest | src/Terrain/Generators/VoronoiGenerator.cpp:55-70 | the corrected cell loop gives NearestField |
| Voronoi.VoronoiGenerator.GenerateHeightmap | src/Terrain/Generators/VoronoiGenerator.cpp:26-70 | without a terrain or with fewer than one centroid nothing is generated; otherwise the heights are FieldAsWritten, the field of the cell loop as written, over the centroids built from the draws, with width*depth modulo 2^32 cells (so each height is 0 or the elevation of a centroid other than centroid 0, and one centroid gives an all-0 field) |
| Buffer.SizeofType | extern/Necrosis/renderer/Buffer.h:34-41 | GL_FLOAT and GL_UNSIGNED_INT are 4 bytes, GL_UNSIGNED_BYTE is 1, any other type is 0, in both directions |
| Buffer.ElementBytes | extern/Necrosis/renderer/Buffer.h:57 | the bytes one pushed element adds to the stride: the uint32_t product count * sizeof, modulo 2^32 |
| Buffer.Bytes | extern/Necrosis/renderer/Buffer.h:50-58 | the byte sum of a run of elements, without wrap; OffsetsArePrefixSums, BytesAppend and FinalOffsetIsStride relate it to the offsets and the stride |
| Buffer.NormalizedFlag | extern/Necrosis/renderer/Buffer.h:51-54 | the flag push gives a type; NormalizedUnlessUnsignedByte states for which types it is GL_FALSE |
| Buffer.NormalizedUnlessUnsignedByte | extern/Necrosis/renderer/Buffer.h:51-54 | the normalized flag is GL_FALSE exactly for GL_UNSIGNED_BYTE and GL_TRUE otherwise, GL_FLOAT included |
| Buffer.OffsetsArePrefixSums | extern/Necrosis/renderer/Buffer.cpp:50-57 | attribute 0 starts at byte 0 and attribute i + 1 starts where attribute i ends |
| Buffer.BytesAppend | extern/Necrosis/renderer/Buffer.h:57 | appending an element adds its bytes to the total |
| Buffer.VertexBufferLayout.constructor | extern/Necrosis/renderer/Buffer.h:47 | no elements and stride 0 |
| Buffer.VertexBufferLayout.Push | extern/Necrosis/renderer/Buffer.h:50-58 | exactly one element (type, count, flag) is appended; the stride grows by count * size modulo 2^32 and stays the wrapped byte sum of the elements |
| Buffer.VertexBufferLayout.GetStride | extern/Necrosis/renderer/Buffer.h:61 | the stride is the sum of the elements' bytes modulo 2^32 |
| Buffer.AttribFor | extern/Necrosis/renderer/Buffer.cpp:53-57 | the glVertexAttribPointer call for element i: its count, type and flag, the layout's stride, and the running offset modulo 2^64; OffsetsArePrefixSums relates the offset to the byte sums |
| Buffer.AttribTable | extern/Necrosis/renderer/Buffer.cpp:52-57 | the attributes specified are exactly slots 0..n-1, slot i with element i's attribute |
| Buffer.AttribTableCarriesElements | extern/Necrosis/renderer/Buffer.cpp:52-56 | slot i carries element i's count, type and normalized flag; all slots share the stride; the first offset is 0 |
| Buffer.FinalOffsetIsStride | extern/Necrosis/renderer/Buffer.cpp:57 | the final u64 offset agrees with the stride modulo 2^32, and equals it when the bytes fit in 32 bits |
| Buffer.VertexArray.constructor | extern/Necrosis/renderer/Buffer.cpp:39-41 | a fresh vertex array with the given GL name, no slot enabled and no attribute recorded |
| Buffer.VertexArray.AddBuffer | extern/Necrosis/renderer/Buffer.cpp:47-59 | slots 0..n-1 are enabled and slot i is given element i with the layout's stride, at offset the prefix byte sum modulo 2^64 |
| Buffer.VertexBuffer.constructor | extern/Necrosis/renderer/Buffer.cpp:8-19 | the count is size / 4 whatever the type argument |
| Buffer.IndexBuffer.constructor | extern/Necrosis/renderer/Buffer.cpp:72-78 | count * 4 bytes are uploaded and the count is stored |
| Texture.Supported | extern/Necrosis/renderer/Texture.cpp:40-55 | the formats the upload switch accepts: Luminance, RGB and RGBA; DesiredBpp, FormatOfBpp and UploadFormats state that exactly these are decoded and uploaded |
| Texture.DesiredBpp | extern/Necrosis/renderer/Texture.cpp:144-152 | Luminance, RGB and RGBA request 1, 3 and 4 channels; Unknown requests 0 |
| Texture.FormatOfBpp | extern/Necrosis/renderer/Texture.cpp:166-183 | a decoded channel count has a format exactly when it is 1, 3 or 4 |
| Texture.BppRoundTrip | extern/Necrosis/renderer/Texture.cpp:144-183 | the two lookup tables agree: the channel count makeTextureFromFile requests for a supported format maps back to that format. The format of a loaded texture comes from the file's own channel count, which MakeTextureFromFile states |
| Texture.UploadFormats | extern/Necrosis/renderer/Texture.cpp:36-56 | RGBA, RGB and Luminance upload as (RGBA8, RGBA), (RGB8, RGB) and (R8, RED); Unknown does not upload |
| Texture.Texture.constructor | extern/Necrosis/renderer/Texture.cpp:15-17 | a texture holds exactly the path, size, format, GL name and id it is given |
| Texture.Texture.UpdateTexture | extern/Necrosis/renderer/Texture.cpp:29-67 | null data changes nothing; otherwise the size is stored first, even for an unsupported format, and the upload happens exactly for a supported one |
| Texture.FirstWithId | extern/Necrosis/renderer/Texture.cpp:224-227 | the position of the first entry with the id, or -1 exactly when there is none |
| Texture.FirstWithPath | extern/Necrosis/renderer/Texture.cpp:131-135 | the position of the first entry whose path equals the given one under the path equality passed in, or -1 exactly when there is none |
| Texture.RemoveAt | extern/Necrosis/renderer/Texture.cpp:230-233 | erase: one entry fewer, the others in order |
| Texture.HandlesWithIdUnique | extern/Necrosis/renderer/Texture.cpp:200-206 | while ids are positions, bind(id) binds exactly the entry at position id, and an id outside the registry binds nothing |
| Texture.DuplicateIdAfterRemove | extern/Necrosis/renderer/Texture.cpp:118-234 | after removing an entry other than the last, the last entry holds the id the next insertion is given |
| Texture.TextureManager.constructor | extern/Necrosis/renderer/Texture.h:98 | the registry starts empty |
| Texture.TextureManager.MakeTextureFromMemory | extern/Necrosis/renderer/Texture.cpp:89-127 | null data or an unsupported format gives -1 and adds nothing; otherwise one entry is appended with id = old size, no path and format RGBA (the default Texture()'s, Texture.cpp:12-13), and ids stay positions |
| Texture.TextureManager.FindByPath | extern/Necrosis/renderer/Texture.cpp:131-135 | the search loop finds FirstWithPath |
| Texture.TextureManager.MakeTextureFromFile | extern/Necrosis/renderer/Texture.cpp:129-198 | a loaded path returns its first entry's id and adds nothing; a failed decode or a channel count other than 1/3/4 gives -1 and adds nothing; otherwise one entry is appended with the decoded size and format |
| Texture.TextureManager.GetTextureFromID | extern/Necrosis/renderer/Texture.cpp:216-220 | requires 0 <= id < size and returns the entry at position id, which holds that id while ids are positions |
| Texture.TextureManager.FindById | extern/Necrosis/renderer/Texture.cpp:224-227 | the search loop finds FirstWithId |
| Texture.TextureManager.RemoveTexture | extern/Necrosis/renderer/Texture.cpp:223-234 | only the first entry with the id is deleted and erased, the rest keep their order; without one nothing changes |
| Texture.TextureManager.Bind | extern/Necrosis/renderer/Texture.cpp:200-206 | every entry with the id is bound, in registry order |
| Texture.TextureManager.DestroyAll | extern/Necrosis/renderer/Texture.cpp:80-87 | every entry's texture is deleted, in order |
| Texture.TextureSampler.Default | extern/Necrosis/renderer/Texture.h:141-146 | no sampler object (handle 0), an empty name, linear mipmap filtering, clamping, 1 sample |
| Texture.TextureSampler.constructor | extern/Necrosis/renderer/Texture.cpp:242-281 | the parameters are stored and the samples are set through setAnisotropySamples |
| Texture.TextureSampler.Move | extern/Necrosis/renderer/Texture.cpp:290-294 | takes the other's handle and parameters, leaves the other's handle 0 and the other's name, filter, wrap and samples as they were |
| Texture.TextureSampler.MoveAssign | extern/Necrosis/renderer/Texture.cpp:296-310 | self-assignment changes nothing; otherwise its own sampler is deleted if it had one, the other's are taken, the other's handle becomes 0 and its name, filter, wrap and samples stay as they were |
| Texture.TextureSampler.SetAnisotropySamples | extern/Necrosis/renderer/Texture.cpp:318-327 | the requested value is always stored; it is applied exactly when above 1, capped at the platform maximum |

## Left out

- GL, SDL, ImGui and logging calls. GL object names are numbers the caller supplies; binding, unbinding, labels, mipmaps and swizzles are not modelled. `render`, `uiRender`, `bind`/`unbind` of the buffers and all destructors are left out for the same reason.
- The pseudo-random generators (`mt19937`, `mt19937_64` and their distributions). Their draws are input sequences. The gradient angle's `cos`/`sin` is left out too: the gradient draws are the unit vectors themselves.
- Floating-point rounding. Floats are reals, `glm::normalize` is not applied (a vertex keeps the vector passed to it), and `glm::length` is a caller-supplied function.
- File and image I/O. A raw file is its bytes (None when it cannot be opened). stb_image is its decoded result, and the `f32` decoding of a payload word is a function parameter.
- Heightmap.Terrain.LoadRawFromFile: a stream read failure after the size checks cannot happen for a byte sequence of at least 12 bytes, so those branches are unreachable in the model.
- Heightmap.Terrain.LoadRawFromFile: when the payload is longer than the buffer of width*depth (modulo 2^32) samples, the source reads past the buffer. The model keeps only the in-bounds effect: the samples that fit are read.
- TerrainMesh.TerrainRenderer.UpdateBuffers: on a grid that does not fit (MeshFits), the source behaves undefinedly, for three reasons. When width*depth is 2^32 or more, the vertex buffer is sized by the wrapped product and the vertex loop writes past it. When 6*(width-1)*(depth-1) is 2^32 or more (40000 x 40000, say), the index buffer is sized by the wrapped `numQuads * 6` and the quad loop writes past it. When a dimension is 2^31 or more, `static_cast<i32>(width) - 1` overflows or gives `std::clamp` a negative upper bound. The model uploads nothing on such grids, and so promises nothing about what the source's renderer would hold.
- Heightmap.Terrain.Sized: it hands its heights to UpdateBuffers, so on a grid that does not fit (MeshFits) its renderer stays empty; the source's renderer is undefined there.
- Heightmap.Terrain.LoadRawFromFile: it hands its heights to UpdateBuffers, so on a grid that does not fit (MeshFits) the renderer keeps its old data; the source's renderer is undefined there.
- Heightmap.Terrain.LoadImageFromFile: it hands its heights to UpdateBuffers, so on a grid that does not fit (MeshFits) the renderer keeps its old data; the source's renderer is undefined there.
- Fbm.FbmGenerator.GenerateHeightmap: the `u32` products `width * depth` and `z * width + x` are unbounded integers here. When width*depth is 2^32 or more, the source's wrapped index writes outside its wrapped buffer, which is undefined behaviour; the model fills the whole width*depth field instead.
- Texture.FirstWithPath, Texture.TextureManager.FindByPath and Texture.TextureManager.MakeTextureFromFile: `std::filesystem::path` equality, which compares paths element by element, is a parameter (`samePath`) rather than a definition.
- `Terrain::loadRawFromMemory`, `setData` of the vertex and index buffers, and `getWidth`/`getDepth` are not part of this model. The generators return the heights they would hand to the terrain, and the renderer records the data it would upload.
- The default `FbmGenerator()` constructor (no terrain) is not modelled separately; the modelled constructor takes a possibly-null terrain.
- Texture.TextureSampler.Move and Texture.TextureSampler.MoveAssign: the other object's name after `std::move` is unspecified in C++. The model leaves it as it was.
- Texture.TextureSampler.constructor: the filter and wrap parameter calls to GL are not modelled. The anisotropy the constructor applies is not returned, since a constructor has no result.
- Texture ids (`TextureID`, an `i32`) are unbounded integers; narrowing of the registry size to 32 bits is not modelled.
- Texture.Texture.constructor: the `_name` label, the stem of the path, is not modelled; nothing in the modelled operations reads it.
- Texture.TextureManager.MakeTextureFromMemory and Texture.TextureManager.MakeTextureFromFile: the `glTexImage2D` upload these make is not returned. (For RGBA they use internal format RGB8, unlike updateTexture.)

## Findings

| source | as written | input that shows it | evidently intended | confidence | as-written member | corrected member |
|---|---|---|---|---|---|---|
| src/Terrain/Generators/VoronoiGenerator.cpp:59-70 | the running minimum starts at centroid 0's distance from the origin (0, 0), the height stays 0 until a later centroid is strictly nearer, and centroid 0's elevation is never written | a single centroid with elevation 100: every cell gets height 0 instead of 100 | each cell takes the elevation of its nearest centroid, starting from centroid 0 measured from the cell | not executed | Voronoi.SingleCentroidDiscrepancy | Voronoi.ScanNearestIsNearest |
