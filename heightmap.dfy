/** The terrain's height field (Geophagia's Terrain): a width x depth grid of heights,
    created flat, loaded from a raw file or from a greyscale image, and handed to the
    terrain renderer after every change. */
module Heightmap {
  import opened Common
  import opened TerrainMesh

  /** The raw file format: a header of two little-endian uint32 values (width, then depth),
      followed by the samples, one 32-bit float each. */
  const HEADER_BYTES: nat := 8
  const SAMPLE_BYTES: nat := 4

  /** The height std::vector::resize(n, value) gives to new entries of a raw map. */
  const RAW_FILL: real := 2.0

  /** The uint32 stored little-endian at b[at .. at + 4]. */
  function LeU32(b: seq<byte>, at: nat): u32
    requires at + 4 <= |b|
  {
    b[at] as int + 0x100 * b[at + 1] as int + 0x1_0000 * b[at + 2] as int + 0x100_0000 * b[at + 3] as int
  }

  /** The four little-endian bytes of a uint32. */
  function EncodeU32(v: u32): (b: seq<byte>)
    ensures |b| == 4
  {
    [v % 0x100, (v / 0x100) % 0x100, (v / 0x1_0000) % 0x100, v / 0x100_0000]
  }

  /** Decoding the encoding of a uint32 gives it back. */
  lemma LeU32OfEncodeU32(v: u32)
    ensures LeU32(EncodeU32(v), 0) == v
  {
    var b := EncodeU32(v);
    assert v / 0x100 == b[1] + 0x100 * (v / 0x1_0000);
    assert v / 0x1_0000 == b[2] as int + 0x100 * b[3] as int;
  }

  /** The payload bytes of a sequence of float bit patterns. */
  function EncodeWords(ws: seq<u32>): (b: seq<byte>)
    ensures |b| == SAMPLE_BYTES * |ws|
  {
    if ws == [] then [] else EncodeWords(ws[..|ws| - 1]) + EncodeU32(ws[|ws| - 1])
  }

  /** A raw heightmap file with the given header and samples. */
  function EncodeRaw(width: u32, depth: u32, ws: seq<u32>): (b: seq<byte>)
    ensures |b| == HEADER_BYTES + SAMPLE_BYTES * |ws|
  {
    EncodeU32(width) + EncodeU32(depth) + EncodeWords(ws)
  }

  /** Number of samples in the payload of a file that passed the size checks. */
  function PayloadCount(file: seq<byte>): nat
  {
    if |file| < HEADER_BYTES then 0 else (|file| - HEADER_BYTES) / SAMPLE_BYTES
  }

  /** The bit pattern of sample k of the payload. */
  function PayloadWord(file: seq<byte>, k: nat): u32
    requires k < PayloadCount(file)
  {
    LeU32(file, HEADER_BYTES + SAMPLE_BYTES * k)
  }

  /** Sample k of an encoded file is the k-th word that was encoded. */
  lemma {:induction false} PayloadWordOfEncodeWords(header: seq<byte>, ws: seq<u32>, k: nat)
    requires |header| == HEADER_BYTES && k < |ws|
    ensures PayloadCount(header + EncodeWords(ws)) == |ws|
    ensures PayloadWord(header + EncodeWords(ws), k) == ws[k]
  {
    var init := ws[..|ws| - 1];
    var last := ws[|ws| - 1];
    assert ws == init + [last];
    if k < |ws| - 1 {
      PayloadWordOfEncodeWords(header, init, k);
      var f := header + EncodeWords(ws);
      var g := header + EncodeWords(init);
      assert f == g + EncodeU32(last);
      assert f[HEADER_BYTES + SAMPLE_BYTES * k .. HEADER_BYTES + SAMPLE_BYTES * k + 4]
          == g[HEADER_BYTES + SAMPLE_BYTES * k .. HEADER_BYTES + SAMPLE_BYTES * k + 4];
    } else {
      var f := header + EncodeWords(ws);
      var at := HEADER_BYTES + SAMPLE_BYTES * k;
      assert f[at .. at + 4] == EncodeU32(last);
      LeU32OfEncodeU32(last);
    }
  }

  /** How loadRawFromFile ends, as decided by the file alone. */
  datatype RawOutcome =
    | OpenFailed
    | InvalidFileSize
    | InvalidPayload
    | ZeroDimensions(width: u32, depth: u32)
    | Loaded(width: u32, depth: u32, sizeMismatch: bool)

  /** The validation chain of loadRawFromFile. The payload is the file without its 8-byte
      header; it must be non-empty and a whole number of samples. The header is then read
      (it is there, since the file has at least 12 bytes by now); both dimensions must be
      positive. A payload of another size than width * depth samples is only reported; that
      product is a uint32 product, so it is taken modulo 2^32 before it is scaled to bytes. */
  function RawVerdict(file: Option<seq<byte>>): (o: RawOutcome)
    ensures o.Loaded? ==> file.Some? && |file.value| > HEADER_BYTES
    ensures o.Loaded? ==> o.width > 0 && o.depth > 0
    ensures o.Loaded? ==> (o.sizeMismatch <==> MulU32(o.width, o.depth) != PayloadCount(file.value))
  {
    match file
    case None => OpenFailed
    case Some(f) =>
      if |f| - HEADER_BYTES <= 0 then InvalidFileSize
      else if (|f| - HEADER_BYTES) % SAMPLE_BYTES != 0 then InvalidPayload
      else
        var width, depth := LeU32(f, 0), LeU32(f, 4);
        if width == 0 || depth == 0 then ZeroDimensions(width, depth)
        else Loaded(width, depth, MulU32(width, depth) * SAMPLE_BYTES != |f| - HEADER_BYTES)
  }

  /** std::vector::resize(n, fill): the first n entries are kept, new entries are fill. */
  function Resize(s: seq<real>, n: nat, fill: real): (r: seq<real>)
    ensures |r| == n
    ensures forall i :: 0 <= i < n ==> r[i] == (if i < |s| then s[i] else fill)
  {
    if n <= |s| then s[..n] else s + seq(n - |s|, _ => fill)
  }

  /** Reading the payload over a buffer: the leading entries are overwritten by the decoded
      samples, as many as fit. */
  function ReadPayload(buffer: seq<real>, file: seq<byte>, decode: u32 -> real): (r: seq<real>)
    ensures |r| == |buffer|
  {
    seq(|buffer|, i requires 0 <= i < |buffer| =>
      if i < PayloadCount(file) then decode(PayloadWord(file, i)) else buffer[i])
  }

  /** The heights after loading n samples over the old heights: sample i where the payload
      has one, the old height where it does not, and 2.0 past the old heights. */
  function LoadedHeights(prior: seq<real>, file: seq<byte>, decode: u32 -> real, n: nat): (r: seq<real>)
    ensures |r| == n
  {
    seq(n, i requires 0 <= i < n =>
      if i < PayloadCount(file) then decode(PayloadWord(file, i))
      else if i < |prior| then prior[i] else RAW_FILL)
  }

  /** A file whose payload holds exactly the (wrapped) width * depth samples replaces every
      height by the decoded sample, whatever the old heights were. */
  lemma MatchingPayloadReplacesAll(prior: seq<real>, file: Option<seq<byte>>, decode: u32 -> real)
    requires RawVerdict(file).Loaded? && !RawVerdict(file).sizeMismatch
    ensures var o := RawVerdict(file);
      forall i :: 0 <= i < MulU32(o.width, o.depth) ==>
        LoadedHeights(prior, file.value, decode, MulU32(o.width, o.depth))[i] == decode(PayloadWord(file.value, i))
  {
  }

  /** A file with nothing after the header is refused. */
  lemma HeaderOnlyFileFails(width: u32, depth: u32)
    ensures RawVerdict(Some(EncodeRaw(width, depth, []))) == InvalidFileSize
  {
  }

  /** Round trip: a file written from positive dimensions and width * depth samples loads,
      with a size warning exactly when width * depth does not fit in 32 bits, and the heights
      are the decoded samples in order (the first width * depth modulo 2^32 of them). */
  lemma RawRoundTrip(width: u32, depth: u32, ws: seq<u32>, prior: seq<real>, decode: u32 -> real)
    requires width > 0 && depth > 0 && |ws| == width * depth
    ensures RawVerdict(Some(EncodeRaw(width, depth, ws))) == Loaded(width, depth, width * depth >= U32_MOD)
    ensures LoadedHeights(prior, EncodeRaw(width, depth, ws), decode, MulU32(width, depth))
      == seq(MulU32(width, depth), i requires 0 <= i < MulU32(width, depth) => decode(ws[i]))
  {
    var f := EncodeRaw(width, depth, ws);
    var header := EncodeU32(width) + EncodeU32(depth);
    assert f == header + EncodeWords(ws);
    LeU32OfEncodeU32(width);
    LeU32OfEncodeU32(depth);
    assert f[0..4] == EncodeU32(width) && f[4..8] == EncodeU32(depth);
    assert LeU32(f, 0) == width && LeU32(f, 4) == depth;
    assert |ws| > 0 by { MulAtLeast(width, depth); }
    PayloadWordOfEncodeWords(header, ws, 0);
    forall i | 0 <= i < MulU32(width, depth)
      ensures LoadedHeights(prior, f, decode, MulU32(width, depth))[i] == decode(ws[i])
    {
      PayloadWordOfEncodeWords(header, ws, i);
    }
  }

  /** A greyscale image as stbi_load returns it: dimensions and one byte per pixel. */
  datatype Image = Image(width: i32, height: i32, pixels: seq<byte>)

  /** stbi_load hands back width * height pixels for an image it decoded. */
  predicate WellFormed(image: Option<Image>)
  {
    image.Some? && image.value.width > 0 && image.value.height > 0 ==>
      |image.value.pixels| >= image.value.width * image.value.height
  }

  /** The heights of an image: pixel i, as a number, for each of the first width * height
      pixels, that count being a uint32 product taken modulo 2^32. */
  function ImageHeights(image: Image): (r: seq<real>)
    requires image.width > 0 && image.height > 0 && |image.pixels| >= image.width * image.height
    ensures |r| == MulU32(image.width, image.height)
    ensures forall i :: 0 <= i < |r| ==> r[i] == image.pixels[i] as real
  {
    seq(MulU32(image.width, image.height), i requires 0 <= i < MulU32(image.width, image.height) =>
      image.pixels[i] as real)
  }

  /** Heights loaded from an image lie in [0, 255]. */
  lemma ImageHeightsAreBytes(image: Image)
    requires image.width > 0 && image.height > 0 && |image.pixels| >= image.width * image.height
    ensures forall i :: 0 <= i < |ImageHeights(image)| ==> 0.0 <= ImageHeights(image)[i] <= 255.0
  {
  }

  /** Terrain: the height field and the renderer that draws it. */
  class Terrain {
    var width: u32
    var depth: u32
    var heights: seq<real>
    const renderer: TerrainRenderer

    /** Heights cover the grid (width * depth modulo 2^32 of them), except that a failed raw
        load may leave a zero dimension in place over older heights. */
    ghost predicate Valid()
      reads this
    {
      width * depth == 0 || |heights| == MulU32(width, depth)
    }

    /** Terrain(): an empty 0 x 0 terrain. */
    constructor (handles: RendererHandles)
      ensures Valid()
      ensures width == 0 && depth == 0 && heights == []
      ensures fresh(renderer) && renderer.vertexData == [] && renderer.indexData == []
    {
      width, depth := 0, 0;
      heights := [];
      renderer := new TerrainRenderer(handles);
    }

    /** Terrain(width, depth): a flat terrain of width * depth (modulo 2^32) heights, every
        height 0, handed to the renderer. */
    constructor Sized(width: u32, depth: u32, handles: RendererHandles)
      ensures Valid()
      ensures this.width == width && this.depth == depth
      ensures |heights| == MulU32(width, depth)
      ensures forall i :: 0 <= i < |heights| ==> heights[i] == 0.0
      ensures fresh(renderer)
      ensures MeshFits(width, depth) ==>
        renderer.vertexData == MeshVertices(heights, width, depth)
        && renderer.indexData == MeshIndices(width, depth)
      ensures !MeshFits(width, depth) ==> renderer.vertexData == [] && renderer.indexData == []
    {
      this.width, this.depth := width, depth;
      var n := MulU32(width, depth);
      heights := Resize([], n, 0.0);
      renderer := new TerrainRenderer(handles);
      new;
      var i: nat := 0;
      while i < n
        invariant this.width == width && this.depth == depth
        invariant renderer.vertexData == [] && renderer.indexData == []
        invariant i <= n && |heights| == n
        invariant forall k :: 0 <= k < |heights| ==> heights[k] == 0.0
      {
        heights := heights[i := 0.0];
        i := i + 1;
      }
      renderer.UpdateBuffers(heights, width, depth);
    }

    /** loadRawFromFile over the file's bytes (None when it cannot be opened). Returns
        whether the map was loaded. A refused file leaves the terrain as it was, except that
        zero dimensions read from the header are stored before they are refused. A loaded
        map resizes the heights to width * depth modulo 2^32 (new entries 2.0), reads the
        payload over them and hands them to the renderer. */
    method LoadRawFromFile(file: Option<seq<byte>>, decode: u32 -> real) returns (ok: bool)
      requires Valid()
      modifies this, renderer
      ensures Valid()
      ensures ok <==> RawVerdict(file).Loaded?
      ensures RawVerdict(file) in {OpenFailed, InvalidFileSize, InvalidPayload} ==>
        width == old(width) && depth == old(depth) && heights == old(heights)
        && renderer.vertexData == old(renderer.vertexData) && renderer.indexData == old(renderer.indexData)
      ensures RawVerdict(file).ZeroDimensions? ==>
        width == RawVerdict(file).width && depth == RawVerdict(file).depth && heights == old(heights)
        && renderer.vertexData == old(renderer.vertexData) && renderer.indexData == old(renderer.indexData)
      ensures RawVerdict(file).Loaded? ==>
        width == RawVerdict(file).width && depth == RawVerdict(file).depth
        && heights == LoadedHeights(old(heights), file.value, decode, MulU32(width, depth))
      ensures RawVerdict(file).Loaded? && MeshFits(width, depth) ==>
        renderer.vertexData == MeshVertices(heights, width, depth)
        && renderer.indexData == MeshIndices(width, depth)
      ensures RawVerdict(file).Loaded? && !MeshFits(width, depth) ==>
        renderer.vertexData == old(renderer.vertexData) && renderer.indexData == old(renderer.indexData)
    {
      if file.None? {
        return false;
      }
      var f := file.value;
      var size := |f| - HEADER_BYTES;
      if size <= 0 {
        return false;
      }
      if size % SAMPLE_BYTES != 0 {
        return false;
      }
      width := LeU32(f, 0);
      depth := LeU32(f, 4);
      if width == 0 || depth == 0 {
        return false;
      }
      var sizeMismatch := MulU32(width, depth) * SAMPLE_BYTES != size;
      ghost var before := heights;
      heights := Resize(heights, MulU32(width, depth), RAW_FILL);
      heights := ReadPayload(heights, f, decode);
      assert heights == LoadedHeights(before, f, decode, MulU32(width, depth));
      renderer.UpdateBuffers(heights, width, depth);
      return true;
    }

    /** loadImageFromFile over the decoded image (None when decoding fails). A missing image
        or one without positive dimensions is refused and changes nothing; otherwise the
        dimensions are the image's and height i is pixel i, then the map goes to the renderer. */
    method LoadImageFromFile(image: Option<Image>) returns (ok: bool)
      requires Valid() && WellFormed(image)
      modifies this, renderer
      ensures Valid()
      ensures ok <==> image.Some? && image.value.width > 0 && image.value.height > 0
      ensures !ok ==>
        width == old(width) && depth == old(depth) && heights == old(heights)
        && renderer.vertexData == old(renderer.vertexData) && renderer.indexData == old(renderer.indexData)
      ensures ok ==>
        width == image.value.width && depth == image.value.height
        && heights == ImageHeights(image.value)
      ensures ok && MeshFits(width, depth) ==>
        renderer.vertexData == MeshVertices(heights, width, depth)
        && renderer.indexData == MeshIndices(width, depth)
      ensures ok && !MeshFits(width, depth) ==>
        renderer.vertexData == old(renderer.vertexData) && renderer.indexData == old(renderer.indexData)
    {
      if image.None? {
        return false;
      }
      var img := image.value;
      if img.width <= 0 || img.height <= 0 {
        return false;
      }
      width := img.width;
      depth := img.height;
      var n := MulU32(width, depth);
      assert n <= |img.pixels|;
      heights := Resize(heights, n, 0.0);
      var i: nat := 0;
      while i < n
        invariant width == img.width && depth == img.height
        invariant renderer.vertexData == old(renderer.vertexData) && renderer.indexData == old(renderer.indexData)
        invariant i <= n && |heights| == n
        invariant forall k :: 0 <= k < i ==> heights[k] == img.pixels[k] as real
      {
        heights := heights[i := img.pixels[i] as real];
        i := i + 1;
      }
      assert heights == ImageHeights(img);
      renderer.UpdateBuffers(heights, width, depth);
      return true;
    }
  }
}
