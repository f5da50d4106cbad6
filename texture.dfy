/** Necrosis textures: the texture registry (TextureManager), the texture objects it holds
    and the sampler objects. GL object names (of textures and samplers) are opaque numbers
    supplied by the caller; a GL call the code makes is returned as what it deletes, binds
    or applies. */
module Texture {
  import opened Common

  /** Texture.h's PixelFormat, FilterType and WrapMode. */
  datatype PixelFormat = Unknown | Luminance | RGB | RGBA
  datatype FilterType = UnknownFilter | Nearest | Linear | LinearMipmap
  datatype WrapMode = Clamp | Repeat | Mirror

  const GL_RED: u32 := 0x1903
  const GL_RGB: u32 := 0x1907
  const GL_RGBA: u32 := 0x1908
  const GL_R8: u32 := 0x8229
  const GL_RGB8: u32 := 0x8051
  const GL_RGBA8: u32 := 0x8058

  /** The error id of the registry. */
  const NO_TEXTURE: int := -1

  /** The formats a texture can be created with. */
  predicate Supported(f: PixelFormat)
  {
    f == Luminance || f == RGB || f == RGBA
  }

  /** Channels requested from the image decoder for a format: 0 lets it keep the file's own. */
  function DesiredBpp(f: PixelFormat): (bpp: int)
    ensures bpp == 0 <==> !Supported(f)
    ensures bpp in {0, 1, 3, 4}
  {
    match f
    case Luminance => 1
    case RGB => 3
    case RGBA => 4
    case Unknown => 0
  }

  /** The format of a decoded image with bpp channels; None for an unsupported count. */
  function FormatOfBpp(bpp: int): (f: Option<PixelFormat>)
    ensures f.Some? <==> bpp in {1, 3, 4}
    ensures f.Some? ==> Supported(f.value)
  {
    if bpp == 1 then Some(Luminance)
    else if bpp == 3 then Some(RGB)
    else if bpp == 4 then Some(RGBA)
    else None
  }

  /** Requesting a supported format and reading back the channel count gives the format. */
  lemma BppRoundTrip(f: PixelFormat)
    requires Supported(f)
    ensures FormatOfBpp(DesiredBpp(f)) == Some(f)
  {
  }

  /** The pixel transfer updateTexture makes: internal format, format and size. */
  datatype Upload = Upload(internalFormat: u32, format: u32, width: int, height: int)

  /** The internal format and format updateTexture uploads with, None for Unknown. */
  function UploadFormats(f: PixelFormat): (r: Option<(u32, u32)>)
    ensures r.Some? <==> Supported(f)
    ensures f == RGBA ==> r == Some((GL_RGBA8, GL_RGBA))
    ensures f == RGB ==> r == Some((GL_RGB8, GL_RGB))
    ensures f == Luminance ==> r == Some((GL_R8, GL_RED))
  {
    match f
    case RGBA => Some((GL_RGBA8, GL_RGBA))
    case RGB => Some((GL_RGB8, GL_RGB))
    case Luminance => Some((GL_R8, GL_RED))
    case Unknown => None
  }

  /** Texture: a GL texture with the path it was loaded from ("" for one made from memory),
      its size, its format, its GL name and its registry id. */
  class Texture {
    const filePath: string
    const format: PixelFormat
    const handle: u32
    const id: int
    var width: int
    var height: int

    constructor (filePath: string, width: int, height: int, format: PixelFormat, handle: u32, id: int)
      ensures this.filePath == filePath && this.width == width && this.height == height
      ensures this.format == format && this.handle == handle && this.id == id
    {
      this.filePath := filePath;
      this.width := width;
      this.height := height;
      this.format := format;
      this.handle := handle;
      this.id := id;
    }

    /** updateTexture: without data nothing changes; otherwise the size is stored first, and
        the upload happens only for a supported format. */
    method UpdateTexture(data: Option<seq<byte>>, width: int, height: int, pixelFormat: PixelFormat)
      returns (upload: Option<Upload>)
      modifies this
      ensures data.None? ==> this.width == old(this.width) && this.height == old(this.height) && upload == None
      ensures data.Some? ==> this.width == width && this.height == height
      ensures upload.Some? <==> data.Some? && Supported(pixelFormat)
      ensures upload.Some? ==>
        (upload.value.internalFormat, upload.value.format) == UploadFormats(pixelFormat).value
        && upload.value.width == width && upload.value.height == height
    {
      if data.None? {
        return None;
      }
      this.width := width;
      this.height := height;
      var format: u32 := 0;
      var internalFormat: u32 := 0;
      match pixelFormat {
        case RGBA =>
          format := GL_RGBA;
          internalFormat := GL_RGBA8;
        case RGB =>
          format := GL_RGB;
          internalFormat := GL_RGB8;
        case Luminance =>
          format := GL_RED;
          internalFormat := GL_R8;
        case Unknown =>
          return None;
      }
      upload := Some(Upload(internalFormat, format, this.width, this.height));
    }
  }

  /** Ids equal positions: what insertion alone keeps. */
  ghost predicate IdsArePositions(ts: seq<Texture>)
  {
    forall i :: 0 <= i < |ts| ==> ts[i].id == i
  }

  /** Position of the first entry with the given id, or -1. */
  function FirstWithId(ts: seq<Texture>, id: int): (k: int)
    ensures -1 <= k < |ts|
    ensures k == -1 <==> forall i :: 0 <= i < |ts| ==> ts[i].id != id
    ensures k >= 0 ==> ts[k].id == id && forall i :: 0 <= i < k ==> ts[i].id != id
  {
    if ts == [] then -1
    else if ts[0].id == id then 0
    else var k := FirstWithId(ts[1..], id); if k == -1 then -1 else k + 1
  }

  /** Position of the first entry whose path equals the given one, or -1. Path equality is
      std::filesystem::path's operator==, which compares the paths element by element (so
      "a//b" equals "a/b"); it is the parameter `samePath`. */
  function FirstWithPath(ts: seq<Texture>, path: string, samePath: (string, string) -> bool): (k: int)
    ensures -1 <= k < |ts|
    ensures k == -1 <==> forall i :: 0 <= i < |ts| ==> !samePath(ts[i].filePath, path)
    ensures k >= 0 ==>
      samePath(ts[k].filePath, path) && forall i :: 0 <= i < k ==> !samePath(ts[i].filePath, path)
  {
    if ts == [] then -1
    else if samePath(ts[0].filePath, path) then 0
    else var k := FirstWithPath(ts[1..], path, samePath); if k == -1 then -1 else k + 1
  }

  /** The entries without the one at position k, the rest in order. */
  function RemoveAt(ts: seq<Texture>, k: nat): (r: seq<Texture>)
    requires k < |ts|
    ensures |r| == |ts| - 1
    ensures forall i :: 0 <= i < k ==> r[i] == ts[i]
    ensures forall i :: k <= i < |r| ==> r[i] == ts[i + 1]
  {
    ts[..k] + ts[k + 1..]
  }

  /** The GL names of the entries with the given id, in registry order. */
  function HandlesWithId(ts: seq<Texture>, id: int): (hs: seq<u32>)
    ensures |hs| <= |ts|
  {
    if ts == [] then []
    else (if ts[0].id == id then [ts[0].handle] else []) + HandlesWithId(ts[1..], id)
  }

  /** While ids equal positions, bind(id) binds exactly the entry at that position, and an
      id outside the registry binds nothing. */
  lemma {:induction false} HandlesWithIdUnique(ts: seq<Texture>, id: int, offset: nat)
    requires forall i :: 0 <= i < |ts| ==> ts[i].id == i + offset
    ensures offset <= id < offset + |ts| ==> HandlesWithId(ts, id) == [ts[id - offset].handle]
    ensures !(offset <= id < offset + |ts|) ==> HandlesWithId(ts, id) == []
  {
    if ts != [] {
      HandlesWithIdUnique(ts[1..], id, offset + 1);
    }
  }

  /** Removing an entry other than the last from a registry whose ids are positions leaves
      the last entry holding the id the next insertion will be given: ids are no longer
      unique after the next insertion. */
  lemma DuplicateIdAfterRemove(ts: seq<Texture>, k: nat)
    requires IdsArePositions(ts) && k + 1 < |ts|
    ensures var r := RemoveAt(ts, k); r[|r| - 1].id == |r|
  {
  }

  /** The result of the decoder for a file: size and channel count of the file. */
  datatype Decoded = Decoded(width: int, height: int, bpp: int)

  /** TextureManager: the registry, a vector of textures whose ids are their positions at
      insertion time. */
  class TextureManager {
    var textures: seq<Texture>

    constructor ()
      ensures textures == []
    {
      textures := [];
    }

    /** makeTextureFromMemory: null data gives -1 and nothing else; an unsupported format
        gives -1 and adds no entry; otherwise one texture, with no path and format RGBA,
        is appended and its id is the former size of the registry. */
    method MakeTextureFromMemory(data: Option<seq<byte>>, width: int, height: int, format: PixelFormat, handle: u32)
      returns (id: int)
      modifies this
      ensures data.None? || !Supported(format) ==> id == NO_TEXTURE && textures == old(textures)
      ensures data.Some? && Supported(format) ==>
        id == |old(textures)| && |textures| == id + 1 && textures[..id] == old(textures)
        && fresh(textures[id]) && textures[id].id == id && textures[id].handle == handle
        && textures[id].filePath == "" && textures[id].format == RGBA
        && textures[id].width == width && textures[id].height == height
      ensures IdsArePositions(old(textures)) ==> IdsArePositions(textures)
    {
      if data.None? {
        return NO_TEXTURE;
      }
      if !(format == Luminance || format == RGB || format == RGBA) {
        return NO_TEXTURE;
      }
      id := |textures|;
      var tex := new Texture("", width, height, RGBA, handle, id);
      textures := textures + [tex];
    }

    /** The search loop of makeTextureFromFile. */
    method FindByPath(path: string, samePath: (string, string) -> bool) returns (k: int)
      ensures k == FirstWithPath(textures, path, samePath)
    {
      var i := 0;
      while i < |textures|
        invariant 0 <= i <= |textures|
        invariant forall j :: 0 <= j < i ==> !samePath(textures[j].filePath, path)
      {
        if samePath(textures[i].filePath, path) {
          return i;
        }
        i := i + 1;
      }
      return -1;
    }

    /** makeTextureFromFile, with `decode` standing for stbi_load given the requested channel
        count and `samePath` for path equality. A texture already loaded from the path gives the id of the first such entry;
        otherwise a failed decode or a channel count other than 1, 3 or 4 gives -1 and adds
        no entry, and a decoded file is appended with the format of its channel count. */
    method MakeTextureFromFile(
      path: string, format: PixelFormat, decode: (string, int) -> Option<Decoded>, handle: u32,
      samePath: (string, string) -> bool)
      returns (id: int)
      modifies this
      ensures FirstWithPath(old(textures), path, samePath) >= 0 ==>
        id == old(textures)[FirstWithPath(old(textures), path, samePath)].id && textures == old(textures)
      ensures FirstWithPath(old(textures), path, samePath) == -1 ==>
        var d := decode(path, DesiredBpp(format));
        if d.None? || FormatOfBpp(d.value.bpp).None? then id == NO_TEXTURE && textures == old(textures)
        else
          id == |old(textures)| && |textures| == id + 1 && textures[..id] == old(textures)
          && fresh(textures[id]) && textures[id].id == id && textures[id].handle == handle
          && textures[id].filePath == path && textures[id].format == FormatOfBpp(d.value.bpp).value
          && textures[id].width == d.value.width && textures[id].height == d.value.height
      ensures IdsArePositions(old(textures)) ==> IdsArePositions(textures)
    {
      var k := FindByPath(path, samePath);
      if k >= 0 {
        return textures[k].id;
      }
      var desiredBpp := 0;
      match format {
        case Luminance => desiredBpp := 1;
        case RGB => desiredBpp := 3;
        case RGBA => desiredBpp := 4;
        case Unknown => desiredBpp := 0;
      }
      var texBuffer := decode(path, desiredBpp);
      if texBuffer.None? {
        return NO_TEXTURE;
      }
      var bppx := texBuffer.value.bpp;
      var chosen: PixelFormat;
      if bppx == 1 {
        chosen := Luminance;
      } else if bppx == 3 {
        chosen := RGB;
      } else if bppx == 4 {
        chosen := RGBA;
      } else {
        return NO_TEXTURE;
      }
      id := |textures|;
      var tex := new Texture(path, texBuffer.value.width, texBuffer.value.height, chosen, handle, id);
      textures := textures + [tex];
    }

    /** getTextureFromID: the entry at position id, whatever id field it holds. */
    function GetTextureFromID(id: int): (t: Texture)
      reads this
      requires 0 <= id < |textures|
      ensures t in textures
      ensures IdsArePositions(textures) ==> t.id == id
    {
      textures[id]
    }

    /** The search of removeTexture: the first entry with the id. */
    method FindById(id: int) returns (k: int)
      ensures k == FirstWithId(textures, id)
    {
      var i := 0;
      while i < |textures|
        invariant 0 <= i <= |textures|
        invariant forall j :: 0 <= j < i ==> textures[j].id != id
      {
        if textures[i].id == id {
          return i;
        }
        i := i + 1;
      }
      return -1;
    }

    /** removeTexture: the first entry with the id is deleted and erased, the others keep
        their order; without such an entry nothing changes. Returns the GL name deleted. */
    method RemoveTexture(id: int) returns (deleted: Option<u32>)
      modifies this
      ensures FirstWithId(old(textures), id) == -1 ==> textures == old(textures) && deleted == None
      ensures FirstWithId(old(textures), id) >= 0 ==>
        var k := FirstWithId(old(textures), id);
        textures == RemoveAt(old(textures), k) && deleted == Some(old(textures)[k].handle)
    {
      var k := FindById(id);
      if k >= 0 {
        deleted := Some(textures[k].handle);
        textures := textures[..k] + textures[k + 1..];
      } else {
        deleted := None;
      }
    }

    /** bind: every entry with the id is bound, in registry order. Returns their GL names. */
    method Bind(id: int) returns (bound: seq<u32>)
      ensures bound == HandlesWithId(textures, id)
    {
      bound := [];
      var i := 0;
      while i < |textures|
        invariant 0 <= i <= |textures|
        invariant bound + HandlesWithId(textures[i..], id) == HandlesWithId(textures, id)
      {
        assert textures[i..][1..] == textures[i + 1..];
        if textures[i].id == id {
          bound := bound + [textures[i].handle];
        }
        i := i + 1;
      }
    }

    /** destroyAll: every entry's GL texture is deleted, in order; the registry keeps them. */
    method DestroyAll() returns (deleted: seq<u32>)
      ensures |deleted| == |textures|
      ensures forall i :: 0 <= i < |textures| ==> deleted[i] == textures[i].handle
    {
      deleted := [];
      var i := 0;
      while i < |textures|
        invariant 0 <= i <= |textures| && |deleted| == i
        invariant forall j :: 0 <= j < i ==> deleted[j] == textures[j].handle
      {
        deleted := deleted + [textures[i].handle];
        i := i + 1;
      }
    }
  }

  /** TextureSampler: a GL sampler object and its parameters. A handle of 0 owns nothing. */
  class TextureSampler {
    var handle: u32
    var name: string
    var filter: FilterType
    var wrap: WrapMode
    var anisotropySamples: real

    /** TextureSampler(): no sampler object, linear mipmap filtering, clamping, 1 sample. */
    constructor Default()
      ensures handle == 0 && name == "" && filter == LinearMipmap && wrap == Clamp && anisotropySamples == 1.0
    {
      handle := 0;
      name := "";
      filter := LinearMipmap;
      wrap := Clamp;
      anisotropySamples := 1.0;
    }

    /** TextureSampler(filter, wrap, samples, name): a new sampler object with the samples
        set as setAnisotropySamples sets them. */
    constructor (filter: FilterType, wrap: WrapMode, anisotropySamples: real, name: string, handle: u32, platformMax: real)
      ensures this.handle == handle && this.name == name && this.filter == filter && this.wrap == wrap
      ensures this.anisotropySamples == anisotropySamples
    {
      this.handle := handle;
      this.name := name;
      this.filter := filter;
      this.wrap := wrap;
      this.anisotropySamples := anisotropySamples;
      new;
      var _ := SetAnisotropySamples(anisotropySamples, platformMax);
    }

    /** The move constructor: takes the other's sampler object and parameters and leaves the
        other owning nothing. */
    constructor Move(other: TextureSampler)
      modifies other
      ensures handle == old(other.handle) && name == old(other.name) && filter == old(other.filter)
      ensures wrap == old(other.wrap) && anisotropySamples == old(other.anisotropySamples)
      ensures other.handle == 0
      ensures other.name == old(other.name) && other.filter == old(other.filter)
      ensures other.wrap == old(other.wrap) && other.anisotropySamples == old(other.anisotropySamples)
    {
      handle := other.handle;
      name := other.name;
      filter := other.filter;
      wrap := other.wrap;
      anisotropySamples := other.anisotropySamples;
      new;
      other.handle := 0;
    }

    /** Move assignment: a no-op on itself; otherwise deletes its own sampler object (the
        name returned), takes the other's and leaves the other owning nothing. */
    method MoveAssign(other: TextureSampler) returns (freed: Option<u32>)
      modifies this, other
      ensures other == this ==>
        freed == None && handle == old(handle) && name == old(name) && filter == old(filter)
        && wrap == old(wrap) && anisotropySamples == old(anisotropySamples)
      ensures other != this ==>
        freed == (if old(handle) != 0 then Some(old(handle)) else None)
        && handle == old(other.handle) && name == old(other.name) && filter == old(other.filter)
        && wrap == old(other.wrap) && anisotropySamples == old(other.anisotropySamples)
        && other.handle == 0
        && other.name == old(other.name) && other.filter == old(other.filter)
        && other.wrap == old(other.wrap) && other.anisotropySamples == old(other.anisotropySamples)
    {
      freed := None;
      if other != this {
        if handle != 0 {
          freed := Some(handle);
        }
        handle := other.handle;
        name := other.name;
        filter := other.filter;
        wrap := other.wrap;
        anisotropySamples := other.anisotropySamples;
        other.handle := 0;
      }
    }

    /** setAnisotropySamples: the requested value is always stored; only a value above 1 is
        applied, capped at the platform maximum. Returns the value applied, if any. */
    method SetAnisotropySamples(requested: real, platformMax: real) returns (applied: Option<real>)
      modifies this
      ensures anisotropySamples == requested
      ensures handle == old(handle) && name == old(name) && filter == old(filter) && wrap == old(wrap)
      ensures applied.Some? <==> requested > 1.0
      ensures applied.Some? ==> applied.value == Min(platformMax, requested)
    {
      anisotropySamples := requested;
      applied := None;
      if anisotropySamples > 1.0 {
        var maxSamples := platformMax;
        applied := Some(Min(maxSamples, anisotropySamples));
      }
    }
  }
}
