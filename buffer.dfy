/** Vertex buffers, vertex layouts, vertex arrays and index buffers of the Necrosis
    renderer. OpenGL object names are opaque numbers supplied by the caller, and a
    call that specifies a vertex attribute is recorded in the vertex array. */
module Buffer {
  import opened Common

  const GL_FLOAT: u32 := 0x1406
  const GL_UNSIGNED_INT: u32 := 0x1405
  const GL_UNSIGNED_BYTE: u32 := 0x1401
  const GL_FALSE: byte := 0
  const GL_TRUE: byte := 1

  /** One attribute of a vertex: `count` components of GL type `elementType`. */
  datatype VertexBufferElement = VertexBufferElement(elementType: u32, count: u32, normalized: byte)

  /** VertexBufferElement::getSizeofType: the size in bytes of one component of a GL type,
      0 for a type the renderer does not know. */
  function SizeofType(t: u32): (r: u32)
    ensures r == 4 <==> t == GL_FLOAT || t == GL_UNSIGNED_INT
    ensures r == 1 <==> t == GL_UNSIGNED_BYTE
    ensures r == 0 <==> t != GL_FLOAT && t != GL_UNSIGNED_INT && t != GL_UNSIGNED_BYTE
  {
    if t == GL_FLOAT then 4
    else if t == GL_UNSIGNED_INT then 4
    else if t == GL_UNSIGNED_BYTE then 1
    else 0
  }

  /** The normalized flag that VertexBufferLayout::push gives an element of type t. */
  function NormalizedFlag(t: u32): byte
  {
    if t == GL_UNSIGNED_BYTE then GL_FALSE else GL_TRUE
  }

  /** An element is normalized exactly when its type is not GL_UNSIGNED_BYTE; GL_FLOAT
      elements are normalized too. */
  lemma NormalizedUnlessUnsignedByte(t: u32)
    ensures NormalizedFlag(t) == GL_FALSE <==> t == GL_UNSIGNED_BYTE
    ensures NormalizedFlag(t) == GL_TRUE <==> t != GL_UNSIGNED_BYTE
    ensures NormalizedFlag(GL_FLOAT) == GL_TRUE
  {
  }

  /** Bytes one element occupies in a vertex: the uint32_t product count * size, which wraps. */
  function ElementBytes(e: VertexBufferElement): u32
  {
    (e.count * SizeofType(e.elementType)) % U32_MOD
  }

  /** Bytes of a run of elements, without wrap-around. */
  function Bytes(es: seq<VertexBufferElement>): nat
  {
    if es == [] then 0 else Bytes(es[..|es| - 1]) + ElementBytes(es[|es| - 1])
  }

  /** Offset of attribute i inside a vertex: the bytes of the elements before it. */
  function PrefixBytes(es: seq<VertexBufferElement>, i: nat): nat
    requires i <= |es|
  {
    Bytes(es[..i])
  }

  lemma ModAdd(a: int, b: int, m: int)
    requires m > 0
    ensures (a % m + b) % m == (a + b) % m
  {
    var q := a / m;
    assert a == q * m + a % m;
    assert a + b == (a % m + b) + q * m;
    ModMultiple(a % m + b, q, m);
  }

  lemma ModMultiple(x: int, q: int, m: int)
    requires m > 0
    ensures (x + q * m) % m == x % m
  {
    DivModOf(x + q * m, m, x / m + q, x % m);
  }

  /** The offsets are prefix sums: attribute 0 starts at byte 0 and attribute i + 1 starts
      where attribute i ends. */
  lemma {:induction false} OffsetsArePrefixSums(es: seq<VertexBufferElement>, i: nat)
    requires i < |es|
    ensures PrefixBytes(es, 0) == 0
    ensures PrefixBytes(es, i + 1) == PrefixBytes(es, i) + ElementBytes(es[i])
  {
    assert es[..i + 1][..i] == es[..i];
  }

  /** Appending one element adds its bytes to the total. */
  lemma {:induction false} BytesAppend(es: seq<VertexBufferElement>, e: VertexBufferElement)
    ensures Bytes(es + [e]) == Bytes(es) + ElementBytes(e)
  {
    assert (es + [e])[..|es + [e]| - 1] == es;
  }

  /** VertexBufferLayout: the list of elements of a vertex and the running stride. */
  class VertexBufferLayout {
    var elements: seq<VertexBufferElement>
    var stride: u32

    /** The stride is the (wrapped) sum of the bytes of the elements. */
    ghost predicate Valid()
      reads this
    {
      stride == Bytes(elements) % U32_MOD
    }

    /** A fresh layout has no elements and stride 0. */
    constructor ()
      ensures Valid()
      ensures elements == [] && stride == 0
    {
      elements := [];
      stride := 0;
    }

    /** push(type, count): appends (type, count, normalized) and adds its bytes to the stride. */
    method Push(t: u32, count: u32)
      requires Valid()
      modifies this
      ensures Valid()
      ensures elements == old(elements) + [VertexBufferElement(t, count, NormalizedFlag(t))]
      ensures stride == (old(stride) + ElementBytes(VertexBufferElement(t, count, NormalizedFlag(t)))) % U32_MOD
    {
      var normalized := GL_TRUE;
      if t == GL_UNSIGNED_BYTE {
        normalized := GL_FALSE;
      }
      var e := VertexBufferElement(t, count, normalized);
      ghost var s0 := Bytes(elements);
      ghost var b := ElementBytes(e);
      BytesAppend(elements, e);
      assert stride == s0 % U32_MOD;
      ModAdd(s0, b, U32_MOD);
      assert (stride + b) % U32_MOD == (s0 + b) % U32_MOD;
      elements := elements + [e];
      stride := (stride + ElementBytes(e)) % U32_MOD;
    }

    /** getStride: the wrapped sum of the bytes of all elements pushed so far. */
    function GetStride(): (r: u32)
      reads this
      requires Valid()
      ensures r == Bytes(elements) % U32_MOD
    {
      stride
    }
  }

  /** What one glVertexAttribPointer call specifies for an attribute slot. */
  datatype AttribPointer = AttribPointer(size: u32, attribType: u32, normalized: byte, stride: u32, offset: u64)

  /** The attribute slots 0 .. n-1. */
  function SlotsBelow(n: nat): (r: set<nat>)
    ensures forall i: int :: i in r <==> 0 <= i < n
  {
    if n == 0 then {} else SlotsBelow(n - 1) + {n - 1}
  }

  /** The attribute that addBuffer specifies for element i of a layout with the given stride. */
  function AttribFor(es: seq<VertexBufferElement>, stride: u32, i: nat): (a: AttribPointer)
    requires i < |es|
  {
    AttribPointer(es[i].count, es[i].elementType, es[i].normalized, stride, PrefixBytes(es, i) % U64_MOD)
  }

  /** All attributes that addBuffer specifies, by slot. */
  function AttribTable(es: seq<VertexBufferElement>, stride: u32, n: nat): (m: map<nat, AttribPointer>)
    requires n <= |es|
    ensures forall i :: i in m <==> 0 <= i < n
    ensures forall i :: 0 <= i < n ==> m[i] == AttribFor(es, stride, i)
  {
    map i | 0 <= i < n :: AttribFor(es, stride, i)
  }

  /** The running offset of addBuffer, a uint64_t, stays the prefix sum modulo 2^64. */
  lemma NextOffset(es: seq<VertexBufferElement>, i: nat, offset: u64)
    requires i < |es| && offset == PrefixBytes(es, i) % U64_MOD
    ensures (offset + ElementBytes(es[i])) % U64_MOD == PrefixBytes(es, i + 1) % U64_MOD
  {
    OffsetsArePrefixSums(es, i);
    ModAdd(PrefixBytes(es, i), ElementBytes(es[i]), U64_MOD);
  }

  /** The table for i + 1 slots is the table for i slots with slot i added. */
  lemma AttribTableGrow(base: map<nat, AttribPointer>, es: seq<VertexBufferElement>, stride: u32, i: nat)
    requires i < |es|
    ensures (base + AttribTable(es, stride, i))[i := AttribFor(es, stride, i)] == base + AttribTable(es, stride, i + 1)
  {
    var l := (base + AttribTable(es, stride, i))[i := AttribFor(es, stride, i)];
    var r := base + AttribTable(es, stride, i + 1);
    assert l.Keys == r.Keys;
    forall k | k in l.Keys
      ensures l[k] == r[k]
    {
    }
  }

  /** Slot i carries element i's count, type and normalized flag; every slot shares the
      layout's stride; the first offset is 0. */
  lemma AttribTableCarriesElements(es: seq<VertexBufferElement>, stride: u32)
    ensures forall i :: 0 <= i < |es| ==>
      var a := AttribTable(es, stride, |es|)[i];
      a.size == es[i].count && a.attribType == es[i].elementType
      && a.normalized == es[i].normalized && a.stride == stride
    ensures |es| > 0 ==> AttribTable(es, stride, |es|)[0].offset == 0
  {
  }

  /** Once the loop of addBuffer is over, its running offset (a uint64_t) agrees with the
      stride up to the 32-bit wrap of the stride, and equals it when the bytes fit in 32 bits. */
  lemma {:induction false} FinalOffsetIsStride(es: seq<VertexBufferElement>, stride: u32)
    requires stride == Bytes(es) % U32_MOD
    ensures (PrefixBytes(es, |es|) % U64_MOD) % U32_MOD == stride
    ensures Bytes(es) < U32_MOD ==> PrefixBytes(es, |es|) % U64_MOD == stride
  {
    assert es[..|es|] == es;
    var s := Bytes(es);
    var q := s / U64_MOD;
    assert s == q * U64_MOD + s % U64_MOD;
    assert q * U64_MOD == (q * 0x1_0000_0000) * U32_MOD;
    ModMultiple(s % U64_MOD, q * 0x1_0000_0000, U32_MOD);
  }

  /** VertexArray: a GL vertex array object, with the attribute slots it has enabled and
      the attribute each slot was last given. */
  class VertexArray {
    const handle: nat
    var enabled: set<nat>
    var attributes: map<nat, AttribPointer>

    constructor (handle: nat)
      ensures this.handle == handle && enabled == {} && attributes == map[]
    {
      this.handle := handle;
      enabled := {};
      attributes := map[];
    }

    /** addBuffer: slot i is enabled and given element i of the layout, at an offset that is
        the running sum of the bytes of the earlier elements, with the layout's stride. */
    method AddBuffer(vbo: VertexBuffer, layout: VertexBufferLayout)
      requires layout.Valid()
      modifies this
      ensures enabled == old(enabled) + SlotsBelow(|layout.elements|)
      ensures attributes == old(attributes) + AttribTable(layout.elements, layout.stride, |layout.elements|)
    {
      var offset: u64 := 0;
      var es := layout.elements;
      var i := 0;
      while i < |es|
        invariant 0 <= i <= |es|
        invariant offset == PrefixBytes(es, i) % U64_MOD
        invariant enabled == old(enabled) + SlotsBelow(i)
        invariant attributes == old(attributes) + AttribTable(es, layout.stride, i)
      {
        var element := es[i];
        enabled := enabled + {i};
        AttribTableGrow(old(attributes), es, layout.stride, i);
        attributes := attributes[i := AttribPointer(element.count, element.elementType,
                                                    element.normalized, layout.GetStride(), offset)];
        NextOffset(es, i, offset);
        offset := (offset + ElementBytes(element)) % U64_MOD;
        i := i + 1;
      }
    }
  }

  /** VertexBuffer: a GL array buffer holding `size` bytes. */
  class VertexBuffer {
    const handle: nat
    var size: u32
    var count: u32

    /** The count is size / 4 whatever the type argument says. */
    constructor (handle: nat, size: u32, bufferType: u32)
      ensures this.handle == handle && this.size == size && count == size / 4
    {
      this.handle := handle;
      this.size := size;
      count := size / 4;
    }
  }

  /** IndexBuffer: a GL element array buffer of `count` 32-bit indices. */
  class IndexBuffer {
    const handle: nat
    var uploadedBytes: nat
    var count: u32

    /** Uploads count * 4 bytes and remembers the count. */
    constructor (handle: nat, count: u32)
      ensures this.handle == handle && uploadedBytes == count * 4 && this.count == count
    {
      this.handle := handle;
      uploadedBytes := count * 4;
      this.count := count;
    }
  }
}
