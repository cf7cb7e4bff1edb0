/** A vertex-buffer model: the vertex-count check done at construction, the
    choice of a host-visible, host-coherent memory type, the size of the
    buffer requested, the draw it records, and the vertex input layout it
    describes to the pipeline. The graphics API calls themselves stay
    outside the model: the device's memory table and the buffer's allowed
    memory types are parameters. */
module VertexModel {
  import opened Common

  /** `uint32_t`. */
  newtype U32 = x: int | 0 <= x < 0x1_0000_0000

  // ---------------------------------------------------------------------
  // Vertex layout: `struct Vertex { float position[2]; float color[3]; }`.

  datatype Vertex = Vertex(position: (real, real), color: (real, real, real))

  const FloatBytes: nat := 4
  const PositionFloats: nat := 2
  const ColorFloats: nat := 3
  /** `offsetof(Vertex, position)`. */
  const PositionOffset: nat := 0
  /** `offsetof(Vertex, color)`: straight after the two position floats. */
  const ColorOffset: nat := PositionOffset + PositionFloats * FloatBytes
  /** `sizeof(Vertex)`: five floats, no padding between or after them. */
  const VertexSize: nat := ColorOffset + ColorFloats * FloatBytes

  datatype InputRate = PerVertex | PerInstance
  datatype Format = R32G32Sfloat | R32G32B32Sfloat

  /** The number of bytes one attribute of this format occupies. */
  function FormatBytes(f: Format): nat {
    match f
    case R32G32Sfloat => 2 * FloatBytes
    case R32G32B32Sfloat => 3 * FloatBytes
  }

  datatype BindingDescription = BindingDescription(binding: nat, stride: nat, inputRate: InputRate)
  datatype AttributeDescription = AttributeDescription(location: nat, binding: nat, format: Format, offset: nat)

  /** `Vertex::getBindingDescriptions`: one binding, stepping one whole
      vertex per vertex. */
  function BindingDescriptions(): (ds: seq<BindingDescription>)
    ensures |ds| == 1 && ds[0].binding == 0
    ensures ds[0].stride == VertexSize && ds[0].inputRate == PerVertex
  {
    [BindingDescription(0, VertexSize, PerVertex)]
  }

  /** `Vertex::getAttributeDescriptions`. */
  function AttributeDescriptions(): (ds: seq<AttributeDescription>)
    ensures |ds| == 2
    ensures ds[0] == AttributeDescription(0, 0, R32G32Sfloat, PositionOffset)
    ensures ds[1] == AttributeDescription(1, 0, R32G32B32Sfloat, ColorOffset)
  {
    [AttributeDescription(0, 0, R32G32Sfloat, PositionOffset),
     AttributeDescription(1, 0, R32G32B32Sfloat, ColorOffset)]
  }

  /** The attributes describe the vertex exactly: each reads from the one
      binding, each is as wide as the field it stands for, they do not
      overlap, and together they cover one stride with nothing left over. */
  lemma AttributesTileVertex()
    ensures |BindingDescriptions()| == 1 && BindingDescriptions()[0].inputRate == PerVertex
    ensures BindingDescriptions()[0].stride == VertexSize
    ensures |AttributeDescriptions()| == 2
    ensures AttributeDescriptions()[0].location == 0 && AttributeDescriptions()[1].location == 1
    ensures forall a :: a in AttributeDescriptions() ==> a.binding == BindingDescriptions()[0].binding
    ensures forall a :: a in AttributeDescriptions() ==>
      a.offset + FormatBytes(a.format) <= BindingDescriptions()[0].stride
    ensures FormatBytes(AttributeDescriptions()[0].format) == PositionFloats * FloatBytes
    ensures FormatBytes(AttributeDescriptions()[1].format) == ColorFloats * FloatBytes
    ensures AttributeDescriptions()[0].offset + FormatBytes(AttributeDescriptions()[0].format)
         == AttributeDescriptions()[1].offset
    ensures AttributeDescriptions()[1].offset + FormatBytes(AttributeDescriptions()[1].format)
         == BindingDescriptions()[0].stride
  {
  }

  // ---------------------------------------------------------------------
  // Memory-type selection.

  /** The most memory types a device reports (`VK_MAX_MEMORY_TYPES`). */
  const MaxMemoryTypes: nat := 32

  const HostVisible: bv32 := 0x2
  const HostCoherent: bv32 := 0x4
  /** The properties asked of the vertex buffer's memory. */
  const HostVisibleCoherent: bv32 := HostVisible | HostCoherent

  datatype MemoryType = MemoryType(propertyFlags: bv32)

  /** The device's memory table: a fixed array of which the first
      `memoryTypeCount` entries are in use. */
  datatype MemoryProperties = MemoryProperties(memoryTypeCount: U32, memoryTypes: seq<MemoryType>)

  predicate ValidMemoryProperties(mp: MemoryProperties) {
    mp.memoryTypeCount as int <= MaxMemoryTypes && |mp.memoryTypes| == MaxMemoryTypes
  }

  /** `1 << i`, for the 32 bit positions a filter has. */
  function Bit(i: nat): bv32
    requires i < 32
  {
    1 as bv32 << i
  }

  /** Memory type `i` is allowed by the filter (bit `i` set) and has every
      requested property bit. */
  predicate Suitable(mp: MemoryProperties, typeFilter: bv32, properties: bv32, i: nat)
    requires ValidMemoryProperties(mp) && i < MaxMemoryTypes
  {
    typeFilter & Bit(i) != 0
    && mp.memoryTypes[i].propertyFlags & properties == properties
  }

  datatype ModelError = TooFewVertices | NoSuitableMemoryType

  /** `findMemoryType`: the first suitable memory type in use, or an error
      when there is none. */
  method FindMemoryType(mp: MemoryProperties, typeFilter: bv32, properties: bv32)
    returns (r: Result<U32, ModelError>)
    requires ValidMemoryProperties(mp)
    ensures r.Ok? ==> r.value < mp.memoryTypeCount && Suitable(mp, typeFilter, properties, r.value as nat)
    ensures r.Ok? ==> forall j :: 0 <= j < r.value as nat ==> !Suitable(mp, typeFilter, properties, j)
    ensures r.Err? ==> r.error == NoSuitableMemoryType
    ensures r.Err? ==> forall j :: 0 <= j < mp.memoryTypeCount as nat ==> !Suitable(mp, typeFilter, properties, j)
  {
    var i: U32 := 0;
    while i < mp.memoryTypeCount
      invariant i <= mp.memoryTypeCount
      invariant forall j :: 0 <= j < i as nat ==> !Suitable(mp, typeFilter, properties, j)
    {
      if Suitable(mp, typeFilter, properties, i as nat) {
        return Ok(i);
      }
      i := i + 1;
    }
    return Err(NoSuitableMemoryType);
  }

  // ---------------------------------------------------------------------
  // The model.

  /** What a constructed model keeps: its vertex count, the byte size of
      the buffer it requested, and the memory type that buffer lives in. */
  datatype Model = Model(vertexCount: U32, bufferSize: nat, memoryTypeIndex: U32)

  /** `static_cast<uint32_t>(vertices.size())`. */
  function VertexCount(vertices: seq<Vertex>): (n: U32)
    ensures |vertices| < 0x1_0000_0000 ==> n as int == |vertices|
  {
    (|vertices| % 0x1_0000_0000) as U32
  }

  /** The constructor with `createVertexBuffer`. `memoryTypeBits` is what
      the device reports as allowed for the new buffer. Creating, allocating,
      binding and filling the buffer are assumed to succeed. */
  method CreateModel(vertices: seq<Vertex>, memoryTypeBits: bv32, mp: MemoryProperties)
    returns (r: Result<Model, ModelError>)
    requires ValidMemoryProperties(mp)
    ensures r == Err(TooFewVertices) <==> VertexCount(vertices) < 3
    ensures r.Ok? ==> r.value.vertexCount == VertexCount(vertices) >= 3
    ensures r.Ok? ==> r.value.bufferSize == VertexSize * |vertices|
    ensures r.Ok? ==> r.value.memoryTypeIndex < mp.memoryTypeCount
    ensures r.Ok? ==> Suitable(mp, memoryTypeBits, HostVisibleCoherent, r.value.memoryTypeIndex as nat)
    ensures r == Err(NoSuitableMemoryType) ==>
      forall j :: 0 <= j < mp.memoryTypeCount as nat ==> !Suitable(mp, memoryTypeBits, HostVisibleCoherent, j)
  {
    var count := VertexCount(vertices);
    if count < 3 {
      return Err(TooFewVertices);
    }
    var bufferSize := VertexSize * |vertices|;
    var index := FindMemoryType(mp, memoryTypeBits, HostVisibleCoherent);
    if index.Err? {
      return Err(index.error);
    }
    return Ok(Model(count, bufferSize, index.value));
  }

  /** A memory type chosen for the buffer can be both written by the host
      and read by the device without explicit flushes. */
  lemma ChosenMemoryIsHostVisibleAndCoherent(mp: MemoryProperties, memoryTypeBits: bv32, i: nat)
    requires ValidMemoryProperties(mp) && i < MaxMemoryTypes
    requires Suitable(mp, memoryTypeBits, HostVisibleCoherent, i)
    ensures mp.memoryTypes[i].propertyFlags & HostVisible != 0
    ensures mp.memoryTypes[i].propertyFlags & HostCoherent != 0
  {
  }

  datatype DrawCall = DrawCall(vertexCount: U32, instanceCount: nat, firstVertex: nat, firstInstance: nat)

  /** `draw`: one instance of all the model's vertices, from the start. */
  function Draw(m: Model): (d: DrawCall)
    ensures d.vertexCount == m.vertexCount && d.instanceCount == 1
    ensures d.firstVertex == 0 && d.firstInstance == 0
  {
    DrawCall(m.vertexCount, 1, 0, 0)
  }

  /** For fewer than 2^32 vertices the draw reads exactly the bytes the
      buffer was sized for, one binding stride per vertex. */
  lemma DrawReadsWholeBuffer(vertices: seq<Vertex>, m: Model)
    requires |vertices| < 0x1_0000_0000
    requires m.vertexCount == VertexCount(vertices) && m.bufferSize == VertexSize * |vertices|
    ensures Draw(m).vertexCount as int == |vertices|
    ensures Draw(m).instanceCount == 1 && Draw(m).firstVertex == 0 && Draw(m).firstInstance == 0
    ensures Draw(m).vertexCount as int * BindingDescriptions()[0].stride == m.bufferSize
  {
  }

  /** From 2^32 vertices on the count wraps: a model built from 2^32 + 3
      vertices passes the check but draws only three of them. */
  lemma WrappedVertexCount(vertices: seq<Vertex>)
    requires |vertices| == 0x1_0000_0000 + 3
    ensures VertexCount(vertices) == 3
  {
  }
}
