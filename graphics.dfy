/** The integer bookkeeping of the Maxwell 3D graphics context
    (gpu/interconnect/graphics_context.h): register-composed addresses, render-target
    extents across tiling changes, vertex and index buffer ranges, the constant-buffer
    cache, front/back stencil state, the shader-end scan, texture handles and the
    layer counts of texture image control entries. */
module Graphics {
  import opened Common
  import opened Textures
  import opened Buffers

  // ---------------------------------------------------------------- addresses

  /** A 64-bit GPU virtual address written as two 32-bit registers; the low word sits in
      the low half of the value. */
  datatype IOVA = IOVA(value: u64)
  {
    function Low(): (r: u32)
    {
      value % U32_LIMIT
    }

    function High(): (r: u32)
    {
      value / U32_LIMIT
    }

    /** The address with its low register replaced. */
    function WithLow(low: u32): (r: IOVA)
      ensures r.Low() == low && r.High() == High()
    {
      IOVA(High() * U32_LIMIT + low)
    }

    /** The address with its high register replaced. */
    function WithHigh(high: u32): (r: IOVA)
      ensures r.High() == high && r.Low() == Low()
    {
      IOVA(high * U32_LIMIT + Low())
    }
  }

  /** The address is `high * 2^32 + low`, and the two registers determine it. */
  lemma IOVAComposition(a: IOVA, b: IOVA)
    ensures a.value == a.High() * U32_LIMIT + a.Low()
    ensures a.Low() == b.Low() && a.High() == b.High() ==> a == b
  {
  }

  /** Writing both registers, in either order, gives `high * 2^32 + low`. */
  lemma IOVAFromRegisters(a: IOVA, low: u32, high: u32)
    ensures a.WithLow(low).WithHigh(high).value == high * U32_LIMIT + low
    ensures a.WithHigh(high).WithLow(low) == a.WithLow(low).WithHigh(high)
  {
    IOVAComposition(a.WithLow(low).WithHigh(high), a.WithHigh(high).WithLow(low));
  }

  // ----------------------------------------------------------- render targets

  /** The guest tiling of a block-linear target: block height and depth in GOBs are
      `1 << log2`, truncated to a byte. */
  function BlockTileConfig(blockHeightLog2: nat, blockDepthLog2: nat): (c: TileConfig)
    requires blockHeightLog2 < 32 && blockDepthLog2 < 32
    ensures c.mode == Block
    ensures c.BlockHeight() == Pow2(blockHeightLog2) % U8_LIMIT
    ensures c.BlockDepth() == Pow2(blockDepthLog2) % U8_LIMIT
  {
    BlockConfig(Pow2(blockHeightLog2) % U8_LIMIT, Pow2(blockDepthLog2) % U8_LIMIT)
  }

  /** Up to 128 GOBs (a shift below 8) the block extents are exact powers of two. */
  lemma BlockTileConfigExact(blockHeightLog2: nat, blockDepthLog2: nat)
    requires blockHeightLog2 < 8 && blockDepthLog2 < 8
    ensures BlockTileConfig(blockHeightLog2, blockDepthLog2).BlockHeight() == Pow2(blockHeightLog2)
    ensures BlockTileConfig(blockHeightLog2, blockDepthLog2).BlockDepth() == Pow2(blockDepthLog2)
  {
    Pow2Monotone(blockHeightLog2, 7);
    Pow2Monotone(blockDepthLog2, 7);
    assert Pow2(7) == 128;
  }

  /** A color or depth render target's registers and the guest texture they describe. */
  class RenderTarget {
    var disabled: bool
    var iova: IOVA
    /** The width register as written, in bytes when the target is linear. */
    var widthBytes: u32
    var dimensions: Dimensions
    var format: Format
    var aspect: bv32
    var tileConfig: TileConfig
    var textureType: TextureType
    var layerCount: u16
    var layerStride: u32
    var baseArrayLayer: u16
    /** Whether the guest mappings were translated since the address last changed. */
    var hasMappings: bool
    /** The cached texture view, by id. */
    var view: Option<nat>

    /** A linear target with a format is `widthBytes / bpb` texels wide; every format has
        a non-zero number of bytes per block. */
    ghost predicate Valid()
      reads this
    {
      && (format.Fmt? ==> format.base.bpb > 0)
      && (tileConfig.mode == Linear && format.Fmt? ==> dimensions.width == widthBytes / format.base.bpb)
    }

    /** A disabled, linear, format-less 1x1x1 target with one layer; the width register
        starts with whatever `widthBytes` holds. */
    constructor (widthBytes: u32)
      ensures Valid()
      ensures disabled && format == NullFormat && dimensions == Dimensions(1, 1, 1) && layerCount == 1
      ensures tileConfig == TileConfig(Linear, 0) && view == None && !hasMappings
      ensures this.widthBytes == widthBytes
    {
      disabled := true;
      iova := IOVA(0);
      this.widthBytes := widthBytes;
      dimensions := Dimensions(1, 1, 1);
      format := NullFormat;
      aspect := 0;
      tileConfig := TileConfig(Linear, 0);
      textureType := Texture1D;
      layerCount := 1;
      layerStride := 0;
      baseArrayLayer := 0;
      hasMappings := false;
      view := None;
    }

    /** Enables or disables the (depth) render target. */
    method SetEnabled(enabled: bool)
      requires Valid()
      modifies this`disabled
      ensures Valid()
      ensures disabled == !enabled
    {
      disabled := !enabled;
    }

    /** Sets the high address register; the mappings and the view are dropped. */
    method SetAddressHigh(high: u32)
      requires Valid()
      modifies this`iova, this`hasMappings, this`view
      ensures Valid()
      ensures iova == old(iova).WithHigh(high) && iova.Low() == old(iova).Low()
      ensures !hasMappings && view == None
    {
      iova := iova.WithHigh(high);
      hasMappings := false;
      view := None;
    }

    /** Sets the low address register; the mappings and the view are dropped. */
    method SetAddressLow(low: u32)
      requires Valid()
      modifies this`iova, this`hasMappings, this`view
      ensures Valid()
      ensures iova == old(iova).WithLow(low) && iova.High() == old(iova).High()
      ensures !hasMappings && view == None
    {
      iova := iova.WithLow(low);
      hasMappings := false;
      view := None;
    }

    /** Sets the width register: a byte count for a linear target with a format, which is
        divided by the bytes per texel, a texel count otherwise. */
    method SetWidth(value: u32)
      requires Valid()
      modifies this`widthBytes, this`dimensions, this`view
      ensures Valid()
      ensures widthBytes == value && view == None
      ensures dimensions.width == if tileConfig.mode == Linear && format.Fmt? then value / format.base.bpb else value
      ensures dimensions.height == old(dimensions.height) && dimensions.depth == old(dimensions.depth)
    {
      widthBytes := value;
      var width := value;
      if tileConfig.mode == Linear && format.Fmt? {
        width := value / format.base.bpb;
      }
      dimensions := dimensions.(width := width);
      view := None;
    }

    method SetHeight(value: u32)
      requires Valid()
      modifies this`dimensions, this`view
      ensures Valid()
      ensures dimensions == old(dimensions).(height := value) && view == None
    {
      dimensions := dimensions.(height := value);
      view := None;
    }

    /** The part common to both format setters: the aspect follows a format, and a linear
        target's width is recomputed from the width register. */
    method SetFormatCommon(f: Format)
      requires Valid()
      requires f.Fmt? ==> f.base.bpb > 0
      modifies this`format, this`aspect, this`dimensions, this`view
      ensures Valid()
      ensures format == f && view == None
      ensures aspect == if f.Fmt? then f.base.vkAspect else old(aspect)
      ensures dimensions == if tileConfig.mode == Linear && f.Fmt?
        then old(dimensions).(width := widthBytes / f.base.bpb) else old(dimensions)
    {
      format := f;
      if format.Fmt? {
        aspect := format.base.vkAspect;
      }
      if tileConfig.mode == Linear && format.Fmt? {
        dimensions := dimensions.(width := widthBytes / format.base.bpb);
      }
      view := None;
    }

    /** A color target is enabled exactly when it has a format. */
    method SetColorFormat(f: Format)
      requires Valid()
      requires f.Fmt? ==> f.base.bpb > 0
      modifies this`format, this`aspect, this`dimensions, this`view, this`disabled
      ensures Valid()
      ensures format == f && view == None && disabled == !f.IsSome()
      ensures aspect == if f.Fmt? then f.base.vkAspect else old(aspect)
      ensures dimensions == if tileConfig.mode == Linear && f.Fmt?
        then old(dimensions).(width := widthBytes / f.base.bpb) else old(dimensions)
    {
      SetFormatCommon(f);
      disabled := !format.IsSome();
    }

    /** The depth target's format; enabling is a register of its own. */
    method SetDepthFormat(f: Format)
      requires Valid()
      requires f.Fmt? ==> f.base.bpb > 0
      modifies this`format, this`aspect, this`dimensions, this`view
      ensures Valid()
      ensures format == f && view == None
      ensures aspect == if f.Fmt? then f.base.vkAspect else old(aspect)
      ensures dimensions == if tileConfig.mode == Linear && f.Fmt?
        then old(dimensions).(width := widthBytes / f.base.bpb) else old(dimensions)
    {
      SetFormatCommon(f);
    }

    /** Switches the tiling. Becoming linear reinterprets the width as bytes (kept in
        `widthBytes`); leaving linear restores the byte width as the texel width. */
    method SetTileMode(isLinear: bool, blockHeightLog2: nat, blockDepthLog2: nat)
      requires Valid()
      requires blockHeightLog2 < 32 && blockDepthLog2 < 32
      modifies this`tileConfig, this`widthBytes, this`dimensions, this`view
      ensures Valid()
      ensures view == None
      ensures isLinear ==> tileConfig.mode == Linear && tileConfig.raw == old(tileConfig.raw)
      ensures !isLinear ==> tileConfig == BlockTileConfig(blockHeightLog2, blockDepthLog2)
      ensures isLinear && old(tileConfig.mode) != Linear && format.Fmt? ==>
        widthBytes == old(dimensions.width) && dimensions == old(dimensions).(width := old(dimensions.width) / format.base.bpb)
      ensures !isLinear && old(tileConfig.mode) == Linear && format.Fmt? ==>
        widthBytes == old(widthBytes) && dimensions == old(dimensions).(width := old(widthBytes))
      ensures (old(tileConfig.mode) == Linear) == isLinear || format.NullFormat? ==>
        widthBytes == old(widthBytes) && dimensions == old(dimensions)
    {
      if isLinear {
        if tileConfig.mode != Linear && format.Fmt? {
          widthBytes := dimensions.width;
          dimensions := dimensions.(width := dimensions.width / format.base.bpb);
        }
        tileConfig := tileConfig.(mode := Linear);
      } else {
        if tileConfig.mode == Linear && format.Fmt? {
          dimensions := dimensions.(width := widthBytes);
        }
        tileConfig := BlockTileConfig(blockHeightLog2, blockDepthLog2);
      }
      view := None;
    }

    /** Sets the layer count as the depth; color targets refuse volume textures. */
    method SetArrayMode(layers: u32, volume: bool, isColor: bool) returns (ok: bool)
      requires Valid()
      modifies this`dimensions, this`view
      ensures Valid()
      ensures ok == !(isColor && volume)
      ensures ok ==> dimensions == old(dimensions).(depth := layers) && view == None
      ensures !ok ==> dimensions == old(dimensions) && view == old(view)
    {
      if isColor && volume {
        return false;
      }
      dimensions := dimensions.(depth := layers);
      view := None;
      return true;
    }

    /** The layer stride register counts 4-byte units; the shift wraps at 32 bits. */
    method SetLayerStride(layerStrideLsr2: u32)
      requires Valid()
      modifies this`layerStride, this`view
      ensures Valid()
      ensures layerStride == (layerStrideLsr2 * 4) % U32_LIMIT && view == None
      ensures layerStrideLsr2 < U32_LIMIT / 4 ==> layerStride == layerStrideLsr2 * 4
    {
      layerStride := (layerStrideLsr2 * 4) % U32_LIMIT;
      view := None;
    }

    /** The first array layer of a color target; values beyond 16 bits are refused. */
    method SetBaseLayer(baseLayer: u32) returns (ok: bool)
      requires Valid()
      modifies this`baseArrayLayer, this`view
      ensures Valid()
      ensures ok <==> baseLayer < U16_LIMIT
      ensures ok ==> baseArrayLayer == baseLayer && view == None
      ensures !ok ==> baseArrayLayer == old(baseArrayLayer) && view == old(view)
    {
      if baseLayer >= U16_LIMIT {
        return false;
      }
      baseArrayLayer := baseLayer;
      view := None;
      return true;
    }

    /** The texture view to render into: none for a disabled target, the cached view if
        there is one, otherwise `created` (the cache's find-or-create result for the
        target's guest texture), whose type is derived from the dimensions. */
    method GetRenderTarget(created: nat) returns (r: Option<nat>)
      requires Valid()
      modifies this`hasMappings, this`textureType, this`view
      ensures Valid()
      ensures old(disabled) ==> r == None && unchanged(this)
      ensures !old(disabled) && old(view).Some? ==> r == old(view) && unchanged(this)
      ensures !old(disabled) && old(view).None? ==>
        && r == Some(created) && view == r && hasMappings
        && textureType == TextureTypeOf(dimensions.GetType())
    {
      if disabled {
        return None;
      } else if view.Some? {
        return view;
      }
      if !hasMappings {
        hasMappings := true;
      }
      textureType := TextureTypeOf(dimensions.GetType());
      view := Some(created);
      r := view;
    }
  }

  /** Switching a linear target with a format to block tiling and back leaves its width
      register and texel width as they were. */
  method LinearRoundTrip(rt: RenderTarget, blockHeightLog2: nat, blockDepthLog2: nat)
    requires rt.Valid() && rt.tileConfig.mode == Linear && rt.format.Fmt?
    requires blockHeightLog2 < 32 && blockDepthLog2 < 32
    modifies rt`tileConfig, rt`widthBytes, rt`dimensions, rt`view
    ensures rt.Valid() && rt.tileConfig.mode == Linear
    ensures rt.widthBytes == old(rt.widthBytes) && rt.dimensions == old(rt.dimensions)
  {
    rt.SetTileMode(false, blockHeightLog2, blockDepthLog2);
    assert rt.dimensions.width == old(rt.widthBytes);
    rt.SetTileMode(true, blockHeightLog2, blockDepthLog2);
  }

  // ---------------------------------------------------- vertex and index buffers

  /** The guard of both buffer getters: an inverted range or an unset end yields no buffer. */
  predicate IsNullRange(start: IOVA, end: IOVA)
  {
    start.value > end.value || start.value == 0 || end.value == 0
  }

  /** `(end + 1) - start` in 64-bit arithmetic. */
  function VertexRangeSize(start: IOVA, end: IOVA): u64
  {
    (((end.value + 1) % U64_LIMIT) - start.value) % U64_LIMIT
  }

  /** For every range the guard accepts, the wrapping size expression is the exact
      inclusive length, and it is not zero. */
  lemma VertexRangeSizeExact(start: IOVA, end: IOVA)
    requires !IsNullRange(start, end)
    ensures VertexRangeSize(start, end) == end.value - start.value + 1
    ensures VertexRangeSize(start, end) > 0
  {
    if end.value + 1 == U64_LIMIT {
      assert (end.value + 1) % U64_LIMIT == 0;
      assert (0 - start.value) % U64_LIMIT == U64_LIMIT - start.value;
    }
  }

  /** A vertex buffer binding's address range and cached view. */
  class VertexBuffer {
    var start: IOVA
    var end: IOVA
    var view: BufferView

    constructor ()
      ensures start == IOVA(0) && end == IOVA(0) && view == NullView
    {
      start := IOVA(0);
      end := IOVA(0);
      view := NullView;
    }

    /** Sets one register of the start or end address; the cached view is dropped. */
    method SetIova(isEnd: bool, isHigh: bool, word: u32)
      modifies this`start, this`end, this`view
      ensures view == NullView
      ensures start == if isEnd then old(start) else if isHigh then old(start).WithHigh(word) else old(start).WithLow(word)
      ensures end == if !isEnd then old(end) else if isHigh then old(end).WithHigh(word) else old(end).WithLow(word)
    {
      if isEnd {
        end := if isHigh then end.WithHigh(word) else end.WithLow(word);
      } else {
        start := if isHigh then start.WithHigh(word) else start.WithLow(word);
      }
      view := NullView;
    }

    /** The buffer view for the binding: null for a null range, the cached view if any,
        otherwise `created` for a lookup of `(end + 1) - start` bytes at `start`, which is
        cached. `lookup` is the size looked up, if a lookup was made. */
    method GetVertexBuffer(created: BufferView) returns (r: BufferView, lookup: Option<u64>)
      requires created.IsSome()
      modifies this`view
      ensures IsNullRange(start, end) ==> r == NullView && lookup == None && view == old(view)
      ensures !IsNullRange(start, end) && old(view).IsSome() ==> r == old(view) && lookup == None && view == old(view)
      ensures !IsNullRange(start, end) && !old(view).IsSome() ==>
        r == created && view == created && lookup == Some(end.value - start.value + 1)
    {
      if IsNullRange(start, end) {
        return NullView, None;
      } else if view.IsSome() {
        return view, None;
      }
      VertexRangeSizeExact(start, end);
      lookup := Some(VertexRangeSize(start, end));
      view := created;
      r := view;
    }
  }

  /** Vulkan's index types; `IndexNoneKHR` stands for any value the context cannot use. */
  datatype IndexType = IndexUint16 | IndexUint32 | IndexUint8EXT | IndexNoneKHR

  /** The index formats of the Maxwell register. */
  datatype IndexFormat = FormatUint8 | FormatUint16 | FormatUint32

  /** The byte size of `elementCount` indices; other index types are an error. */
  function IndexBufferSize(indexType: IndexType, elementCount: u32): (r: Result<u64>)
    ensures r.Ok? <==> indexType != IndexNoneKHR
    ensures indexType == IndexUint8EXT ==> r == Ok(elementCount)
    ensures indexType == IndexUint16 ==> r == Ok(2 * elementCount)
    ensures indexType == IndexUint32 ==> r == Ok(4 * elementCount)
    ensures r.Ok? ==> (r.value == 0 <==> elementCount == 0)
  {
    match indexType
    case IndexUint8EXT => Ok(elementCount)
    case IndexUint16 => Ok(2 * elementCount)
    case IndexUint32 => Ok(4 * elementCount)
    case IndexNoneKHR => Err("Unsupported Vulkan Index Type")
  }

  /** Whether a cached index-buffer view may be returned for a request of `size` bytes. */
  predicate ReusesCachedView(view: BufferView, size: u64, viewSize: u64)
  {
    view.IsSome() && size == viewSize
  }

  /** The index buffer's address range, type and cached view with the size it was made for. */
  class IndexBuffer {
    var start: IOVA
    var end: IOVA
    var indexType: IndexType
    var viewSize: u64
    var view: BufferView

    constructor ()
      ensures start == IOVA(0) && end == IOVA(0) && indexType == IndexUint16
      ensures viewSize == 0 && view == NullView
    {
      start := IOVA(0);
      end := IOVA(0);
      indexType := IndexUint16;
      viewSize := 0;
      view := NullView;
    }

    /** Sets one register of the start or end address; the cached view is dropped. */
    method SetIova(isEnd: bool, isHigh: bool, word: u32)
      modifies this`start, this`end, this`view
      ensures view == NullView && indexType == old(indexType) && viewSize == old(viewSize)
      ensures start == if isEnd then old(start) else if isHigh then old(start).WithHigh(word) else old(start).WithLow(word)
      ensures end == if !isEnd then old(end) else if isHigh then old(end).WithHigh(word) else old(end).WithLow(word)
    {
      if isEnd {
        end := if isHigh then end.WithHigh(word) else end.WithLow(word);
      } else {
        start := if isHigh then start.WithHigh(word) else start.WithLow(word);
      }
      view := NullView;
    }

    /** Sets the index type. 8-bit indices need host support: without it the type is
        already changed when the error is raised, and the cached view is kept. */
    method SetFormat(format: IndexFormat, supportsUint8Indices: bool) returns (ok: bool)
      modifies this`indexType, this`view
      ensures indexType == match format
        case FormatUint8 => IndexUint8EXT
        case FormatUint16 => IndexUint16
        case FormatUint32 => IndexUint32
      ensures ok <==> !(format == FormatUint8 && !supportsUint8Indices)
      ensures ok ==> view == NullView
      ensures !ok ==> view == old(view)
    {
      indexType := match format
        case FormatUint8 => IndexUint8EXT
        case FormatUint16 => IndexUint16
        case FormatUint32 => IndexUint32;
      if indexType == IndexUint8EXT && !supportsUint8Indices {
        return false;
      }
      view := NullView;
      return true;
    }

    /** The index buffer view for `elementCount` indices: an error for an unusable index
        type, null for a null range or an empty buffer, the cached view if it was made for
        the same size, otherwise `created` (the lookup result for `size` bytes at `start`),
        which is cached together with its size. */
    method GetIndexBuffer(elementCount: u32, created: BufferView) returns (r: Result<BufferView>, lookup: Option<u64>)
      requires created.IsSome()
      modifies this`view, this`viewSize
      ensures IndexBufferSize(indexType, elementCount).Err? ==> r.Err? && lookup == None && unchanged(this)
      ensures IndexBufferSize(indexType, elementCount).Ok? ==>
        var size := IndexBufferSize(indexType, elementCount).value;
        if IsNullRange(start, end) || size == 0 then
          r == Ok(NullView) && lookup == None && unchanged(this)
        else if ReusesCachedView(old(view), size, old(viewSize)) then
          r == Ok(old(view)) && lookup == None && unchanged(this)
        else
          r == Ok(created) && lookup == Some(size) && view == created && viewSize == size
    {
      var sizeResult := IndexBufferSize(indexType, elementCount);
      if sizeResult.Err? {
        return Err(sizeResult.message), None;
      }
      var size := sizeResult.value;
      if IsNullRange(start, end) || size == 0 {
        return Ok(NullView), None;
      } else if ReusesCachedView(view, size, viewSize) {
        return Ok(view), None;
      }
      lookup := Some(size);
      view := created;
      viewSize := size;
      r := Ok(view);
    }

    /** The getter as written: the size of the cached view is never recorded. */
    method GetIndexBufferAsWritten(elementCount: u32, created: BufferView) returns (r: Result<BufferView>, lookup: Option<u64>)
      requires created.IsSome()
      modifies this`view
      ensures viewSize == old(viewSize)
      ensures IndexBufferSize(indexType, elementCount).Err? ==> r.Err? && lookup == None && unchanged(this)
      ensures IndexBufferSize(indexType, elementCount).Ok? ==>
        var size := IndexBufferSize(indexType, elementCount).value;
        if IsNullRange(start, end) || size == 0 then
          r == Ok(NullView) && lookup == None && unchanged(this)
        else if ReusesCachedView(old(view), size, viewSize) then
          r == Ok(old(view)) && lookup == None && unchanged(this)
        else
          r == Ok(created) && lookup == Some(size) && view == created
    {
      var sizeResult := IndexBufferSize(indexType, elementCount);
      if sizeResult.Err? {
        return Err(sizeResult.message), None;
      }
      var size := sizeResult.value;
      if IsNullRange(start, end) || size == 0 {
        return Ok(NullView), None;
      } else if ReusesCachedView(view, size, viewSize) {
        return Ok(view), None;
      }
      lookup := Some(size);
      view := created;
      r := Ok(view);
    }
  }

  /** As written, `viewSize` keeps its initial 0 and a non-null request is never empty, so
      every request for a usable range looks the buffer up again, even one repeated with
      nothing changed in between. */
  method IndexCacheNeverHitAsWritten(ib: IndexBuffer, elementCount: u32, first: BufferView, second: BufferView)
    returns (r1: Result<BufferView>, r2: Result<BufferView>, lookup1: Option<u64>, lookup2: Option<u64>)
    requires first.IsSome() && second.IsSome() && ib.viewSize == 0
    requires ib.indexType != IndexNoneKHR && !IsNullRange(ib.start, ib.end) && elementCount > 0
    modifies ib`view
    ensures r1 == Ok(first) && r2 == Ok(second)
    ensures lookup1.Some? && lookup2 == lookup1
    ensures ib.viewSize == 0
  {
    r1, lookup1 := ib.GetIndexBufferAsWritten(elementCount, first);
    r2, lookup2 := ib.GetIndexBufferAsWritten(elementCount, second);
  }

  /** With the size recorded, a repeated request returns the cached view without a lookup. */
  method IndexCacheHit(ib: IndexBuffer, elementCount: u32, first: BufferView, second: BufferView)
    returns (r1: Result<BufferView>, r2: Result<BufferView>, lookup1: Option<u64>, lookup2: Option<u64>)
    requires first.IsSome() && second.IsSome()
    requires ib.indexType != IndexNoneKHR && !IsNullRange(ib.start, ib.end) && elementCount > 0
    modifies ib`view, ib`viewSize
    ensures r1.Ok? && r1.value.IsSome()
    ensures r2 == r1 && lookup2 == None
    ensures ib.view == r1.value
  {
    r1, lookup1 := ib.GetIndexBuffer(elementCount, first);
    r2, lookup2 := ib.GetIndexBuffer(elementCount, second);
  }

  // --------------------------------------------------------- constant buffers

  /** A constant buffer is cached by its size and address. */
  datatype CacheKey = CacheKey(size: u32, iova: u64)

  /** A map from constant-buffer ranges to buffer views; nothing is ever evicted. */
  class ConstantBufferCache {
    var cache: map<CacheKey, BufferView>

    constructor ()
      ensures cache == map[]
    {
      cache := map[];
    }

    function Lookup(size: u32, iova: u64): (r: Option<BufferView>)
      reads this
      ensures r.Some? <==> CacheKey(size, iova) in cache
      ensures r.Some? ==> r.value == cache[CacheKey(size, iova)]
    {
      if CacheKey(size, iova) in cache then Some(cache[CacheKey(size, iova)]) else None
    }

    /** Inserts or replaces the view for `(size, iova)`; other entries stay. */
    method Insert(size: u32, iova: u64, view: BufferView)
      modifies this
      ensures Lookup(size, iova) == Some(view)
      ensures forall k :: k in old(cache) && k != CacheKey(size, iova) ==> k in cache && cache[k] == old(cache)[k]
      ensures cache.Keys == old(cache).Keys + {CacheKey(size, iova)}
    {
      cache := cache[CacheKey(size, iova) := view];
    }
  }

  /** A fresh cache knows no key. */
  method EmptyCacheMisses(size: u32, iova: u64) returns (r: Option<BufferView>)
    ensures r == None
  {
    var c := new ConstantBufferCache();
    r := c.Lookup(size, iova);
  }

  // --------------------------------------------------------------- stencil state

  datatype StencilOp = Keep | Zero | Replace | IncrementAndClamp | DecrementAndClamp | Invert | IncrementAndWrap | DecrementAndWrap
  datatype CompareOp = Never | Less | Equal | LessOrEqual | Greater | NotEqual | GreaterOrEqual | Always

  /** `VkStencilOpState`. */
  datatype StencilOpState = StencilOpState(
    failOp: StencilOp, passOp: StencilOp, depthFailOp: StencilOp, compareOp: CompareOp,
    compareMask: u32, writeMask: u32, reference: u32)

  /** One stencil register write, for either face. */
  datatype StencilSetting =
    | FailOp(op: StencilOp)
    | PassOp(op: StencilOp)
    | DepthFailOp(op: StencilOp)
    | Compare(compare: CompareOp)
    | CompareMask(mask: u32)
    | WriteMask(mask: u32)
    | Reference(reference: u32)

  /** The state with the one field named by `setting` replaced. */
  function Apply(s: StencilOpState, setting: StencilSetting): StencilOpState
  {
    match setting
    case FailOp(op) => s.(failOp := op)
    case PassOp(op) => s.(passOp := op)
    case DepthFailOp(op) => s.(depthFailOp := op)
    case Compare(c) => s.(compareOp := c)
    case CompareMask(m) => s.(compareMask := m)
    case WriteMask(m) => s.(writeMask := m)
    case Reference(r) => s.(reference := r)
  }

  /** The field of `VkStencilOpState` a setting writes, numbered in declaration order. */
  function Field(setting: StencilSetting): nat
  {
    match setting
    case FailOp(_) => 0
    case PassOp(_) => 1
    case DepthFailOp(_) => 2
    case Compare(_) => 3
    case CompareMask(_) => 4
    case WriteMask(_) => 5
    case Reference(_) => 6
  }

  /** Writes to the same field: the later one wins. Writes to different fields commute. */
  lemma ApplyLastWins(s: StencilOpState, a: StencilSetting, b: StencilSetting)
    ensures Field(a) == Field(b) ==> Apply(Apply(s, a), b) == Apply(s, b)
    ensures Field(a) != Field(b) ==> Apply(Apply(s, a), b) == Apply(Apply(s, b), a)
  {
  }

  const DefaultStencilOpState: StencilOpState := StencilOpState(Keep, Keep, Keep, Never, 0, 0, 0)

  /** The stencil part of the depth/stencil state: the front and back faces the pipeline
      uses, and the back face registers kept aside while both faces share one state. */
  class StencilState {
    var front: StencilOpState
    var back: StencilOpState
    var stencilBack: StencilOpState
    var twoSideStencilEnabled: bool

    /** One-sided stencil makes the back face mirror the front; two-sided uses the back
        face registers. */
    ghost predicate Valid()
      reads this
    {
      back == if twoSideStencilEnabled then stencilBack else front
    }

    constructor ()
      ensures Valid() && !twoSideStencilEnabled
      ensures front == back == stencilBack == DefaultStencilOpState
    {
      front := DefaultStencilOpState;
      back := DefaultStencilOpState;
      stencilBack := DefaultStencilOpState;
      twoSideStencilEnabled := false;
    }

    /** Enables or disables separate back-face state, reloading the back face from the
        matching source when the setting changes. */
    method SetStencilTwoSideEnabled(enabled: bool)
      requires Valid()
      modifies this`back, this`twoSideStencilEnabled
      ensures Valid()
      ensures twoSideStencilEnabled == enabled
    {
      if twoSideStencilEnabled != enabled {
        if enabled {
          back := stencilBack;
        } else {
          back := front;
        }
        twoSideStencilEnabled := enabled;
      }
    }

    /** The setter as written: it acts only when the setting is already the requested one,
        so the flag never changes. */
    method SetStencilTwoSideEnabledAsWritten(enabled: bool)
      requires Valid()
      modifies this`back, this`twoSideStencilEnabled
      ensures Valid()
      ensures twoSideStencilEnabled == old(twoSideStencilEnabled)
      ensures old(twoSideStencilEnabled) != enabled ==> twoSideStencilEnabled != enabled
    {
      if twoSideStencilEnabled == enabled {
        if enabled {
          back := stencilBack;
        } else {
          back := front;
        }
        twoSideStencilEnabled := enabled;
      }
    }

    /** A front-face register write; with one-sided stencil it also reaches the back face. */
    method SetStencilFront(setting: StencilSetting)
      requires Valid()
      modifies this`front, this`back
      ensures Valid()
      ensures front == Apply(old(front), setting)
      ensures back == if twoSideStencilEnabled then old(back) else Apply(old(back), setting)
    {
      front := Apply(front, setting);
      if !twoSideStencilEnabled {
        back := Apply(back, setting);
      }
    }

    /** A back-face register write; it reaches the pipeline's back face only with
        two-sided stencil. */
    method SetStencilBack(setting: StencilSetting)
      requires Valid()
      modifies this`stencilBack, this`back
      ensures Valid()
      ensures stencilBack == Apply(old(stencilBack), setting)
      ensures back == if twoSideStencilEnabled then Apply(old(back), setting) else old(back)
    {
      stencilBack := Apply(stencilBack, setting);
      if twoSideStencilEnabled {
        back := Apply(back, setting);
      }
    }
  }

  /** As written, a context that starts one-sided stays one-sided: after asking for
      two-sided stencil, a back-face write does not reach the pipeline's back face. */
  method BackWriteLostAsWritten(s: StencilState, setting: StencilSetting)
    requires s.Valid() && !s.twoSideStencilEnabled
    modifies s`back, s`twoSideStencilEnabled, s`stencilBack
    ensures !s.twoSideStencilEnabled && s.back == s.front
  {
    s.SetStencilTwoSideEnabledAsWritten(true);
    s.SetStencilBack(setting);
  }

  /** With the corrected setter the same sequence puts the write into the back face. */
  method BackWriteReachesBackFace(s: StencilState, setting: StencilSetting)
    requires s.Valid() && !s.twoSideStencilEnabled
    modifies s`back, s`twoSideStencilEnabled, s`stencilBack
    ensures s.twoSideStencilEnabled && s.back == s.stencilBack
    ensures s.back == Apply(old(s.stencilBack), setting)
  {
    s.SetStencilTwoSideEnabled(true);
    s.SetStencilBack(setting);
  }

  // ---------------------------------------------------------- shader-end scan

  /** The two encodings of `BRA $` (a branch to itself) that pad the end of a shader. */
  const BRA_SELF_1: u64 := 0xE240_0FFF_FF87_000F
  const BRA_SELF_2: u64 := 0xE240_0FFF_FF07_000F

  predicate IsBraSelf(instruction: u64)
  {
    instruction == BRA_SELF_1 || instruction == BRA_SELF_2
  }

  /** The byte offset of the first `BRA $` among the 64-bit instructions, if any. */
  method FindShaderEnd(instructions: seq<u64>) returns (end: Option<nat>)
    ensures end.Some? ==>
      && end.value % 8 == 0 && end.value / 8 < |instructions|
      && IsBraSelf(instructions[end.value / 8])
      && forall i :: 0 <= i < end.value / 8 ==> !IsBraSelf(instructions[i])
    ensures end.None? ==> forall i :: 0 <= i < |instructions| ==> !IsBraSelf(instructions[i])
  {
    var i := 0;
    while i < |instructions|
      invariant 0 <= i <= |instructions|
      invariant forall j :: 0 <= j < i ==> !IsBraSelf(instructions[j])
    {
      if IsBraSelf(instructions[i]) {
        return Some(i * 8);
      }
      i := i + 1;
    }
    return None;
  }

  // ----------------------------------------------------------- texture handles

  const TEXTURE_INDEX_LIMIT: nat := 0x10_0000  // 20 bits
  const SAMPLER_INDEX_LIMIT: nat := 0x1000     // 12 bits

  /** A bindless texture handle: a 20-bit texture index in the low bits and a 12-bit
      sampler index above it. */
  datatype TextureHandle = TextureHandle(raw: u32)
  {
    function TextureIndex(): (r: nat)
      ensures r < TEXTURE_INDEX_LIMIT
    {
      raw % TEXTURE_INDEX_LIMIT
    }

    function SamplerIndex(): (r: nat)
      ensures r < SAMPLER_INDEX_LIMIT
    {
      raw / TEXTURE_INDEX_LIMIT
    }
  }

  /** The handle with the given indices. */
  function PackTextureHandle(textureIndex: nat, samplerIndex: nat): (h: TextureHandle)
    requires textureIndex < TEXTURE_INDEX_LIMIT && samplerIndex < SAMPLER_INDEX_LIMIT
    ensures h.TextureIndex() == textureIndex && h.SamplerIndex() == samplerIndex
  {
    TextureHandle(samplerIndex * TEXTURE_INDEX_LIMIT + textureIndex)
  }

  /** The two fields cover the whole handle. */
  lemma TextureHandleRoundTrip(h: TextureHandle)
    ensures PackTextureHandle(h.TextureIndex(), h.SamplerIndex()) == h
  {
  }

  // ------------------------------------------------- texture image control types

  /** The texture types of a texture image control entry. */
  datatype TicType = Tic1D | Tic2D | Tic3D | TicCubemap | Tic1DArray | Tic2DArray | Tic1DBuffer | Tic2DNoMipmap | TicCubeArray

  const CUBE_FACE_COUNT: nat := 6

  /** What the entry's type decides of a guest texture: the view type, the layer count
      and the depth of the dimensions. */
  datatype TicLayout = TicLayout(textureType: TextureType, layerCount: u16, depth: u32)

  /** The layout of an entry with the given type and `depthMinusOne` field; the depth is
      kept in 16 bits, as is the layer count of a cube array. 1D buffers are an error. */
  function TicTextureLayout(ticType: TicType, depthMinusOne: u32): (r: Result<TicLayout>)
    ensures r.Err? <==> ticType == Tic1DBuffer
    ensures r.Ok? ==> r.value.depth == (if ticType == Tic3D then (depthMinusOne + 1) % U16_LIMIT else 1)
    ensures r.Ok? && ticType in {Tic1D, Tic2D, Tic2DNoMipmap, Tic3D} ==> r.value.layerCount == 1
    ensures r.Ok? && ticType in {Tic1DArray, Tic2DArray} ==> r.value.layerCount == (depthMinusOne + 1) % U16_LIMIT
    ensures r.Ok? && ticType == TicCubemap ==> r.value.layerCount == CUBE_FACE_COUNT
    ensures r.Ok? && ticType == TicCubeArray ==>
      r.value.layerCount == ((depthMinusOne + 1) % U16_LIMIT * CUBE_FACE_COUNT) % U16_LIMIT
  {
    var depth: u16 := (depthMinusOne + 1) % U16_LIMIT;
    match ticType
    case Tic1D => Ok(TicLayout(Texture1D, 1, 1))
    case Tic1DArray => Ok(TicLayout(Texture1DArray, depth, 1))
    case Tic1DBuffer => Err("1D Buffers are not supported")
    case Tic2D => Ok(TicLayout(Texture2D, 1, 1))
    case Tic2DNoMipmap => Ok(TicLayout(Texture2D, 1, 1))
    case Tic2DArray => Ok(TicLayout(Texture2DArray, depth, 1))
    case Tic3D => Ok(TicLayout(Texture3D, 1, depth))
    case TicCubemap => Ok(TicLayout(Cube, CUBE_FACE_COUNT, 1))
    case TicCubeArray => Ok(TicLayout(CubeArray, (depth * CUBE_FACE_COUNT) % U16_LIMIT, 1))
  }

  /** Every supported entry's layer count and depth agree with its view type: only array
      types have several layers, cubes have a whole number of six-face groups as long as
      the count fits in 16 bits, and only 3D textures have depth. */
  lemma TicLayoutMatchesType(ticType: TicType, depthMinusOne: u32)
    requires ticType != Tic1DBuffer
    ensures var l := TicTextureLayout(ticType, depthMinusOne).value;
      && (l.textureType in {Texture1D, Texture2D, Texture3D} ==> l.layerCount == 1)
      && (l.textureType == Cube ==> l.layerCount == CUBE_FACE_COUNT)
      && (l.textureType == CubeArray && (depthMinusOne + 1) * CUBE_FACE_COUNT < U16_LIMIT ==>
            l.layerCount == (depthMinusOne + 1) * CUBE_FACE_COUNT && l.layerCount % CUBE_FACE_COUNT == 0)
      && (l.textureType != Texture3D ==> l.depth == 1)
  {
  }
}
