/** The value helpers of a guest texture description: dimensions, format metadata,
    nullable format handles and tiling configurations (gpu/texture/texture.h). */
module Textures {
  import opened Common

  /** The Vulkan image type a set of dimensions maps to. */
  datatype ImageType = Image1D | Image2D | Image3D

  /** Width, height and depth of a texture in pixels, each a 32-bit unsigned value. */
  datatype Dimensions = Dimensions(width: u32, height: u32, depth: u32)
  {
    /** The image type needed to hold these dimensions. */
    function GetType(): ImageType
    {
      if depth > 1 then Image3D
      else if height > 1 then Image2D
      else Image1D
    }

    /** The conversion to `bool`: only non-degenerate dimensions are truthy. */
    predicate IsTruthy()
    {
      width != 0 && height != 0 && depth != 0
    }

    /** The number of pixels covered. */
    function TexelCount(): nat
    {
      var area: nat := width * height;
      area * depth
    }
  }

  /** Vulkan's own ordering of image types by dimensionality. */
  function Rank(t: ImageType): nat
  {
    match t
    case Image1D => 1
    case Image2D => 2
    case Image3D => 3
  }

  /** Vulkan's rule for which extents an image of type `t` may have: a 1D image has
      height and depth of at most 1, a 2D image a depth of at most 1. */
  predicate Fits(t: ImageType, d: Dimensions)
  {
    match t
    case Image1D => d.height <= 1 && d.depth <= 1
    case Image2D => d.depth <= 1
    case Image3D => true
  }

  /** GetType picks the lowest-dimensional image type that can hold the extent. */
  lemma GetTypeIsSmallestFit(d: Dimensions, t: ImageType)
    ensures Fits(d.GetType(), d)
    ensures Fits(t, d) ==> Rank(d.GetType()) <= Rank(t)
  {
  }

  /** The dimensions are truthy exactly when they cover at least one pixel. */
  lemma TruthyIffNonEmpty(d: Dimensions)
    ensures d.IsTruthy() <==> d.TexelCount() > 0
  {
    if d.IsTruthy() {
      assert d.width * d.height > 0;
      assert d.width * d.height * d.depth > 0;
    } else if d.width == 0 {
      assert d.TexelCount() == 0;
    } else if d.height == 0 {
      assert d.width * d.height == 0;
    } else {
      assert d.depth == 0;
    }
  }

  /** Bits of VkImageAspectFlags (section 12.1 of the Vulkan specification). */
  const ASPECT_COLOR: bv32 := 0x1
  const ASPECT_DEPTH: bv32 := 0x2
  const ASPECT_STENCIL: bv32 := 0x4

  /** `util::DivideCeil`: the number of blocks of size `divisor` needed to cover `dividend`. */
  function DivideCeil(dividend: nat, divisor: nat): (r: nat)
    requires divisor > 0
    ensures r * divisor >= dividend
    ensures r == 0 || (r - 1) * divisor < dividend
  {
    var q := dividend / divisor;
    if dividend % divisor == 0 then q else q + 1
  }

  /** Metadata of one texel format. A "block" is the unit of a compressed format. */
  datatype FormatBase = FormatBase(
    bpb: u8,             // bytes per block
    vkFormat: nat,       // the VkFormat enumerant
    vkAspect: bv32,      // the VkImageAspectFlags of the format
    blockHeight: u16,    // block height in pixels
    blockWidth: u16,     // block width in pixels
    stencilFirst: bool)  // the stencil channel comes first in the format
  {
    predicate IsCompressed()
    {
      blockHeight != 1 || blockWidth != 1
    }

    /** Byte size of a `width` x `height` x `depth` texture. The product is computed in
        32-bit unsigned arithmetic, so it wraps modulo 2^32 before widening to size_t. */
    function GetSize(width: u32, height: u32, depth: u32): u32
      requires blockWidth > 0 && blockHeight > 0
    {
      (DivideCeil(width, blockWidth) * DivideCeil(height, blockHeight) * bpb * depth) % U32_LIMIT
    }

    /** Texel-layout compatibility: the same block size and footprint. */
    predicate IsCompatible(other: FormatBase)
    {
      bpb == other.bpb && blockHeight == other.blockHeight && blockWidth == other.blockWidth
    }

    /** The aspect to use for a view whose first swizzle component is (or is not) red. */
    function Aspect(first: bool): bv32
    {
      if vkAspect & ASPECT_DEPTH != 0 && vkAspect & ASPECT_STENCIL != 0 then
        if first then (if stencilFirst then ASPECT_STENCIL else ASPECT_DEPTH)
        else (if stencilFirst then ASPECT_DEPTH else ASPECT_STENCIL)
      else
        vkAspect
    }

    /** FormatBase equality compares only the Vulkan format. */
    predicate Equals(other: FormatBase)
    {
      vkFormat == other.vkFormat
    }
  }

  /** The size of an uncompressed texture is width * height * bpb * depth (modulo 2^32). */
  lemma UncompressedSize(f: FormatBase, width: u32, height: u32, depth: u32)
    requires !f.IsCompressed()
    ensures f.blockWidth > 0 && f.blockHeight > 0
    ensures f.GetSize(width, height, depth) == (width * height * f.bpb * depth) % U32_LIMIT
  {
    assert DivideCeil(width, 1) == width;
    assert DivideCeil(height, 1) == height;
  }

  /** When the exact byte count fits in 32 bits it is what GetSize returns, and it
      holds every block row and column the texture touches. */
  lemma SizeCoversTexture(f: FormatBase, width: u32, height: u32, depth: u32)
    requires f.blockWidth > 0 && f.blockHeight > 0
    requires DivideCeil(width, f.blockWidth) * DivideCeil(height, f.blockHeight) * f.bpb * depth < U32_LIMIT
    ensures f.GetSize(width, height, depth)
         == DivideCeil(width, f.blockWidth) * DivideCeil(height, f.blockHeight) * f.bpb * depth
    ensures DivideCeil(width, f.blockWidth) * f.blockWidth >= width
    ensures DivideCeil(height, f.blockHeight) * f.blockHeight >= height
    ensures width > 0 && height > 0 && depth > 0 && f.bpb > 0 ==> f.GetSize(width, height, depth) >= f.bpb
  {
    var p := DivideCeil(width, f.blockWidth) * DivideCeil(height, f.blockHeight) * f.bpb * depth;
    NonNegativeProduct(DivideCeil(width, f.blockWidth), DivideCeil(height, f.blockHeight), f.bpb, depth);
    assert f.GetSize(width, height, depth) == p % U32_LIMIT;
    if width > 0 && height > 0 && depth > 0 && f.bpb > 0 {
      ProductAtLeastThird(DivideCeil(width, f.blockWidth), DivideCeil(height, f.blockHeight), f.bpb, depth);
    }
  }

  /** A product of positive factors is at least its third factor. */
  lemma ProductAtLeastThird(a: nat, b: nat, c: nat, d: nat)
    requires a > 0 && b > 0 && d > 0
    ensures a * b * c * d >= c
  {
    var ab := a * b;
    assert ab >= 1;
    assert ab * c >= c;
    assert ab * c * d >= ab * c;
  }

  lemma NonNegativeProduct(a: nat, b: nat, c: nat, d: nat)
    ensures a * b * c * d >= 0
  {
  }

  /** IsCompatible is an equivalence relation. */
  lemma CompatibleIsEquivalence(a: FormatBase, b: FormatBase, c: FormatBase)
    ensures a.IsCompatible(a)
    ensures a.IsCompatible(b) <==> b.IsCompatible(a)
    ensures a.IsCompatible(b) && b.IsCompatible(c) ==> a.IsCompatible(c)
  {
  }

  /** Compatible formats need the same number of bytes for any extent. */
  lemma CompatibleSameSize(a: FormatBase, b: FormatBase, width: u32, height: u32, depth: u32)
    requires a.blockWidth > 0 && a.blockHeight > 0
    requires a.IsCompatible(b)
    ensures b.blockWidth > 0 && b.blockHeight > 0
    ensures a.GetSize(width, height, depth) == b.GetSize(width, height, depth)
  {
  }

  /** For a combined depth/stencil format the two choices of Aspect are the two
      distinct single aspects, the stencil one first exactly when stencilFirst;
      any other format always answers with its own aspect mask. */
  lemma AspectSplitsDepthStencil(f: FormatBase)
    ensures f.vkAspect & ASPECT_DEPTH != 0 && f.vkAspect & ASPECT_STENCIL != 0 ==>
      && {f.Aspect(true), f.Aspect(false)} == {ASPECT_DEPTH, ASPECT_STENCIL}
      && f.Aspect(true) != f.Aspect(false)
      && (f.Aspect(true) == ASPECT_STENCIL <==> f.stencilFirst)
    ensures !(f.vkAspect & ASPECT_DEPTH != 0 && f.vkAspect & ASPECT_STENCIL != 0) ==>
      f.Aspect(true) == f.vkAspect && f.Aspect(false) == f.vkAspect
  {
  }

  /** `texture::Format`: a possibly null pointer to format metadata. */
  datatype Format = NullFormat | Fmt(base: FormatBase)
  {
    /** The conversion to `bool`. */
    predicate IsSome()
    {
      Fmt?
    }
  }

  /** `Format::operator==`: two non-null formats compare their metadata, otherwise the pointers. */
  predicate FormatEq(a: Format, b: Format)
  {
    if a.Fmt? && b.Fmt? then a.base.Equals(b.base) else a.NullFormat? && b.NullFormat?
  }

  /** `Format::operator!=`, written out separately as in the source. */
  predicate FormatNe(a: Format, b: Format)
  {
    if a.Fmt? && b.Fmt? then a.base.vkFormat != b.base.vkFormat else !(a.NullFormat? && b.NullFormat?)
  }

  /** The three cases of format equality, and `!=` is its negation. */
  lemma FormatEqualityCases(a: Format, b: Format)
    ensures a.NullFormat? && b.NullFormat? ==> FormatEq(a, b)
    ensures a.NullFormat? != b.NullFormat? ==> !FormatEq(a, b)
    ensures a.Fmt? && b.Fmt? ==> (FormatEq(a, b) <==> a.base.vkFormat == b.base.vkFormat)
    ensures FormatNe(a, b) <==> !FormatEq(a, b)
  {
  }

  /** Format equality is an equivalence relation. */
  lemma FormatEqIsEquivalence(a: Format, b: Format, c: Format)
    ensures FormatEq(a, a)
    ensures FormatEq(a, b) <==> FormatEq(b, a)
    ensures FormatEq(a, b) && FormatEq(b, c) ==> FormatEq(a, c)
  {
  }

  /** The layout of a texture in guest memory. */
  datatype TileMode = Linear | Pitch | Block

  /** `TileConfig`: a mode and a 32-bit union that is read either as the pitch or as
      two bytes (block height, block depth in GOBs) in its low half (little-endian). */
  datatype TileConfig = TileConfig(mode: TileMode, raw: u32)
  {
    function PitchBytes(): u32 { raw }
    function BlockHeight(): u8 { raw % 0x100 }
    function BlockDepth(): u8 { (raw / 0x100) % 0x100 }
  }

  /** A block-linear configuration with the given block height and depth in GOBs. */
  function BlockConfig(blockHeight: u8, blockDepth: u8): (c: TileConfig)
    ensures c.mode == Block
    ensures c.BlockHeight() == blockHeight && c.BlockDepth() == blockDepth
  {
    TileConfig(Block, blockDepth * 0x100 + blockHeight)
  }

  /** `TileConfig::operator==`. */
  predicate TileConfigEq(a: TileConfig, b: TileConfig)
  {
    a.mode == b.mode &&
    match a.mode
    case Linear => true
    case Pitch => a.PitchBytes() == b.PitchBytes()
    case Block => a.BlockHeight() == b.BlockHeight() && a.BlockDepth() == b.BlockDepth()
  }

  /** Tile-configuration equality is an equivalence relation that needs equal modes,
      ignores the parameters of linear layouts and the upper half of a block layout's union. */
  lemma TileConfigEqProperties(a: TileConfig, b: TileConfig, c: TileConfig)
    ensures TileConfigEq(a, a)
    ensures TileConfigEq(a, b) <==> TileConfigEq(b, a)
    ensures TileConfigEq(a, b) && TileConfigEq(b, c) ==> TileConfigEq(a, c)
    ensures TileConfigEq(a, b) ==> a.mode == b.mode
    ensures a.mode == Linear && b.mode == Linear ==> TileConfigEq(a, b)
    ensures a.mode == Block && b.mode == Block && a.raw % 0x1_0000 == b.raw % 0x1_0000 ==> TileConfigEq(a, b)
  {
    if a.mode == Block && b.mode == Block && a.raw % 0x1_0000 == b.raw % 0x1_0000 {
      LowHalfBytes(a.raw);
      LowHalfBytes(b.raw);
    }
  }

  /** The two low bytes of a 32-bit value are those of its low half. */
  lemma LowHalfBytes(x: u32)
    ensures x % 0x100 == (x % 0x1_0000) % 0x100
    ensures (x / 0x100) % 0x100 == (x % 0x1_0000) / 0x100
  {
    var hi, lo := x / 0x1_0000, x % 0x1_0000;
    assert x == hi * 0x1_0000 + lo;
    assert x == (hi * 0x100) * 0x100 + lo;
    assert x / 0x100 == hi * 0x100 + lo / 0x100;
  }

  /** The view type of a guest texture. Its values are Vulkan's image view types, whose
      first three coincide with the image types, so a render target's view type is its
      dimensions' image type cast to this enumeration. */
  datatype TextureType = Texture1D | Texture2D | Texture3D | Cube | Texture1DArray | Texture2DArray | CubeArray

  /** The numeric value of an image type (`VK_IMAGE_TYPE_1D` .. `VK_IMAGE_TYPE_3D`). */
  function ImageTypeValue(t: ImageType): nat
  {
    match t
    case Image1D => 0
    case Image2D => 1
    case Image3D => 2
  }

  /** The numeric value of a texture type (`VK_IMAGE_VIEW_TYPE_1D` .. `VK_IMAGE_VIEW_TYPE_CUBE_ARRAY`). */
  function TextureTypeValue(t: TextureType): nat
  {
    match t
    case Texture1D => 0
    case Texture2D => 1
    case Texture3D => 2
    case Cube => 3
    case Texture1DArray => 4
    case Texture2DArray => 5
    case CubeArray => 6
  }

  /** The `static_cast` from an image type to a texture type: the value is kept. */
  function TextureTypeOf(t: ImageType): (r: TextureType)
    ensures TextureTypeValue(r) == ImageTypeValue(t)
  {
    match t
    case Image1D => Texture1D
    case Image2D => Texture2D
    case Image3D => Texture3D
  }

  /** The cast is well defined: every image type's value names exactly one texture type,
      and it is never a cube or array type. */
  lemma TextureTypeOfUnique(t: ImageType, v: TextureType)
    ensures TextureTypeValue(v) == ImageTypeValue(t) <==> v == TextureTypeOf(t)
    ensures TextureTypeOf(t) !in {Cube, Texture1DArray, Texture2DArray, CubeArray}
  {
  }

  /** Which of a texture's guest mappings and host image holds data the other lacks. */
  datatype TextureDirtyState = TextureClean | TextureCpuDirty | TextureGpuDirty

  /** The synchronisation state of a host texture. Its methods are not part of this model;
      only the initial state is. */
  class Texture {
    var dirtyState: TextureDirtyState

    /** A new texture is CpuDirty, so its guest data is uploaded before the first use. */
    constructor ()
      ensures dirtyState == TextureCpuDirty
    {
      dirtyState := TextureCpuDirty;
    }
  }
}
