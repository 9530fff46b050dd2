# A verified model of skyline's GPU state tracking

skyline emulates the Nintendo Switch GPU (Maxwell) on top of Vulkan. This project
models the part of its `gpu/` directory that keeps guest and host memory coherent and
turns the guest's register writes into Vulkan work:

- **Textures** (`textures.dfy`): texture dimensions and the image type they imply,
  guest formats with their byte sizes, compatibility, aspects and equality, tiling
  configurations and their equality, and the CPU-dirty state a new texture starts in.
- **Buffers** (`buffers.dfy`): a guest buffer with its guest mirror and host backing,
  its dirty-state machine (Clean, CPU dirty, GPU dirty) with the memory traps that drive
  it, host and guest synchronisation, reads and writes through the right copy, the
  view cache, buffer delegates and buffer views with their usage callbacks.
- **Command executor** (`executor.dfy`): the append-only node list grouped into
  render passes and subpasses, the rule that closes a render pass, clear subpasses,
  the texture and buffer sets a batch synchronises, and the walk that records each node
  with its subpass index.
- **Graphics context** (`graphics.dfy`): 64-bit IOVAs assembled from two 32-bit
  registers, colour and depth render-target registers and the view they yield,
  vertex and index buffer registers and their view lookup, the constant-buffer cache,
  the stencil registers with two-sided stencil, the scan for the end of a shader, bindless
  texture handles and the TIC texture-type decoding.

Classes stand for the source's objects whose fields are updated in place (`Buffer`,
`BufferDelegate`, `CommandExecutor`, `RenderTarget`, `VertexBuffer`, `IndexBuffer`,
`ConstantBufferCache`, `StencilState`, `Texture`). Each class has a validity predicate
that every method preserves. The mirror and backing of a buffer are byte arrays.
Fixed-width integers are subset types of `int`, and each wrap-around the source performs is
written out as a `%` on the type's limit.

Vulkan, the memory traps of the host OS, fences and the allocator are not modelled. Their
effects appear as parameters. A `created` parameter stands for a view or texture that
a lookup creates, and a ghost `trap` field records the trap a buffer is under.

## Model

| member | source | states |
|---|---|---|
| Common.Pow2Monotone | app/src/main/cpp/skyline/gpu/interconnect/graphics_context.h:317-322 | A block size of 2^h GOBs grows with its exponent h, which bounds the sizes a tile-mode register can yield |
| Textures.GetTypeIsSmallestFit | app/src/main/cpp/skyline/gpu/texture/texture.h:30-37 | The image type of a set of dimensions is the lowest-ranked type (1D, 2D, 3D) that holds them: a height or depth above 1 rules out the lower types |
| Textures.TruthyIffNonEmpty | app/src/main/cpp/skyline/gpu/texture/texture.h:57-59 | Dimensions convert to true exactly when width, height and depth are all non-zero, that is when they hold at least one texel |
| Textures.DivideCeil | app/src/main/cpp/skyline/gpu/texture/texture.h:89-91 | The ceiling quotient is the least count of blocks of `divisor` that covers `dividend` |
| Textures.UncompressedSize | app/src/main/cpp/skyline/gpu/texture/texture.h:79-91 | A format with 1x1 blocks is not compressed, and its size is bytes-per-block times the texel count, modulo 2^32 |
| Textures.SizeCoversTexture | app/src/main/cpp/skyline/gpu/texture/texture.h:89-91 | Before the 32-bit truncation the size is the number of blocks needed to cover width and height, times the depth and bytes per block, and it is at least one block for a non-empty texture |
| Textures.CompatibleIsEquivalence | app/src/main/cpp/skyline/gpu/texture/texture.h:119-121 | Format compatibility (equal bytes per block, block width and block height) is reflexive, symmetric and transitive |
| Textures.CompatibleSameSize | app/src/main/cpp/skyline/gpu/texture/texture.h:119-121 | Two compatible formats give every texture the same byte size, so one can view the other's memory |
| Textures.AspectSplitsDepthStencil | app/src/main/cpp/skyline/gpu/texture/texture.h:126-135 | For a format with both depth and stencil aspects the two calls return depth and stencil, one each, with stencil first exactly when the format says so; any other format returns its own aspect both times |
| Textures.FormatEqualityCases | app/src/main/cpp/skyline/gpu/texture/texture.h:159-165 | Two format pointers are equal when both are null, or both are set and their formats compare equal; `!=` is the exact negation of `==` |
| Textures.FormatEqIsEquivalence | app/src/main/cpp/skyline/gpu/texture/texture.h:97-103 | Format equality, which compares the Vulkan format alone, lifted to optional formats is an equivalence relation |
| Textures.BlockConfig | app/src/main/cpp/skyline/gpu/texture/texture.h:185-193 | A block-linear configuration built from a block height and depth reads both back unchanged |
| Textures.TileConfigEqProperties | app/src/main/cpp/skyline/gpu/texture/texture.h:195-208 | Tile-configuration equality is an equivalence that needs equal modes, holds for any two linear layouts, and compares only the low 16 bits of a block layout |
| Textures.TextureTypeOf | app/src/main/cpp/skyline/gpu/interconnect/graphics_context.h:390 | Casting an image type to a texture type keeps its numeric value: the Vulkan image-type value equals the image-view-type value of the result |
| Textures.TextureTypeOfUnique | app/src/main/cpp/skyline/gpu/texture/texture.h:216-224 | Each image type's value names exactly one texture type, the result of the cast, and it is never a cube or array type |
| Textures.Texture.constructor | app/src/main/cpp/skyline/gpu/texture/texture.h:345-349 | A new texture starts CPU dirty |
| Buffers.SynchronizeIdempotent | app/src/main/cpp/skyline/gpu/buffer.cpp:47-117 | On the dirty-state transition functions that Buffer.SynchronizeHost, Buffer.SynchronizeGuest and Buffer.MarkGpuDirty are proved to follow, a second host synchronisation, guest synchronisation or GPU-dirty mark leaves the dirty state as the first one left it (the GPU-dirty mark is a constant transition, so its part is immediate) |
| Buffers.GuestHostGuestCycle | app/src/main/cpp/skyline/gpu/buffer.cpp:18-117 | On the dirty-state transition functions alone (the byte-level cycle over the Buffer methods is GuestHostRoundTrip), a guest write, an upload to the host, a GPU write and a read-back always end Clean, whatever state the buffer started in |
| Buffers.Buffer.constructor | app/src/main/cpp/skyline/gpu/buffer.cpp:30-32 | A buffer over guest memory starts CPU dirty, under a write trap, with a mirror holding the guest's bytes and a backing of the same size |
| Buffers.Buffer.HostOnly | app/src/main/cpp/skyline/gpu/buffer.cpp:34-36 | A host-only buffer has no guest mirror, starts Clean with no trap, and has a backing of the requested size |
| Buffers.Buffer.MarkGpuDirty | app/src/main/cpp/skyline/gpu/buffer.cpp:47-52 | Marking a guest buffer GPU dirty puts it under a read-write trap (unless it is already GPU dirty) so the guest cannot see stale data, and changes no bytes |
| Buffers.Buffer.SynchronizeHost | app/src/main/cpp/skyline/gpu/buffer.cpp:64-81 | A CPU-dirty guest buffer copies the mirror into the backing, then becomes GpuDirty under a read-write trap when `rwTrap` is set, or Clean under a write trap otherwise; any other buffer is left unchanged; the mirror never changes |
| Buffers.Buffer.SynchronizeHostWithCycle | app/src/main/cpp/skyline/gpu/buffer.cpp:83-101 | The same as SynchronizeHost, with the cycle's fence wait left out |
| Buffers.Buffer.SynchronizeGuest | app/src/main/cpp/skyline/gpu/buffer.cpp:103-117 | A GPU-dirty guest buffer copies the backing into the mirror and becomes Clean; the trap is lifted to a write trap unless the caller skips it; any other buffer is unchanged |
| Buffers.Buffer.ReadTrapCallback | app/src/main/cpp/skyline/gpu/buffer.cpp:18-21 | A guest read of a GPU-dirty guest buffer copies the backing into the mirror and leaves it Clean; the trap and the backing are untouched |
| Buffers.Buffer.WriteTrapCallback | app/src/main/cpp/skyline/gpu/buffer.cpp:22-27 | A guest write first copies GPU data back into the mirror when the buffer was GPU dirty, then marks the buffer CPU dirty; the backing is untouched |
| Buffers.Buffer.Read | app/src/main/cpp/skyline/gpu/buffer.cpp:141-146 | A read returns the requested range of the copy that holds the latest data: the backing when GPU dirty, the mirror otherwise |
| Buffers.Buffer.Write | app/src/main/cpp/skyline/gpu/buffer.cpp:148-153 | A write lands in the mirror unless GPU dirty, and also in the backing when GPU dirty or (Clean and not skipped); the visible contents become the old ones with the data spliced in, and a Clean buffer written on both sides stays coherent |
| Buffers.Buffer.GetView | app/src/main/cpp/skyline/gpu/buffer.cpp:201-208 | A view over a storage range reuses the cached storage equal to it, or appends it to the cache, and returns a fresh delegate over that storage registered with the buffer |
| Buffers.BufferDelegate.constructor | app/src/main/cpp/skyline/gpu/buffer.cpp:157-159 | A new delegate is appended to its buffer's delegate list and holds no usage callbacks |
| Buffers.BufferDelegate.Release | app/src/main/cpp/skyline/gpu/buffer.cpp:161-164 | Destroying a delegate removes exactly its one entry from its buffer's delegate list; the other delegates keep their order |
| Buffers.BufferView.Read | app/src/main/cpp/skyline/gpu/buffer.cpp:233-235 | A read through a view returns the buffer's visible bytes at the view's storage offset plus the requested offset |
| Buffers.BufferView.Write | app/src/main/cpp/skyline/gpu/buffer.cpp:237-239 | A write through a view splices the data into the buffer's visible bytes at the view's storage offset plus the requested offset |
| Buffers.BufferView.RegisterUsage | app/src/main/cpp/skyline/gpu/buffer.cpp:221-231 | A usage callback runs on the view's storage and buffer right away and is appended after the callbacks already registered |
| Buffers.GuestHostRoundTrip | app/src/main/cpp/skyline/gpu/buffer.cpp:64-153 | After a guest write, an upload, a GPU write of some data and a read-back, the mirror holds exactly the GPU's data and the buffer is Clean and coherent |
| Executor.FullArea | app/src/main/cpp/skyline/gpu/interconnect/command_executor.cpp:73-75 | The render area of a whole-attachment clear covers every pixel of the attachment and lies inside every other rectangle that does |
| Executor.FullAreaSharedByEqualExtents | app/src/main/cpp/skyline/gpu/interconnect/command_executor.cpp:72-75 | Two attachments get the same full area, and so can share a render pass, exactly when their widths and heights agree |
| Executor.RecordNodes | app/src/main/cpp/skyline/gpu/interconnect/command_executor.cpp:153-177 | Walking the nodes records one call per node, and each call sees the subpass index reset by a render-pass node and raised by each next-subpass node before it |
| Executor.IndicesBelowPrefixes | app/src/main/cpp/skyline/gpu/interconnect/command_executor.cpp:157-177 | A bound on the subpass index of a node list holds for every prefix of it |
| Executor.RecordedIndicesBelow | app/src/main/cpp/skyline/gpu/interconnect/command_executor.cpp:157-177 | When the node list keeps its subpass indices below the limit, every recorded call sees an index below the limit |
| Executor.AsWrittenPassExceedsLimit | app/src/main/cpp/skyline/gpu/interconnect/command_executor.cpp:14-29 | With the `>` comparison as written, a render pass on one area takes `maxSubpassCount + 2` subpasses before it is closed |
| Executor.CountAfterAsWrittenGrows | app/src/main/cpp/skyline/gpu/interconnect/command_executor.cpp:14-29 | With the comparison as written, each of the first `maxSubpassCount + 1` subpasses on one area stays in the same render pass |
| Executor.CommandExecutor.constructor | app/src/main/cpp/skyline/gpu/interconnect/command_executor.h:19-25 | A new executor has no nodes, no open render pass, a subpass count of 0 and nothing to synchronise |
| Executor.CommandExecutor.EndRenderPass | app/src/main/cpp/skyline/gpu/interconnect/command_executor.cpp:133-137 | Closing the open render pass appends an end node and resets the pass and the subpass count |
| Executor.CommandExecutor.CreateRenderPass | app/src/main/cpp/skyline/gpu/interconnect/command_executor.cpp:14-29 | A new render pass is opened, after closing the open one, exactly when none is open, the area differs, or one more subpass would pass `maxSubpassCount`; otherwise the subpass count is raised; the count stays below the limit |
| Executor.CommandExecutor.AddSubpass | app/src/main/cpp/skyline/gpu/interconnect/command_executor.cpp:52-59 | A subpass appends a subpass node to a new pass or a next-subpass node to the open one, so the walk's subpass index equals the subpass count, below the limit |
| Executor.CommandExecutor.AddNonGraphicsPass | app/src/main/cpp/skyline/gpu/interconnect/command_executor.cpp:61-70 | Non-graphics work closes the open render pass and is appended as a plain function node |
| Executor.CommandExecutor.AddClearSubpass | app/src/main/cpp/skyline/gpu/interconnect/command_executor.cpp:72-127 | After the render pass is opened or reused, a clear the load operation does adds a next-subpass node on a reused pass and nothing on a new one; otherwise the clear runs in the first subpass of a new pass or the next subpass of a reused one; the subpass count follows |
| Executor.CommandExecutor.AddClearColorSubpass | app/src/main/cpp/skyline/gpu/interconnect/command_executor.cpp:72-99 | The pass is opened or reused on the attachment's full area, and the appended nodes are those of AddClearSubpass with a colour clear of that area |
| Executor.CommandExecutor.AddClearDepthStencilSubpass | app/src/main/cpp/skyline/gpu/interconnect/command_executor.cpp:101-127 | The pass is opened or reused on the attachment's full area, and the appended nodes are those of AddClearSubpass with a clear of the format's aspects over that area |
| Executor.CommandExecutor.AttachTexture | app/src/main/cpp/skyline/gpu/interconnect/command_executor.cpp:31-39 | A texture is added to the synchronisation set, and its wait recorded once, the first time it is attached |
| Executor.CommandExecutor.AttachBuffer | app/src/main/cpp/skyline/gpu/interconnect/command_executor.cpp:41-46 | A buffer view's delegate is added to the synchronisation set, and recorded once, the first time it is attached |
| Executor.CommandExecutor.Execute | app/src/main/cpp/skyline/gpu/interconnect/command_executor.cpp:129-189 | An empty executor does nothing; otherwise the open pass is closed, every attached buffer is uploaded (a CPU-dirty one ends with its backing equal to its mirror, no mirror changes, other backings are untouched), every node is recorded with its subpass index below the limit, and all state is reset |
| Executor.SynchronizeBuffers | app/src/main/cpp/skyline/gpu/interconnect/command_executor.cpp:148-151 | Every buffer ends in the state a host synchronisation with a read-write trap gives; a CPU-dirty buffer's backing then holds its mirror, every other backing is untouched, and no mirror changes |
| Executor.UploadBatch | app/src/main/cpp/skyline/gpu/interconnect/command_executor.cpp:148-151 | Each delegate's buffer is uploaded as SynchronizeBuffers states, and each delegate ends with no usage callbacks |
| Executor.CommandExecutor.RecordBatch | app/src/main/cpp/skyline/gpu/interconnect/command_executor.cpp:153-184 | Each node is recorded in order with its subpass index, which stays below the limit, and the batch is then emptied |
| Executor.ClearUsageCallbacks | app/src/main/cpp/skyline/gpu/interconnect/command_executor.cpp:148-151 | Every delegate in the set ends with no usage callbacks |
| Graphics.IOVAComposition | app/src/main/cpp/skyline/gpu/interconnect/graphics_context.h:37-48 | An IOVA is its high word times 2^32 plus its low word, and the two words determine it |
| Graphics.IOVAFromRegisters | app/src/main/cpp/skyline/gpu/interconnect/graphics_context.h:37-48 | Writing a low and a high register, in either order, gives the address high * 2^32 + low |
| Graphics.BlockTileConfig | app/src/main/cpp/skyline/gpu/interconnect/graphics_context.h:317-322 | A block tile mode gives a block configuration of 2^h by 2^d GOBs, as bytes |
| Graphics.BlockTileConfigExact | app/src/main/cpp/skyline/gpu/interconnect/graphics_context.h:317-322 | With exponents below 8 the block height and depth are exactly 2^h and 2^d |
| Graphics.RenderTarget.constructor | app/src/main/cpp/skyline/gpu/interconnect/graphics_context.h:106-117 | A new render target is disabled, has no format, 1x1x1 dimensions, one layer and a linear layout, and has no view |
| Graphics.RenderTarget.SetEnabled | app/src/main/cpp/skyline/gpu/interconnect/graphics_context.h:125-127 | Enabling the depth target clears its disabled flag, and disabling sets it |
| Graphics.RenderTarget.SetAddressHigh | app/src/main/cpp/skyline/gpu/interconnect/graphics_context.h:129-133 | Only the high word of the address changes; the mapping and the view are dropped |
| Graphics.RenderTarget.SetAddressLow | app/src/main/cpp/skyline/gpu/interconnect/graphics_context.h:143-147 | Only the low word of the address changes; the mapping and the view are dropped |
| Graphics.RenderTarget.SetWidth | app/src/main/cpp/skyline/gpu/interconnect/graphics_context.h:157-163 | The width register is kept in bytes; a linear target with a format has a width in texels of bytes divided by bytes per block |
| Graphics.RenderTarget.SetHeight | app/src/main/cpp/skyline/gpu/interconnect/graphics_context.h:173-176 | Only the height changes, and the view is dropped |
| Graphics.RenderTarget.SetFormatCommon | app/src/main/cpp/skyline/gpu/interconnect/graphics_context.h:271-279 | Setting a format records it and its aspect, recomputes a linear target's width from the width in bytes, and drops the view |
| Graphics.RenderTarget.SetColorFormat | app/src/main/cpp/skyline/gpu/interconnect/graphics_context.h:186-279 | As SetFormatCommon, and the target is disabled exactly when the format is none |
| Graphics.RenderTarget.SetDepthFormat | app/src/main/cpp/skyline/gpu/interconnect/graphics_context.h:281-307 | As SetFormatCommon for the depth target |
| Graphics.RenderTarget.SetTileMode | app/src/main/cpp/skyline/gpu/interconnect/graphics_context.h:309-330 | A linear mode keeps the stored parameters and a block mode stores 2^h by 2^d GOBs; switching to or from linear converts the width between bytes and texels; the view is dropped |
| Graphics.LinearRoundTrip | app/src/main/cpp/skyline/gpu/interconnect/graphics_context.h:309-330 | Switching a linear target to block and back restores its width in bytes and its dimensions |
| Graphics.RenderTarget.SetArrayMode | app/src/main/cpp/skyline/gpu/interconnect/graphics_context.h:340-353 | The layer count becomes the depth; a colour target rejects volume mode and is then left unchanged |
| Graphics.RenderTarget.SetLayerStride | app/src/main/cpp/skyline/gpu/interconnect/graphics_context.h:355-358 | The layer stride is the register times 4, wrapped to 32 bits, and exact when it fits |
| Graphics.RenderTarget.SetBaseLayer | app/src/main/cpp/skyline/gpu/interconnect/graphics_context.h:368-375 | A base layer is accepted exactly when it fits 16 bits; a rejected one leaves the target unchanged |
| Graphics.RenderTarget.GetRenderTarget | app/src/main/cpp/skyline/gpu/interconnect/graphics_context.h:377-394 | A disabled target yields no view; a cached view is returned unchanged; otherwise a new view is created, cached and returned |
| Graphics.VertexRangeSizeExact | app/src/main/cpp/skyline/gpu/interconnect/graphics_context.h:1737-1750 | The size of a non-null vertex range is end minus start plus one, never zero |
| Graphics.VertexBuffer.constructor | app/src/main/cpp/skyline/gpu/interconnect/graphics_context.h:1578-1583 | A new vertex buffer has zero start and end addresses and no view |
| Graphics.VertexBuffer.SetIova | app/src/main/cpp/skyline/gpu/interconnect/graphics_context.h:1601-1623 | Each register write changes only the addressed word of the start or end address and drops the view |
| Graphics.VertexBuffer.GetVertexBuffer | app/src/main/cpp/skyline/gpu/interconnect/graphics_context.h:1737-1750 | A null range yields the null view; a cached view is returned; otherwise the range start .. end+1 is looked up and the created view cached |
| Graphics.IndexBufferSize | app/src/main/cpp/skyline/gpu/interconnect/graphics_context.h:1830-1842 | The byte size is 1, 2 or 4 bytes per element for 8-, 16- and 32-bit indices; any other type is an error |
| Graphics.IndexBuffer.constructor | app/src/main/cpp/skyline/gpu/interconnect/graphics_context.h:1824-1829 | A new index buffer has zero addresses, 16-bit indices, a view size of 0 and no view |
| Graphics.IndexBuffer.SetIova | app/src/main/cpp/skyline/gpu/interconnect/graphics_context.h:2328-2346 | Each register write changes only the addressed word of the start or end address and drops the view |
| Graphics.IndexBuffer.SetFormat | app/src/main/cpp/skyline/gpu/interconnect/graphics_context.h:2348-2366 | 16- and 32-bit formats are accepted; an 8-bit format is accepted only with device support, and without it the type is still changed before the error |
| Graphics.IndexBuffer.GetIndexBuffer | app/src/main/cpp/skyline/gpu/interconnect/graphics_context.h:2368-2382 | A cached view made for exactly the needed size is reused; otherwise the range is looked up and the new view cached with its size |
| Graphics.IndexBuffer.GetIndexBufferAsWritten | app/src/main/cpp/skyline/gpu/interconnect/graphics_context.h:2368-2382 | As written, the view size stays 0, so only a zero-sized request can reuse the cached view |
| Graphics.IndexCacheNeverHitAsWritten | app/src/main/cpp/skyline/gpu/interconnect/graphics_context.h:2368-2382 | As written, two equal non-empty requests both look the range up, and the second returns the newly created view instead of the first |
| Graphics.IndexCacheHit | app/src/main/cpp/skyline/gpu/interconnect/graphics_context.h:2368-2382 | With the view size recorded, the second of two equal requests returns the first one's view without a lookup |
| Graphics.ConstantBufferCache.constructor | app/src/main/cpp/skyline/gpu/interconnect/graphics_context.h:657-677 | A new cache is empty |
| Graphics.ConstantBufferCache.Lookup | app/src/main/cpp/skyline/gpu/interconnect/graphics_context.h:679-684 | A lookup finds a view exactly when one was inserted for the same size and address |
| Graphics.ConstantBufferCache.Insert | app/src/main/cpp/skyline/gpu/interconnect/graphics_context.h:686-688 | An insert binds the view to its size and address, leaving other entries alone |
| Graphics.EmptyCacheMisses | app/src/main/cpp/skyline/gpu/interconnect/graphics_context.h:657-684 | A new cache finds no view for any size and address |
| Graphics.ApplyLastWins | app/src/main/cpp/skyline/gpu/interconnect/graphics_context.h:2488-2570 | Two writes to the same stencil field leave only the second; writes to different fields commute |
| Graphics.StencilState.constructor | app/src/main/cpp/skyline/gpu/interconnect/graphics_context.h:2385-2387 | Two-sided stencil starts disabled, with both faces equal |
| Graphics.StencilState.SetStencilTwoSideEnabled | app/src/main/cpp/skyline/gpu/interconnect/graphics_context.h:2455-2463 | A change of the flag copies the front face or the stored back face into the back face |
| Graphics.StencilState.SetStencilTwoSideEnabledAsWritten | app/src/main/cpp/skyline/gpu/interconnect/graphics_context.h:2455-2463 | As written, the flag is only updated when it already has the new value, so it never changes |
| Graphics.StencilState.SetStencilFront | app/src/main/cpp/skyline/gpu/interconnect/graphics_context.h:2488-2570 | A front register changes the front face, and the back face too when two-sided stencil is off |
| Graphics.StencilState.SetStencilBack | app/src/main/cpp/skyline/gpu/interconnect/graphics_context.h:2488-2570 | A back register changes the stored back face, and the back face in use only when two-sided stencil is on |
| Graphics.BackWriteLostAsWritten | app/src/main/cpp/skyline/gpu/interconnect/graphics_context.h:2455-2494 | As written, after enabling two-sided stencil a back-face write never reaches the back face |
| Graphics.BackWriteReachesBackFace | app/src/main/cpp/skyline/gpu/interconnect/graphics_context.h:2455-2494 | After enabling two-sided stencil a back-face write reaches the back face and leaves the front alone |
| Graphics.FindShaderEnd | app/src/main/cpp/skyline/gpu/interconnect/graphics_context.h:927-936 | The scan returns the byte offset (8 bytes per instruction) of the first `BRA $` instruction in either encoding, and none when there is no such instruction |
| Graphics.TextureHandle.TextureIndex | app/src/main/cpp/skyline/gpu/interconnect/graphics_context.h:1109-1115 | The texture index is the low 20 bits of the handle |
| Graphics.TextureHandle.SamplerIndex | app/src/main/cpp/skyline/gpu/interconnect/graphics_context.h:1109-1115 | The sampler index is the top 12 bits of the handle |
| Graphics.PackTextureHandle | app/src/main/cpp/skyline/gpu/interconnect/graphics_context.h:1109-1115 | Packing in-range indices gives a handle whose fields read them back |
| Graphics.TextureHandleRoundTrip | app/src/main/cpp/skyline/gpu/interconnect/graphics_context.h:1109-1115 | Unpacking a handle and packing its two fields again gives the same handle |
| Graphics.TicTextureLayout | app/src/main/cpp/skyline/gpu/interconnect/graphics_context.h:2050-2091 | Each TIC texture type maps to its view type; array types take the 16-bit depth as layer count, 3D types take it as depth, a cube has 6 layers and a cube array 6 per cube in 16 bits; a 1D buffer is an error |
| Graphics.TicLayoutMatchesType | app/src/main/cpp/skyline/gpu/interconnect/graphics_context.h:2050-2091 | Only array and cube types have more than one layer, only 3D types have a depth above 1, and a cube array whose layer count fits 16 bits holds whole groups of 6 faces |

## Left out

- Locking: the buffer lock and the delegate lock forwarding (buffer.cpp:166-199) and the `locked` arguments to the executor's attach methods are single-threaded here.
- Fences and cycles: waits on fences are not modelled. `SynchronizeGuestWithCycle` and `AttachCycle` are left out because they only wait or keep a cycle alive.
- Buffers.Buffer.SynchronizeHostWithCycle: does not model waiting on the cycle's fence. It is otherwise SynchronizeHost.
- Memory traps: traps of the host OS are the ghost `trap` field. The re-protection after a fault is not modelled.
- Vulkan calls: pipeline barriers, clear commands, image views and command-buffer recording. A recorded call is a `Call` value.
- The format translation tables from guest to Vulkan formats, and the stencil and compare-operation translations, are not modelled. A format is an input whose bytes per block are positive.
- The attachment's load-clear decision (`ClearColorAttachment`, `ClearDepthStencilAttachment`) is the parameter `loadOpClear`, because the subpass description is not part of this model.
- `FindOrCreate` in the texture manager and `TranslateRange` in the GPU memory manager are not modelled. The view they yield is the `created` parameter, and the `lookup` out-parameter records the range asked for.
- Shader end scan: the byte-to-instruction reinterpretation and chunked reads of guest memory are not modelled. The scan works on a sequence of 64-bit instructions.
- The per-index register wrappers (the colour target at an index, the vertex buffer at an index) are not modelled. They select an object and call the method modelled here.
- Vertex stride, input rate and divisor registers, and pipeline state beyond stencil, are not modelled.
- Texture methods other than construction (synchronisation, copying, views) are not modelled. `Texture` carries only its dirty state.
- Textures.DivideCeil: the rounding-up division is taken as exact. The source's helper is not part of this model.
- Executor: the subpass index before the first render-pass node is taken as 0, where the source leaves it uninitialised.
- Executor.CommandExecutor.constructor: requires a subpass limit of at least 1. The limit comes from the device traits, which report 64.
- Graphics.RenderTarget.constructor: the width in bytes is a parameter, where the source leaves it uninitialised until the first width write.
- Graphics.TicTextureLayout: the bit widths of the TIC fields are not visible here, so `depthMinusOne` is any 32-bit value. The 16-bit casts of the depth and of a cube array's layer count are kept as written.
- Floating point: clear colours and depth values are opaque.
- Executor.SynchronizeBuffers: requires that no buffer's mirror or backing is another buffer's array. Each buffer allocates its own storage, so aliasing between buffers is not modelled.
- Executor.CommandExecutor.Execute: carries the same requirement for the buffers behind the batch's delegates, as does Executor.UploadBatch.

## Findings

| source | as written | input that shows it | evidently intended | confidence | as-written member | corrected member |
|---|---|---|---|---|---|---|
| app/src/main/cpp/skyline/gpu/interconnect/graphics_context.h:2455-2463 | `if (twoSideStencilEnabled == enabled)` guards the update, so the flag never changes | a fresh context, then `SetStencilTwoSideEnabled(true)` and a back-face write | update when the flag differs (`!=`), so back-face writes reach the back face | high, not executed | Graphics.StencilState.SetStencilTwoSideEnabledAsWritten | Graphics.StencilState.SetStencilTwoSideEnabled |
| app/src/main/cpp/skyline/gpu/interconnect/graphics_context.h:2368-2382 | `viewSize` is compared but never assigned, so a cached index view is reused only for a size of 0 | two equal `GetIndexBuffer(n)` calls with `n > 0` and no register change in between | record the view's size when it is created so the second call reuses it | high, not executed | Graphics.IndexBuffer.GetIndexBufferAsWritten | Graphics.IndexBuffer.GetIndexBuffer |
| app/src/main/cpp/skyline/gpu/interconnect/command_executor.cpp:14-29 | a pass is closed only when `subpassCount > maxSubpassCount`, so it holds `maxSubpassCount + 2` subpasses | `maxSubpassCount + 2` subpasses on the same render area | close when one more subpass would exceed `maxSubpassCount` | medium, not executed | Executor.AsWrittenPassExceedsLimit | Executor.CommandExecutor.CreateRenderPass |
