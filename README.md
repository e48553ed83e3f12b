# WebGL2 graphics backend: a Dafny model

This project models the WebGL2 backend of the noclip.website graphics layer
(`src/gfx/platform/GfxPlatformWebGL2.ts`). That backend has two parts, and the
model keeps both:

- **Translators.** Pure lookups from the layer's enumerations and packed
  `GfxFormat` codes to WebGL2 enums: vertex, index and texture formats, buffer
  hints and targets, wrap and filter modes, primitive topology. Also
  `calcMipLevels`, the halving loop that sizes a mip chain.
- **`GfxImplP_GL`.** One object that is at once the swap chain, the device, the
  pass renderer and the host uploader. Its methods create and destroy resources,
  bind state for a pass, draw, resolve and upload, and they update the object's
  fields as they go.

The rendering context is abstract (`WebGL2.Context`):

- Every native object is a fresh natural-number name.
- Every call the backend makes on the context is appended to a log of
  `WebGL2.Command` values.
- The context keeps `Valid()`: every name created so far is below the next fresh
  one.

`GfxDevice.Device` is a class with the source's fields:

- swap-chain size and texture;
- current render target, pipeline and input state;
- the lazily created resolve framebuffers;
- what the render-flags tracker was last handed.

Each method `ensures` the whole new state. It also says which calls it appends
to the log, as a function in `GfxCommands`, and whether it returns or fails.

Failures are values:

- an `assert` the backend makes becomes `AssertionFailed(check)`;
- a `throw` becomes `Whoops` or `UnknownTextureFilterMode`;
- reading a property through an unset field or a missing array entry becomes
  `TypeError(missing)`.

Calls issued before a failure stay in the log, as they would on a real context.
The lemmas in `GfxCommands`, `GfxFormat` and `MipChain` then state what those
command sequences and results are.

About the format codes:

- The numeric values of `FormatTypeFlags`, `FormatCompFlags` and
  `FormatFlags.NORMALIZED` are defined in `GfxPlatformImpl.ts`, which is not
  part of this model.
- They are therefore a parameter (`GfxFormat.FormatCodes`), constrained only to
  give distinct members distinct bytes (`ValidCodes`).
- A named format such as `U8_RGBA` is taken to be the code that packs its type
  byte, component byte and its own flags byte.
- `getFormatCompByteSize` (also in `GfxPlatformImpl.ts`) is modelled by the byte
  width its type name states.

The clear colour is passed to `clearColor` in the order (r, b, g, a), exactly as
the source writes it (line 489). The model keeps that order: see
`GfxCommands.ClearColorIssued`.

Files:

| file | what it holds |
|------|---------------|
| `common.dfy` | `Option`, `Result`, `Outcome` and the failure kinds |
| `webgl2.dfy` | the abstract rendering context and its command log |
| `format.dfy` | packed formats and their translators |
| `translate.dfy` | the other enum translators |
| `mipchain.dfy` | mip-level count and per-level extents |
| `resources.dfy` | handle records and descriptors |
| `commands.dfy` | the call sequences as functions, with lemmas about them |
| `device.dfy` | the `GfxImplP_GL` class |

## Model

All source paths are in `src/gfx/platform/GfxPlatformWebGL2.ts`.

| member | source | states |
|---|---|---|
| GfxFormat.TypeCodeInjective | src/gfx/platform/GfxPlatformWebGL2.ts:78-95 | distinct `FormatTypeFlags` members have distinct byte values, so each `case` of the type switch matches one member |
| GfxFormat.CompCodeInjective | src/gfx/platform/GfxPlatformWebGL2.ts:97-107 | distinct `FormatCompFlags` members have distinct byte values |
| GfxFormat.MakeFormatBytes | src/gfx/platform/GfxPlatformWebGL2.ts:110-112 | extracting bits 16-23, 8-15 and 0-7 of a packed code gives back the type, component and flags bytes it was packed from |
| GfxFormat.FormatCodeBytes | src/gfx/platform/GfxPlatformWebGL2.ts:110-111 | a named format's code carries the type and component bytes of its name |
| GfxFormat.FormatCodeInjective | src/gfx/platform/GfxPlatformWebGL2.ts:150-163 | two named formats have the same code exactly when they are the same format, so each `case` of a format switch matches one format |
| GfxFormat.DecodeTypeFlags | src/gfx/platform/GfxPlatformWebGL2.ts:78-95 | a found type is one whose byte value equals the type byte |
| GfxFormat.DecodeTypeFlagsComplete | src/gfx/platform/GfxPlatformWebGL2.ts:78-95 | the type switch matches no case exactly when the byte is no member's value; when it is some member's value, it finds that member |
| GfxFormat.DecodeCompFlags | src/gfx/platform/GfxPlatformWebGL2.ts:97-107 | a found component layout is one whose byte value equals the component byte |
| GfxFormat.DecodeCompFlagsComplete | src/gfx/platform/GfxPlatformWebGL2.ts:97-107 | the component switch matches no case exactly when the byte is no member's value; otherwise it finds that member |
| GfxFormat.TypeFlagOf | src/gfx/platform/GfxPlatformWebGL2.ts:78-95 | `translateType` hits every GL type: each GL type is the translation of some type flag |
| GfxFormat.TranslateType | src/gfx/platform/GfxPlatformWebGL2.ts:78-95 | unsigned type flags give exactly the unsigned GL types and F32 exactly FLOAT (its inverse is TypeFlagOf) |
| GfxFormat.TranslateVertexFormat | src/gfx/platform/GfxPlatformWebGL2.ts:110-117 | a defined size is between 1 and 4 (the decoding itself is stated by VertexFormatDefined and VertexFormatOfFields) |
| GfxFormat.ComponentCount | src/gfx/platform/GfxPlatformWebGL2.ts:97-107 | every component count `translateSize` returns is between 1 and 4 |
| GfxFormat.VertexFormatDefined | src/gfx/platform/GfxPlatformWebGL2.ts:110-117 | `size` is defined, and then between 1 and 4, exactly when the component byte is a known layout; `type` is defined exactly when the type byte is a known type |
| GfxFormat.VertexFormatOfFields | src/gfx/platform/GfxPlatformWebGL2.ts:110-117 | a code packed from type t, layout c and flags f translates to (count of c, GL type of t, NORMALIZED bit of f) |
| GfxFormat.VertexSizeFromCompByte | src/gfx/platform/GfxPlatformWebGL2.ts:111-115 | `size` depends only on bits 8-15 |
| GfxFormat.VertexTypeFromTypeByte | src/gfx/platform/GfxPlatformWebGL2.ts:110-114 | `type` depends only on bits 16-23 |
| GfxFormat.VertexNormalizedFromFlagsByte | src/gfx/platform/GfxPlatformWebGL2.ts:112-116 | `normalized` depends only on bits 0-7 |
| GfxFormat.TranslateIndexFormat | src/gfx/platform/GfxPlatformWebGL2.ts:120-127 | succeeds exactly for U16_R, with UNSIGNED_SHORT; any other format, `null` included, throws |
| GfxFormat.FormatCompByteSize | src/gfx/platform/GfxPlatformWebGL2.ts:456 | a component byte size is 1, 2 or 4 |
| GfxFormat.IndexFormatCompByteSize | src/gfx/platform/GfxPlatformWebGL2.ts:455-456 | the one accepted index format has two-byte components |
| GfxFormat.TranslateTextureInternalFormat | src/gfx/platform/GfxPlatformWebGL2.ts:149-166 | a failed lookup throws `"whoops"` |
| GfxFormat.TextureInternalFormatDefined | src/gfx/platform/GfxPlatformWebGL2.ts:149-166 | the lookup succeeds exactly for the six named formats of the table |
| GfxFormat.TextureInternalFormatOfNamed | src/gfx/platform/GfxPlatformWebGL2.ts:149-166 | each named format gets its own row's storage format (R32F, RG32F, RGB32F, RGBA32F, R16UI, RGBA8) |
| GfxFormat.TextureFormatDefined | src/gfx/platform/GfxPlatformWebGL2.ts:168-180 | a transfer format is found exactly when the component byte is a known layout (no default case: otherwise `undefined`) |
| GfxFormat.TranslateTextureType | src/gfx/platform/GfxPlatformWebGL2.ts:182-190 | succeeds, with UNSIGNED_BYTE, exactly when the type byte is U8; otherwise throws |
| GfxFormat.TranslateTextureFormat | src/gfx/platform/GfxPlatformWebGL2.ts:168-180 | no contract of its own; TextureFormatDefined states when it is defined |
| GfxFormat.TranslateTextureFormats | src/gfx/platform/GfxPlatformWebGL2.ts:353-355 | when the three lookups of `createTexture` pass, the type byte is U8 and the transfer type UNSIGNED_BYTE; otherwise the first throw is `"whoops"` |
| GfxFormat.TextureFormatsIffU8RGBA | src/gfx/platform/GfxPlatformWebGL2.ts:149-190 | the three lookups pass exactly for U8_RGBA, giving RGBA8 / RGBA / UNSIGNED_BYTE |
| GfxFormat.TextureFormatsOnlyU8 | src/gfx/platform/GfxPlatformWebGL2.ts:149-190 | a format that passes both the table and the U8 type check is U8_RGBA |
| GfxFormat.TextureFormatsOfU8RGBA | src/gfx/platform/GfxPlatformWebGL2.ts:161-186 | U8_RGBA translates to RGBA8, RGBA and UNSIGNED_BYTE |
| GfxTranslate.TranslateBufferHint | src/gfx/platform/GfxPlatformWebGL2.ts:129-136 | STATIC_DRAW exactly for the static hint |
| GfxTranslate.TranslateBufferUsageToTarget | src/gfx/platform/GfxPlatformWebGL2.ts:138-147 | each usage class has its own target, which serves that class |
| GfxTranslate.TranslateWrapMode | src/gfx/platform/GfxPlatformWebGL2.ts:192-201 | each wrap mode has its own GL wrap, from which it is recovered |
| GfxTranslate.TranslateFilterMode | src/gfx/platform/GfxPlatformWebGL2.ts:203-217 | succeeds exactly for the six listed (filter, mip filter) pairs, and the GL filter recovers the pair, so the six results are distinct; anything else throws "Unknown texture filter mode"; with NO_MIP the result is NEAREST or LINEAR |
| GfxTranslate.EveryFilterIsTranslated | src/gfx/platform/GfxPlatformWebGL2.ts:203-215 | every one of the six GL filters is the translation of its own pair, so the translation is a bijection onto them |
| GfxTranslate.TranslatePrimitiveTopology | src/gfx/platform/GfxPlatformWebGL2.ts:219-224 | no contract: the one topology, TRIANGLES, maps to the one draw mode, TRIANGLES |
| MipChain.MipCountIsFloorLog2PlusOne | src/gfx/platform/GfxPlatformWebGL2.ts:269-277 | under integer halving, the number of halvings of m >= 1 is the k with 2^(k-1) <= m < 2^k |
| MipChain.MipCountUnique | src/gfx/platform/GfxPlatformWebGL2.ts:269-277 | that k is unique, so the count is exactly floor(log2 m) + 1 |
| MipChain.CalcMipLevels | src/gfx/platform/GfxPlatformWebGL2.ts:269-277 | the loop returns the halving count of min(w, h): 0 for an empty extent, otherwise floor(log2 min(w, h)) + 1 (integer halving; see Findings) |
| MipChain.MipLevelCount | src/gfx/platform/GfxPlatformWebGL2.ts:351 | a texture that is not mipmapped gets exactly one level; a mipmapped one gets floor(log2 min(w, h)) + 1 (corrected count, integer halving; see Findings) |
| MipChain.LevelExtentClosedForm | src/gfx/platform/GfxPlatformWebGL2.ts:675-679 | the extent after i halvings, floored at 1 each time, is max(floor(n / 2^i), 1) for i >= 1 |
| MipChain.LevelExtentShrinks | src/gfx/platform/GfxPlatformWebGL2.ts:678-679 | every level after the first is at least 1 and no larger than the one before |
| MipChain.AsWrittenLoopStaysPositive | src/gfx/platform/GfxPlatformWebGL2.ts:272-273 | with exact division, `m` stays above 0 however often the loop as written halves it |
| MipChain.AsWrittenOneByOne | src/gfx/platform/GfxPlatformWebGL2.ts:270-274 | on a 1x1 texture the intended count is 1, but after that one pass the source's `m` is 0.5, so its loop goes on |
| GfxCommands.TextureCreation | src/gfx/platform/GfxPlatformWebGL2.ts:347-360 | creation succeeds exactly for U8_RGBA, with the requested width and height; it then issues create, bind, TEXTURE_MAX_LEVEL and texStorage2D with the mip-level count (corrected count, integer halving; see Findings) and RGBA8; any other format stops after the bind |
| GfxCommands.MipUploadCommandsAt | src/gfx/platform/GfxPlatformWebGL2.ts:676-680 | the upload has one write per level, in level order; write i puts `mipLevels[i]` at level i with extent max(floor(w / 2^i), 1) x max(floor(h / 2^i), 1) |
| GfxCommands.SamplerResult | src/gfx/platform/GfxPlatformWebGL2.ts:362-373 | a sampler is created exactly when both filter pairs are listed, and then has the new sampler name; otherwise "Unknown texture filter mode" is thrown |
| GfxCommands.SamplerParameters | src/gfx/platform/GfxPlatformWebGL2.ts:365-370 | the sampler's two wraps and its minification filter are those of the descriptor; its magnification filter is NEAREST or LINEAR, for the descriptor's filter |
| GfxCommands.ClearMask | src/gfx/platform/GfxPlatformWebGL2.ts:401-411 | each of the COLOR, DEPTH and STENCIL bits is set exactly when that disposition is CLEAR; no other bit is set; the mask is 0 exactly when nothing is cleared |
| GfxCommands.AllLoadClearsNothing | src/gfx/platform/GfxPlatformWebGL2.ts:401-411 | a target with all three aspects loaded has mask 0, and `_setRenderTarget` (line 495) still issues one `clear(0)` |
| GfxCommands.ClearCommandsEndInOneClear | src/gfx/platform/GfxPlatformWebGL2.ts:487-495 | the clears end in exactly one `clear`, of the target's mask |
| GfxCommands.ClearColorIssued | src/gfx/platform/GfxPlatformWebGL2.ts:487-490 | `clearColor` is issued exactly when the COLOR bit is set, with the channels in (r, b, g, a) order |
| GfxCommands.ClearDepthIssued | src/gfx/platform/GfxPlatformWebGL2.ts:491-492 | `clearDepth` is issued exactly when the DEPTH bit is set, with the target's depth value |
| GfxCommands.ClearStencilIssued | src/gfx/platform/GfxPlatformWebGL2.ts:493-494 | `clearStencil` is issued exactly when the STENCIL bit is set, with the target's stencil value |
| GfxCommands.FirstNonUniform | src/gfx/platform/GfxPlatformWebGL2.ts:577-580 | every uniform binding before the index is of the uniform class, and the one at the index (if any) is not |
| GfxCommands.UniformBindCommandsAt | src/gfx/platform/GfxPlatformWebGL2.ts:577-584 | binding i goes to slot `unchangedUniformBuffers + i` with byte offset `4 * wordOffset` and byte size `4 * wordCount` |
| GfxCommands.SamplerBindCommandsAt | src/gfx/platform/GfxPlatformWebGL2.ts:586-593 | sampler i activates texture unit `unchangedSamplers + i`, binds its sampler to that unit, then binds its texture |
| GfxCommands.BindingsOutcome | src/gfx/platform/GfxPlatformWebGL2.ts:571-594 | `setBindings` passes exactly when a pipeline is current, both counts match its binding layout and every uniform buffer is of the uniform class; with no pipeline it fails reading the layout; a uniform count mismatch is the assertion that fails |
| GfxCommands.BindingsOnPass | src/gfx/platform/GfxPlatformWebGL2.ts:577-593 | a successful `setBindings` binds all the uniform buffers and then all the samplers |
| GfxCommands.FirstUnusable | src/gfx/platform/GfxPlatformWebGL2.ts:438-443 | every attribute before the index names an existing vertex-class buffer, and the one at the index (if any) does not |
| GfxCommands.AttributeCommandsAt | src/gfx/platform/GfxPlatformWebGL2.ts:438-447 | attribute i is set up by entries 3i to 3i+2, from the vertex buffer it names |
| GfxCommands.AttributeBlockContents | src/gfx/platform/GfxPlatformWebGL2.ts:444-446 | for an attribute whose format packs type t, layout c and flags f, the block binds its vertex buffer, points the attribute at buffer offset plus attribute offset with c's component count, t's GL type and f's NORMALIZED bit, then enables it |
| GfxCommands.InputStateResultCases | src/gfx/platform/GfxPlatformWebGL2.ts:431-463 | `createInputState` succeeds exactly when every attribute's buffer is vertex-class and any index buffer is index-class with layout format U16_R; the state then records the vertex array and the layout, plus UNSIGNED_SHORT and the U16_R component size when there is an index buffer; a bad attribute buffer fails its read or its assert; after the attributes, an index buffer not of the index class fails `AssertionFailed(IndexBufferUsage)` and a layout index format other than U16_R throws `"whoops"` |
| GfxCommands.InputStateOnSuccess | src/gfx/platform/GfxPlatformWebGL2.ts:435-459 | on success the calls are: create and bind the vertex array, every attribute block, bind the index buffer (if any), unbind the vertex array |
| GfxCommands.ResolveOutcome | src/gfx/platform/GfxPlatformWebGL2.ts:646-648 | the resolve gets past its checks exactly when there is a current render target whose colour attachment has the texture's width and height |
| GfxCommands.ResolveBlitsOnce | src/gfx/platform/GfxPlatformWebGL2.ts:650-657 | a resolve blits exactly once, the whole attachment onto the whole texture, COLOR_BUFFER_BIT with LINEAR, and ends by unbinding both framebuffers |
| GfxDevice.Device.constructor | src/gfx/platform/GfxPlatformWebGL2.ts:283-287 | the device starts with size 0 x 0, no swap texture, no current target, pipeline or input state, no resolve framebuffers and nothing applied; the copy program and its flags are the given ones |
| GfxDevice.Device.ConfigureSwapChain | src/gfx/platform/GfxPlatformWebGL2.ts:293-310 | with the same size nothing changes, not even the swap texture's identity; with a new size the old texture is deleted and a w x h U8_RGBA texture with linear, clamped parameters replaces it |
| GfxDevice.Device.Present | src/gfx/platform/GfxPlatformWebGL2.ts:320-331 | applies the copy flags, selects unit 0, then draws the swap texture with the copy program as one triangle; without a swap texture it fails reading it |
| GfxDevice.Device.CreateBuffer | src/gfx/platform/GfxPlatformWebGL2.ts:335-345 | a fresh buffer on its usage class's target, with `4 * wordCount` bytes of data storage and the translated hint |
| GfxDevice.Device.BlitFullscreenTexture | src/gfx/platform/GfxPlatformWebGL2.ts:324-331 | applies the copy flags and selects unit 0; passes exactly when there is a texture, then binds it, uses the copy program and draws three vertices; otherwise fails reading it |
| GfxDevice.Device.ApplyFlags | src/gfx/platform/GfxPlatformWebGL2.ts:601-603 | one flags call with culling not forced off, and the flags recorded as last applied |
| GfxDevice.Device.CreateTexture | src/gfx/platform/GfxPlatformWebGL2.ts:347-360 | returns the texture, or the failure, described by `TextureResult` and issues `TextureCommands` (see GfxCommands.TextureCreation), with the corrected mip-level count (integer halving; see Findings) |
| GfxDevice.Device.CreateSampler | src/gfx/platform/GfxPlatformWebGL2.ts:362-373 | returns `SamplerResult` and issues `SamplerCommands` (see GfxCommands.SamplerParameters) |
| GfxDevice.Device.CreateColorAttachment | src/gfx/platform/GfxPlatformWebGL2.ts:375-382 | a fresh RGBA8 renderbuffer of the given size and sample count |
| GfxDevice.Device.CreateDepthStencilAttachment | src/gfx/platform/GfxPlatformWebGL2.ts:384-391 | a fresh DEPTH24_STENCIL8 renderbuffer of the given size and sample count |
| GfxDevice.Device.CreateRenderTarget | src/gfx/platform/GfxPlatformWebGL2.ts:393-416 | a fresh framebuffer with both attachments, whose clear mask is `ClearBitsOf` the descriptor (see GfxCommands.ClearMask) |
| GfxDevice.Device.CreateProgram | src/gfx/platform/GfxPlatformWebGL2.ts:419-424 | the program records the compiled object and its device program |
| GfxDevice.Device.CreateInputLayout | src/gfx/platform/GfxPlatformWebGL2.ts:426-429 | a new layout object holding the attributes and index format |
| GfxDevice.Device.CreateInputState | src/gfx/platform/GfxPlatformWebGL2.ts:431-463 | returns `InputStateResult` and issues `InputStateCommands` (see GfxCommands.InputStateResultCases) |
| GfxDevice.Device.SetUpAttributes | src/gfx/platform/GfxPlatformWebGL2.ts:438-447 | the loop stops at the first unusable attribute, having set up each attribute before it |
| GfxDevice.Device.CreateRenderPipeline | src/gfx/platform/GfxPlatformWebGL2.ts:465-475 | succeeds exactly when the program has one uniform-buffer layout per uniform buffer of the binding layout, and the pipeline then holds the descriptor's parts and the translated topology |
| GfxDevice.Device.SetRenderTarget | src/gfx/platform/GfxPlatformWebGL2.ts:482-496 | the target becomes current, its framebuffer is bound to DRAW_FRAMEBUFFER, and the clears of its mask follow |
| GfxDevice.Device.CreatePassRenderer | src/gfx/platform/GfxPlatformWebGL2.ts:498-501 | the pass renders into the given target, as `_setRenderTarget` leaves it |
| GfxDevice.Device.DestroyTexture | src/gfx/platform/GfxPlatformWebGL2.ts:507-509 | deletes the texture's object and nothing else |
| GfxDevice.Device.DestroyInputState | src/gfx/platform/GfxPlatformWebGL2.ts:535-538 | deletes the input state's vertex array and nothing else |
| GfxDevice.Device.DestroyBuffer | src/gfx/platform/GfxPlatformWebGL2.ts:503-505 | deletes the buffer's object and nothing else |
| GfxDevice.Device.DestroySampler | src/gfx/platform/GfxPlatformWebGL2.ts:511-513 | deletes the sampler's object and nothing else |
| GfxDevice.Device.DestroyColorAttachment | src/gfx/platform/GfxPlatformWebGL2.ts:515-517 | deletes the attachment's renderbuffer and nothing else |
| GfxDevice.Device.DestroyDepthStencilAttachment | src/gfx/platform/GfxPlatformWebGL2.ts:519-521 | deletes the attachment's renderbuffer and nothing else |
| GfxDevice.Device.DestroyRenderTarget | src/gfx/platform/GfxPlatformWebGL2.ts:523-525 | deletes the target's framebuffer and nothing else |
| GfxDevice.Device.DestroyProgram | src/gfx/platform/GfxPlatformWebGL2.ts:527-529 | changes nothing |
| GfxDevice.Device.DestroyInputLayout | src/gfx/platform/GfxPlatformWebGL2.ts:531-533 | changes nothing |
| GfxDevice.Device.DestroyRenderPipeline | src/gfx/platform/GfxPlatformWebGL2.ts:540-542 | changes nothing |
| GfxDevice.Device.DestroyHostUploader | src/gfx/platform/GfxPlatformWebGL2.ts:544-546 | changes nothing |
| GfxDevice.Device.DestroyPassRenderer | src/gfx/platform/GfxPlatformWebGL2.ts:548-550 | changes nothing |
| GfxDevice.Device.SetBindings | src/gfx/platform/GfxPlatformWebGL2.ts:571-594 | returns `BindingsOutcome` and issues `BindingsCommands`: nothing after a failed count check, uniform bindings up to the first bad buffer, samplers only when every buffer passed |
| GfxDevice.Device.SetViewport | src/gfx/platform/GfxPlatformWebGL2.ts:596-599 | one viewport call at origin 0, 0 |
| GfxDevice.Device.SetPipeline | src/gfx/platform/GfxPlatformWebGL2.ts:605-610 | the pipeline becomes current, its flags are applied and its program used |
| GfxDevice.Device.SetInputState | src/gfx/platform/GfxPlatformWebGL2.ts:612-618 | accepted exactly when a pipeline is current and the state's layout is that pipeline's layout object; it then becomes current and its vertex array is bound; otherwise nothing changes |
| GfxDevice.Device.Draw | src/gfx/platform/GfxPlatformWebGL2.ts:620-624 | with a current pipeline, one drawArrays in its draw mode |
| GfxDevice.Device.DrawIndexed | src/gfx/platform/GfxPlatformWebGL2.ts:626-631 | with a current pipeline and input state, one drawElements of the state's index type at byte offset `firstIndex * indexBufferCompByteSize` |
| GfxDevice.Device.EndPass | src/gfx/platform/GfxPlatformWebGL2.ts:636-659 | with no texture, nothing; otherwise the two framebuffers are created on the first resolve only and reused afterwards; the result is `ResolveOutcome`, and on success the resolve calls follow |
| GfxDevice.Device.UploadBufferData | src/gfx/platform/GfxPlatformWebGL2.ts:663-669 | binds the buffer and writes the data at byte offset `4 * dstWordOffset` |
| GfxDevice.Device.UploadTextureData | src/gfx/platform/GfxPlatformWebGL2.ts:671-681 | binds the texture and issues `MipUploadCommands` for every level (see GfxCommands.MipUploadCommandsAt) |

## Left out

- `translatePipelineStates` (lines 226-237) is dead code: its one call in `createRenderPipeline` is commented out, and the pipeline takes `descriptor.renderFlags` as given.
- `RenderFlags` and the tracker's `applyFlags` (lines 569, 601-603) are defined in `render.ts`, which is not part of this model. The flags are an opaque value. Applying them is a single logged call, and `lastAppliedFlags` records what was applied. No diffing is claimed.
- Shader compilation (`ProgramCache`, `DeviceProgram.compile`, line 421) is outside the model. `CreateProgram` takes the compiled object as a parameter, and the constructor takes the fullscreen-copy program and its flags (depth test off) as given.
- `queryLimits` and `queryProgram` read the context (`getParameter`) and the program cache, and `getBufferData` is a debug read-back. None of them is modelled.
- `getDevice`, `getOnscreenTexture` and `createHostUploader` only return `this` or a field, so they are not modelled.
- What the calls do on the GPU (storage, blits, draws) is outside the model. A call is only an entry in the log.
- Floating-point values (sampler LODs, clear colour and depth) are carried as `real` without arithmetic.
- Concrete GLenum numbers appear only for the clear bits. The enum values of `FormatTypeFlags`, `FormatCompFlags` and `FormatFlags` are a parameter, as described above. Format codes are 32-bit, and the top byte of a code is not interpreted.
- `UploadTextureData` and `LevelExtent` model the int32 truncation `(w / 2) | 0` as floor division on naturals. The two agree for extents below 2^31.
- Sizes, counts, offsets and word counts are JavaScript numbers in the source but naturals (`nat`) here, so negative or fractional widths, heights, strides and byte offsets are not expressible (for instance `calcMipLevels(-1, h)`, which returns 0 in the source, has no counterpart).
- `CreateTexture` takes the sample count but, like the source, never uses it.
- `ConfigureSwapChain` stores the new size after creating the texture, whereas the source stores it first (lines 297-298). The only read in between is line 303, which passes `_scWidth` and `_scHeight` to `createTexture`; the model passes the same new width and height there directly.
- `src/DebugJunk.ts` (canvas overlays) is not part of the core and is not modelled.

## Findings

| source | as written | input that shows it | evidently intended | confidence | as-written member | corrected member |
|---|---|---|---|---|---|---|
| src/gfx/platform/GfxPlatformWebGL2.ts:272-273 | `m /= 2` is floating-point division, so `m > 0` stays true until `m` underflows to 0 | `calcMipLevels(1, 1)`: after one pass `m` is 0.5 and the loop goes on, returning far more than one level (JavaScript numbers underflow only after about 1075 halvings) | integer halving, the count floor(log2 min(w, h)) + 1 (1 for a 1x1 texture) | not executed | MipChain.AsWrittenOneByOne, MipChain.AsWrittenLoopStaysPositive | MipChain.CalcMipLevels |
