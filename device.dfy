/**
 * `GfxImplP_GL`: the WebGL2 swap chain, device, pass renderer and host
 * uploader, all one object over one rendering context.
 *
 * Every method appends to the context's log exactly the calls the backend
 * makes, in its order, and leaves the fields it does not name alone. An
 * `assert` of the backend, a `throw`, and a property read through an unset
 * field become a `Fail`/`Err` result; the calls issued before the throw stay
 * in the log, as they would on the real context.
 */
module GfxDevice {

  import opened GfxErrors
  import GL = WebGL2
  import opened GfxFormat
  import opened GfxTranslate
  import opened GfxResources
  import opened GfxCommands
  import MipChain

  class Device {
    const gl: GL.Context
    const codes: FormatCodes
    const fullscreenCopyProgram: Program
    const fullscreenCopyFlags: GL.RenderFlags

    var scWidth: nat
    var scHeight: nat
    var scTexture: Option<Texture>

    var currentRenderTarget: Option<RenderTarget>
    var currentPipeline: Option<RenderPipeline>
    var currentInputState: Option<InputState>
    /** What the render-flags tracker last handed to the context. */
    var lastAppliedFlags: Option<GL.RenderFlags>

    var passReadFramebuffer: Option<nat>
    var passDrawFramebuffer: Option<nat>

    /** The swap-chain texture, when there is one, has the swap-chain size; the two
      * resolve framebuffers are created together. */
    ghost predicate Valid()
      reads this, gl
    {
      gl.Valid() && ValidCodes(codes)
      && (scTexture.None? ==> scWidth == 0 && scHeight == 0)
      && (scTexture.Some? ==> scTexture.value.width == scWidth && scTexture.value.height == scHeight)
      && (passReadFramebuffer.Some? <==> passDrawFramebuffer.Some?)
    }

    /** The fullscreen-copy program is compiled by the caller (shader compilation is not
      * part of this model) and its flags, with depth testing off, are given. */
    constructor (gl: GL.Context, codes: FormatCodes, fullscreenCopyProgram: Program, fullscreenCopyFlags: GL.RenderFlags)
      requires gl.Valid() && ValidCodes(codes)
      ensures Valid()
      ensures this.gl == gl && this.codes == codes
      ensures this.fullscreenCopyProgram == fullscreenCopyProgram && this.fullscreenCopyFlags == fullscreenCopyFlags
      ensures scWidth == 0 && scHeight == 0 && scTexture == None
      ensures currentRenderTarget == None && currentPipeline == None && currentInputState == None
      ensures lastAppliedFlags == None
      ensures passReadFramebuffer == None && passDrawFramebuffer == None
    {
      this.gl := gl;
      this.codes := codes;
      this.fullscreenCopyProgram := fullscreenCopyProgram;
      this.fullscreenCopyFlags := fullscreenCopyFlags;
      scWidth, scHeight, scTexture := 0, 0, None;
      currentRenderTarget, currentPipeline, currentInputState := None, None, None;
      lastAppliedFlags := None;
      passReadFramebuffer, passDrawFramebuffer := None, None;
    }

    // ------------------------------------------------------------ swap chain

    /** Same size: nothing happens, and the swap texture stays the same one. A new size:
      * the old texture is deleted and a fresh w x h U8_RGBA texture takes its place. */
    method ConfigureSwapChain(width: nat, height: nat)
      requires Valid()
      modifies this`scWidth, this`scHeight, this`scTexture, gl
      ensures Valid()
      ensures scWidth == width && scHeight == height
      ensures old(scWidth) == width && old(scHeight) == height ==>
        scTexture == old(scTexture) && gl.log == old(gl.log) && gl.nextName == old(gl.nextName)
      ensures !(old(scWidth) == width && old(scHeight) == height) ==>
        var name := old(gl.nextName);
        scTexture == Some(Texture(name, GL.Texture2D, Some(GL.RGBA), GL.UnsignedByte, width, height))
        && gl.nextName == name + 1
        && gl.log == old(gl.log)
                     + (if old(scTexture).Some? then [GL.Delete(GL.TextureObject, old(scTexture).value.glTexture)] else [])
                     + TextureCommands(codes, name, FormatCode(codes, U8_RGBA), width, height, false)
                     + SwapTextureCommands(name)
    {
      if scWidth != width || scHeight != height {
        // The source stores the new size first; the only read in between is the
        // `createTexture` call, which the model passes width and height directly.
        if scTexture.Some? {
          DestroyTexture(scTexture.value);
        }
        var tex := CreateSwapTexture(width, height);
        scTexture := Some(tex);
        scWidth, scHeight := width, height;
      }
    }

    /** A new swap texture: U8_RGBA without mipmaps, linear and clamped. */
    method CreateSwapTexture(width: nat, height: nat) returns (tex: Texture)
      requires Valid()
      modifies gl
      ensures Valid()
      ensures tex == Texture(old(gl.nextName), GL.Texture2D, Some(GL.RGBA), GL.UnsignedByte, width, height)
      ensures gl.nextName == old(gl.nextName) + 1
      ensures gl.log == old(gl.log) + TextureCommands(codes, tex.glTexture, FormatCode(codes, U8_RGBA), width, height, false)
                                    + SwapTextureCommands(tex.glTexture)
    {
      TextureCreation(codes, gl.nextName, FormatCode(codes, U8_RGBA), width, height, false);
      var created := CreateTexture(FormatCode(codes, U8_RGBA), width, height, false, 1);
      tex := created.value;
      SetSwapTextureParameters(tex.glTexture);
    }

    /** The texture parameters `configureSwapChain` sets on a new swap texture. */
    method SetSwapTextureParameters(name: nat)
      requires gl.Valid()
      modifies gl
      ensures gl.Valid() && gl.nextName == old(gl.nextName)
      ensures gl.log == old(gl.log) + SwapTextureCommands(name)
    {
      gl.Emit(GL.BindTexture(GL.Texture2D, name));
      gl.Emit(GL.TexParameteri(GL.Texture2D, GL.TextureMagFilter, GL.FilterValue(GL.Linear)));
      gl.Emit(GL.TexParameteri(GL.Texture2D, GL.TextureMinFilter, GL.FilterValue(GL.Linear)));
      gl.Emit(GL.TexParameteri(GL.Texture2D, GL.TextureWrapS, GL.WrapValue(GL.ClampToEdge)));
      gl.Emit(GL.TexParameteri(GL.Texture2D, GL.TextureWrapT, GL.WrapValue(GL.ClampToEdge)));
    }

    /** `present`: draws the swap texture with the fullscreen-copy program; with no swap
      * texture yet, it throws after the flags and texture unit have been set. */
    method Present() returns (r: Outcome)
      requires Valid()
      modifies this`lastAppliedFlags, gl
      ensures Valid()
      ensures r.Pass? <==> old(scTexture).Some?
      ensures r.Fail? ==> r.failure == TypeError(NoSwapChainTexture)
      ensures lastAppliedFlags == Some(fullscreenCopyFlags)
      ensures gl.nextName == old(gl.nextName)
      ensures gl.log == old(gl.log) + [GL.ApplyRenderFlags(fullscreenCopyFlags, false), GL.ActiveTexture(0)]
        + (if r.Pass? then FullscreenCopyDraw(scTexture.value) else [])
    {
      r := BlitFullscreenTexture(scTexture);
    }

    /** The draw of a fullscreen copy: bind the texture, use the copy program, one triangle. */
    function FullscreenCopyDraw(tex: Texture): seq<GL.Command>
    {
      [GL.BindTexture(tex.glTarget, tex.glTexture), GL.UseProgram(fullscreenCopyProgram.glProgram),
       GL.DrawArrays(GL.Triangles, 0, 3)]
    }

    method BlitFullscreenTexture(texture: Option<Texture>) returns (r: Outcome)
      requires Valid()
      modifies this`lastAppliedFlags, gl
      ensures Valid()
      ensures r.Pass? <==> texture.Some?
      ensures r.Fail? ==> r.failure == TypeError(NoSwapChainTexture)
      ensures lastAppliedFlags == Some(fullscreenCopyFlags)
      ensures gl.nextName == old(gl.nextName)
      ensures gl.log == old(gl.log) + [GL.ApplyRenderFlags(fullscreenCopyFlags, false), GL.ActiveTexture(0)]
        + (if texture.Some? then FullscreenCopyDraw(texture.value) else [])
    {
      ApplyFlags(fullscreenCopyFlags);
      gl.Emit(GL.ActiveTexture(0));
      if texture.None? {
        return Fail(TypeError(NoSwapChainTexture));
      }
      var tex := texture.value;
      gl.Emit(GL.BindTexture(tex.glTarget, tex.glTexture));
      gl.Emit(GL.UseProgram(fullscreenCopyProgram.glProgram));
      gl.Emit(GL.DrawArrays(GL.Triangles, 0, 3));
      r := Pass;
    }

    /** `_applyFlags`: hands the flags to the tracker, culling never forced off. */
    method ApplyFlags(flags: GL.RenderFlags)
      requires Valid()
      modifies this`lastAppliedFlags, gl
      ensures Valid()
      ensures lastAppliedFlags == Some(flags)
      ensures gl.log == old(gl.log) + [GL.ApplyRenderFlags(flags, false)] && gl.nextName == old(gl.nextName)
    {
      gl.Emit(GL.ApplyRenderFlags(flags, false));
      lastAppliedFlags := Some(flags);
    }

    // ------------------------------------------------------------ creation

    /** A buffer of `4 * wordCount` bytes on the target of its usage class. */
    method CreateBuffer(wordCount: nat, usage: BufferUsage, hint: BufferFrequencyHint) returns (b: Buffer)
      requires Valid()
      modifies gl
      ensures Valid()
      ensures b == Buffer(old(gl.nextName), TranslateBufferUsageToTarget(usage), usage)
      ensures UsageOfTarget(b.glTarget) == usage
      ensures gl.nextName == old(gl.nextName) + 1
      ensures gl.log == old(gl.log) + [GL.Create(GL.BufferObject, b.glBuffer), GL.BindBuffer(b.glTarget, b.glBuffer),
                                       GL.BufferData(b.glTarget, 4 * wordCount, TranslateBufferHint(hint))]
    {
      var byteSize := wordCount * 4;
      var name := gl.CreateObject(GL.BufferObject);
      var target := TranslateBufferUsageToTarget(usage);
      var glHint := TranslateBufferHint(hint);
      gl.Emit(GL.BindBuffer(target, name));
      gl.Emit(GL.BufferData(target, byteSize, glHint));
      b := Buffer(name, target, usage);
    }

    /** `createTexture`; the sample count is not used. */
    method CreateTexture(format: Format, width: nat, height: nat, mipmapped: bool, numSamples: nat) returns (r: Result<Texture>)
      requires Valid()
      modifies gl
      ensures Valid()
      ensures r == TextureResult(codes, old(gl.nextName), format, width, height)
      ensures gl.nextName == old(gl.nextName) + 1
      ensures gl.log == old(gl.log) + TextureCommands(codes, old(gl.nextName), format, width, height, mipmapped)
    {
      var name := gl.CreateObject(GL.TextureObject);
      var numLevels := 1;
      if mipmapped {
        numLevels := MipChain.CalcMipLevels(width, height);
      }
      gl.Emit(GL.BindTexture(GL.Texture2D, name));
      r := StoreTexture(name, format, width, height, numLevels);
    }

    /** The part of `createTexture` after `bindTexture`: the format lookups, then the storage. */
    method StoreTexture(name: nat, format: Format, width: nat, height: nat, numLevels: nat) returns (r: Result<Texture>)
      requires gl.Valid()
      modifies gl
      ensures gl.Valid() && gl.nextName == old(gl.nextName)
      ensures r == TextureResult(codes, name, format, width, height)
      ensures gl.log == old(gl.log) + TextureStorageCommands(codes, format, width, height, numLevels)
    {
      var formats := TranslateTextureFormats(codes, format);
      if formats.Err? {
        return Err(formats.failure);
      }
      gl.Emit(GL.TexParameteri(GL.Texture2D, GL.TextureMaxLevel, GL.IntValue(numLevels)));
      gl.Emit(GL.TexStorage2D(GL.Texture2D, numLevels, formats.value.internalFormat, width, height));
      r := Ok(Texture(name, GL.Texture2D, formats.value.transfer, formats.value.glType, width, height));
    }

    method CreateSampler(desc: SamplerDescriptor) returns (r: Result<Sampler>)
      requires Valid()
      modifies gl
      ensures Valid()
      ensures r == SamplerResult(old(gl.nextName), desc)
      ensures gl.nextName == old(gl.nextName) + 1
      ensures gl.log == old(gl.log) + SamplerCommands(old(gl.nextName), desc)
    {
      var name := gl.CreateObject(GL.SamplerObject);
      gl.Emit(GL.SamplerParameteri(name, GL.TextureWrapS, GL.WrapValue(TranslateWrapMode(desc.wrapS))));
      gl.Emit(GL.SamplerParameteri(name, GL.TextureWrapT, GL.WrapValue(TranslateWrapMode(desc.wrapT))));
      r := SetSamplerFilters(name, desc);
    }

    /** The part of `createSampler` after the wraps: each filter is set as it is translated. */
    method SetSamplerFilters(name: nat, desc: SamplerDescriptor) returns (r: Result<Sampler>)
      requires gl.Valid()
      modifies gl
      ensures gl.Valid() && gl.nextName == old(gl.nextName)
      ensures r == SamplerResult(name, desc)
      ensures gl.log == old(gl.log) + SamplerFilterCommands(name, desc)
    {
      var minFilter := TranslateFilterMode(desc.minFilter, desc.mipFilter);
      if minFilter.Err? {
        return Err(minFilter.failure);
      }
      gl.Emit(GL.SamplerParameteri(name, GL.TextureMinFilter, GL.FilterValue(minFilter.value)));
      var magFilter := TranslateFilterMode(desc.magFilter, NoMip);
      if magFilter.Err? {
        return Err(magFilter.failure);
      }
      gl.Emit(GL.SamplerParameteri(name, GL.TextureMagFilter, GL.FilterValue(magFilter.value)));
      gl.Emit(GL.SamplerParameterf(name, GL.TextureMinLod, desc.minLOD));
      gl.Emit(GL.SamplerParameterf(name, GL.TextureMaxLod, desc.maxLOD));
      r := Ok(Sampler(name));
    }

    method CreateColorAttachment(width: nat, height: nat, numSamples: nat) returns (a: ColorAttachment)
      requires Valid()
      modifies gl
      ensures Valid()
      ensures a == ColorAttachment(old(gl.nextName), width, height)
      ensures gl.nextName == old(gl.nextName) + 1
      ensures gl.log == old(gl.log) + [GL.Create(GL.RenderbufferObject, a.glRenderbuffer), GL.BindRenderbuffer(a.glRenderbuffer),
                                       GL.RenderbufferStorageMultisample(numSamples, GL.RenderbufferRGBA8, width, height)]
    {
      var name := gl.CreateObject(GL.RenderbufferObject);
      gl.Emit(GL.BindRenderbuffer(name));
      gl.Emit(GL.RenderbufferStorageMultisample(numSamples, GL.RenderbufferRGBA8, width, height));
      a := ColorAttachment(name, width, height);
    }

    method CreateDepthStencilAttachment(width: nat, height: nat, numSamples: nat) returns (a: DepthStencilAttachment)
      requires Valid()
      modifies gl
      ensures Valid()
      ensures a == DepthStencilAttachment(old(gl.nextName), width, height)
      ensures gl.nextName == old(gl.nextName) + 1
      ensures gl.log == old(gl.log) + [GL.Create(GL.RenderbufferObject, a.glRenderbuffer), GL.BindRenderbuffer(a.glRenderbuffer),
                                       GL.RenderbufferStorageMultisample(numSamples, GL.Depth24Stencil8, width, height)]
    {
      var name := gl.CreateObject(GL.RenderbufferObject);
      gl.Emit(GL.BindRenderbuffer(name));
      gl.Emit(GL.RenderbufferStorageMultisample(numSamples, GL.Depth24Stencil8, width, height));
      a := DepthStencilAttachment(name, width, height);
    }

    /** A framebuffer with both attachments, and the clear mask precomputed from the
      * three load dispositions. */
    method CreateRenderTarget(desc: RenderTargetDescriptor) returns (rt: RenderTarget)
      requires Valid()
      modifies gl
      ensures Valid()
      ensures rt == RenderTarget(old(gl.nextName), desc.colorAttachment, desc.depthStencilAttachment, ClearBitsOf(desc),
                                 desc.colorClearColor, desc.depthClearValue, desc.stencilClearValue)
      ensures gl.nextName == old(gl.nextName) + 1
      ensures gl.log == old(gl.log) + [
        GL.Create(GL.FramebufferObject, rt.glFramebuffer),
        GL.BindFramebuffer(GL.DrawFramebuffer, Some(rt.glFramebuffer)),
        GL.FramebufferRenderbuffer(GL.DrawFramebuffer, GL.ColorAttachment0, desc.colorAttachment.glRenderbuffer),
        GL.FramebufferRenderbuffer(GL.DrawFramebuffer, GL.DepthStencilAttachment, desc.depthStencilAttachment.glRenderbuffer)]
    {
      var name := gl.CreateObject(GL.FramebufferObject);
      gl.Emit(GL.BindFramebuffer(GL.DrawFramebuffer, Some(name)));
      gl.Emit(GL.FramebufferRenderbuffer(GL.DrawFramebuffer, GL.ColorAttachment0, desc.colorAttachment.glRenderbuffer));
      gl.Emit(GL.FramebufferRenderbuffer(GL.DrawFramebuffer, GL.DepthStencilAttachment, desc.depthStencilAttachment.glRenderbuffer));
      var clearBits: bv32 := 0;
      if desc.colorLoadDisposition == DispositionClear {
        clearBits := clearBits | GL.COLOR_BUFFER_BIT;
      }
      if desc.depthLoadDisposition == DispositionClear {
        clearBits := clearBits | GL.DEPTH_BUFFER_BIT;
      }
      if desc.stencilLoadDisposition == DispositionClear {
        clearBits := clearBits | GL.STENCIL_BUFFER_BIT;
      }
      rt := RenderTarget(name, desc.colorAttachment, desc.depthStencilAttachment, clearBits,
                         desc.colorClearColor, desc.depthClearValue, desc.stencilClearValue);
    }

    /** `createProgram`: the compiled program object is supplied by the caller. */
    method CreateProgram(deviceProgram: DeviceProgram, compiled: nat) returns (p: Program)
      ensures p.glProgram == compiled && p.deviceProgram == deviceProgram
    {
      p := Program(compiled, deviceProgram);
    }

    /** `createInputLayout`: a new layout object, issuing no calls. */
    method CreateInputLayout(attributes: seq<VertexAttribute>, indexBufferFormat: Option<Format>) returns (layout: InputLayout)
      ensures fresh(layout)
      ensures layout.attributes == attributes && layout.indexBufferFormat == indexBufferFormat
    {
      layout := new InputLayout(attributes, indexBufferFormat);
    }

    /** `createInputState`: one vertex array set up attribute by attribute, stopping at the
      * first attribute without a vertex-class buffer or at a bad index buffer. */
    method CreateInputState(layout: InputLayout, vertexBuffers: seq<VertexBufferDescriptor>, indexBuffer: Option<Buffer>)
      returns (r: Result<InputState>)
      requires Valid()
      modifies gl
      ensures Valid()
      ensures r == InputStateResult(codes, layout, vertexBuffers, indexBuffer, old(gl.nextName))
      ensures gl.nextName == old(gl.nextName) + 1
      ensures gl.log == old(gl.log) + InputStateCommands(codes, layout, vertexBuffers, indexBuffer, old(gl.nextName))
    {
      var vao := gl.CreateObject(GL.VertexArrayObject);
      r := SetUpInputState(layout, vertexBuffers, indexBuffer, vao);
    }

    /** The part of `createInputState` after the vertex array is created. */
    method SetUpInputState(layout: InputLayout, vertexBuffers: seq<VertexBufferDescriptor>, indexBuffer: Option<Buffer>,
                           vao: nat) returns (r: Result<InputState>)
      requires gl.Valid()
      modifies gl
      ensures gl.Valid() && gl.nextName == old(gl.nextName)
      ensures r == InputStateResult(codes, layout, vertexBuffers, indexBuffer, vao)
      ensures gl.log == old(gl.log) + InputStateSetupCommands(codes, layout, vertexBuffers, indexBuffer, vao)
    {
      gl.Emit(GL.BindVertexArray(Some(vao)));
      var attrs := layout.attributes;
      var k := SetUpAttributes(attrs, vertexBuffers);
      ghost var prefix := [GL.BindVertexArray(Some(vao))] + AttributeCommands(codes, attrs, vertexBuffers, k);
      assert gl.log == old(gl.log) + prefix;
      if k < |attrs| {
        return Err(AttributeFailure(attrs[k], vertexBuffers));
      }
      r := FinishInputState(layout, indexBuffer, vao);
    }

    /** The index-buffer part of `createInputState`, after its attribute loop. */
    method FinishInputState(layout: InputLayout, indexBuffer: Option<Buffer>, vao: nat) returns (r: Result<InputState>)
      requires gl.Valid()
      modifies gl
      ensures gl.Valid() && gl.nextName == old(gl.nextName)
      ensures r == IndexedInputState(codes, layout, indexBuffer, vao)
      ensures gl.log == old(gl.log) + IndexBufferCommands(codes, layout, indexBuffer)
    {
      var indexBufferType: Option<GL.GLType> := None;
      var indexBufferCompByteSize: Option<nat> := None;
      if indexBuffer.Some? {
        var buffer := indexBuffer.value;
        if buffer.usage != IndexUsage {
          return Err(AssertionFailed(IndexBufferUsage));
        }
        gl.Emit(GL.BindBuffer(GL.ElementArrayBuffer, buffer.glBuffer));
        var indexType := TranslateIndexFormat(codes, layout.indexBufferFormat);
        if indexType.Err? {
          return Err(indexType.failure);
        }
        indexBufferType := Some(indexType.value);
        indexBufferCompByteSize := FormatCompByteSize(codes, layout.indexBufferFormat.value);
      }
      gl.Emit(GL.BindVertexArray(None));
      r := Ok(InputState(vao, indexBufferType, indexBufferCompByteSize, layout));
    }

    /** The attribute loop of `createInputState`, up to the first attribute whose vertex
      * buffer is missing or not of the vertex class. */
    method SetUpAttributes(attrs: seq<VertexAttribute>, vertexBuffers: seq<VertexBufferDescriptor>) returns (k: nat)
      requires gl.Valid()
      modifies gl
      ensures gl.Valid() && gl.nextName == old(gl.nextName)
      ensures k == FirstUnusable(attrs, vertexBuffers)
      ensures gl.log == old(gl.log) + AttributeCommands(codes, attrs, vertexBuffers, k)
    {
      var i := 0;
      while i < |attrs|
        invariant i <= FirstUnusable(attrs, vertexBuffers)
        invariant gl.Valid() && gl.nextName == old(gl.nextName)
        invariant gl.log == old(gl.log) + AttributeCommands(codes, attrs, vertexBuffers, i)
      {
        var attr := attrs[i];
        if attr.bufferIndex >= |vertexBuffers| || vertexBuffers[attr.bufferIndex].buffer.usage != VertexUsage {
          return i;
        }
        SetUpAttribute(attr, vertexBuffers[attr.bufferIndex]);
        i := i + 1;
      }
      k := i;
    }

    /** One pass of the attribute loop: the attribute reads from its vertex buffer. */
    method SetUpAttribute(attr: VertexAttribute, vb: VertexBufferDescriptor)
      requires gl.Valid()
      modifies gl
      ensures gl.Valid() && gl.nextName == old(gl.nextName)
      ensures gl.log == old(gl.log) + AttributeBlock(codes, attr, vb)
    {
      var vf := TranslateVertexFormat(codes, attr.format);
      gl.Emit(GL.BindBuffer(GL.ArrayBuffer, vb.buffer.glBuffer));
      gl.Emit(GL.VertexAttribPointer(attr.location, vf.size, vf.glType, vf.normalized, vb.stride, vb.offset + attr.bufferOffset));
      gl.Emit(GL.EnableVertexAttribArray(attr.location));
    }

    /** `createRenderPipeline`: the program must declare one uniform-buffer layout per
      * uniform buffer of the binding layout. */
    method CreateRenderPipeline(desc: RenderPipelineDescriptor) returns (r: Result<RenderPipeline>)
      ensures r.Ok? <==> desc.program.deviceProgram.uniformBufferLayoutCount == desc.bindingLayout.numUniformBuffers
      ensures r.Err? ==> r.failure == AssertionFailed(UniformBufferLayoutCount)
      ensures r.Ok? ==> r.value == RenderPipeline(desc.bindingLayout, desc.program, TranslatePrimitiveTopology(desc.topology),
                                                  desc.renderFlags, desc.inputLayout)
    {
      var drawMode := TranslatePrimitiveTopology(desc.topology);
      if desc.program.deviceProgram.uniformBufferLayoutCount != desc.bindingLayout.numUniformBuffers {
        return Err(AssertionFailed(UniformBufferLayoutCount));
      }
      r := Ok(RenderPipeline(desc.bindingLayout, desc.program, drawMode, desc.renderFlags, desc.inputLayout));
    }

    // ------------------------------------------------------------ render target of a pass

    /** `_setRenderTarget`: binds the target's framebuffer and clears what its mask says. */
    method SetRenderTarget(rt: RenderTarget)
      requires Valid()
      modifies this`currentRenderTarget, gl
      ensures Valid()
      ensures currentRenderTarget == Some(rt)
      ensures gl.nextName == old(gl.nextName)
      ensures gl.log == old(gl.log) + [GL.BindFramebuffer(GL.DrawFramebuffer, Some(rt.glFramebuffer))] + ClearCommands(rt)
    {
      currentRenderTarget := Some(rt);
      gl.Emit(GL.BindFramebuffer(GL.DrawFramebuffer, Some(rt.glFramebuffer)));
      ClearRenderTarget(rt);
    }

    /** The clears of `_setRenderTarget`, each guarded by its bit of the mask. */
    method ClearRenderTarget(rt: RenderTarget)
      requires gl.Valid()
      modifies gl
      ensures gl.Valid() && gl.nextName == old(gl.nextName)
      ensures gl.log == old(gl.log) + ClearCommands(rt)
    {
      var clearBits := rt.clearBits;
      var c := rt.colorClearColor;
      EmitIf(clearBits & GL.COLOR_BUFFER_BIT != 0, GL.ClearColor(c.r, c.b, c.g, c.a));
      EmitIf(clearBits & GL.DEPTH_BUFFER_BIT != 0, GL.ClearDepth(rt.depthClearValue));
      EmitIf(clearBits & GL.STENCIL_BUFFER_BIT != 0, GL.ClearStencil(rt.stencilClearValue));
      gl.Emit(GL.Clear(clearBits));
    }

    /** A call made only when its guard holds. */
    method EmitIf(issued: bool, c: GL.Command)
      requires gl.Valid() && !c.Create?
      modifies gl
      ensures gl.Valid() && gl.nextName == old(gl.nextName)
      ensures gl.log == old(gl.log) + IssuedIf(issued, c)
    {
      if issued {
        gl.Emit(c);
      }
    }

    /** `createPassRenderer`: the device itself renders the pass, into `rt`. */
    method CreatePassRenderer(rt: RenderTarget)
      requires Valid()
      modifies this`currentRenderTarget, gl
      ensures Valid()
      ensures currentRenderTarget == Some(rt)
      ensures gl.nextName == old(gl.nextName)
      ensures gl.log == old(gl.log) + [GL.BindFramebuffer(GL.DrawFramebuffer, Some(rt.glFramebuffer))] + ClearCommands(rt)
    {
      SetRenderTarget(rt);
    }

    // ------------------------------------------------------------ destruction

    method DestroyBuffer(o: Buffer)
      requires Valid()
      modifies gl
      ensures Valid()
      ensures gl.log == old(gl.log) + [GL.Delete(GL.BufferObject, o.glBuffer)] && gl.nextName == old(gl.nextName)
    {
      gl.Emit(GL.Delete(GL.BufferObject, o.glBuffer));
    }

    method DestroyTexture(o: Texture)
      requires Valid()
      modifies gl
      ensures Valid()
      ensures gl.log == old(gl.log) + [GL.Delete(GL.TextureObject, o.glTexture)] && gl.nextName == old(gl.nextName)
    {
      gl.Emit(GL.Delete(GL.TextureObject, o.glTexture));
    }

    method DestroySampler(o: Sampler)
      requires Valid()
      modifies gl
      ensures Valid()
      ensures gl.log == old(gl.log) + [GL.Delete(GL.SamplerObject, o.glSampler)] && gl.nextName == old(gl.nextName)
    {
      gl.Emit(GL.Delete(GL.SamplerObject, o.glSampler));
    }

    method DestroyColorAttachment(o: ColorAttachment)
      requires Valid()
      modifies gl
      ensures Valid()
      ensures gl.log == old(gl.log) + [GL.Delete(GL.RenderbufferObject, o.glRenderbuffer)] && gl.nextName == old(gl.nextName)
    {
      gl.Emit(GL.Delete(GL.RenderbufferObject, o.glRenderbuffer));
    }

    method DestroyDepthStencilAttachment(o: DepthStencilAttachment)
      requires Valid()
      modifies gl
      ensures Valid()
      ensures gl.log == old(gl.log) + [GL.Delete(GL.RenderbufferObject, o.glRenderbuffer)] && gl.nextName == old(gl.nextName)
    {
      gl.Emit(GL.Delete(GL.RenderbufferObject, o.glRenderbuffer));
    }

    method DestroyRenderTarget(o: RenderTarget)
      requires Valid()
      modifies gl
      ensures Valid()
      ensures gl.log == old(gl.log) + [GL.Delete(GL.FramebufferObject, o.glFramebuffer)] && gl.nextName == old(gl.nextName)
    {
      gl.Emit(GL.Delete(GL.FramebufferObject, o.glFramebuffer));
    }

    method DestroyInputState(o: InputState)
      requires Valid()
      modifies gl
      ensures Valid()
      ensures gl.log == old(gl.log) + [GL.Delete(GL.VertexArrayObject, o.vao)] && gl.nextName == old(gl.nextName)
    {
      gl.Emit(GL.Delete(GL.VertexArrayObject, o.vao));
    }

    /** Programs, input layouts, pipelines, the uploader and the pass renderer own no
      * context object: destroying one changes nothing. */
    method DestroyProgram(o: Program)
      ensures unchanged(this, gl)
    {
    }

    method DestroyInputLayout(o: InputLayout)
      ensures unchanged(this, gl, o)
    {
    }

    method DestroyRenderPipeline(o: RenderPipeline)
      ensures unchanged(this, gl)
    {
    }

    method DestroyHostUploader()
      ensures unchanged(this, gl)
    {
    }

    method DestroyPassRenderer()
      ensures unchanged(this, gl)
    {
    }

    // ------------------------------------------------------------ pass renderer

    /** `setBindings`: the declared counts must match the pipeline's binding layout; then
      * each uniform buffer (which must be of the uniform class) and each sampler is bound. */
    method SetBindings(unchangedUniformBuffers: nat, uniformBuffers: seq<BufferBinding>,
                       unchangedSamplers: nat, samplers: seq<SamplerBinding>) returns (r: Outcome)
      requires Valid()
      modifies gl
      ensures Valid()
      ensures r == BindingsOutcome(currentPipeline, unchangedUniformBuffers, uniformBuffers, unchangedSamplers, samplers)
      ensures gl.nextName == old(gl.nextName)
      ensures gl.log == old(gl.log)
        + BindingsCommands(currentPipeline, unchangedUniformBuffers, uniformBuffers, unchangedSamplers, samplers)
    {
      if currentPipeline.None? {
        return Fail(TypeError(NoCurrentPipeline));
      }
      var layout := currentPipeline.value.bindingLayout;
      if unchangedUniformBuffers + |uniformBuffers| != layout.numUniformBuffers {
        return Fail(AssertionFailed(UniformBufferCount));
      }
      if unchangedSamplers + |samplers| != layout.numSamplers {
        return Fail(AssertionFailed(SamplerCount));
      }
      var k := BindUniformBuffers(unchangedUniformBuffers, uniformBuffers);
      if k < |uniformBuffers| {
        return Fail(AssertionFailed(UniformBufferUsage));
      }
      BindSamplers(unchangedSamplers, samplers);
      r := Pass;
    }

    /** The uniform-buffer loop of `setBindings`, up to the first buffer not of the uniform class. */
    method BindUniformBuffers(unchangedUniformBuffers: nat, uniformBuffers: seq<BufferBinding>) returns (k: nat)
      requires gl.Valid()
      modifies gl
      ensures gl.Valid() && gl.nextName == old(gl.nextName)
      ensures k == FirstNonUniform(uniformBuffers)
      ensures gl.log == old(gl.log) + UniformBindCommands(unchangedUniformBuffers, uniformBuffers, k)
    {
      var i := 0;
      while i < |uniformBuffers|
        invariant i <= FirstNonUniform(uniformBuffers)
        invariant gl.Valid() && gl.nextName == old(gl.nextName)
        invariant gl.log == old(gl.log) + UniformBindCommands(unchangedUniformBuffers, uniformBuffers, i)
      {
        var binding := uniformBuffers[i];
        if binding.buffer.usage != UniformUsage {
          return i;
        }
        var byteOffset := binding.wordOffset * 4;
        var byteSize := binding.wordCount * 4;
        gl.Emit(GL.BindBufferRange(GL.UniformBuffer, unchangedUniformBuffers + i, binding.buffer.glBuffer, byteOffset, byteSize));
        i := i + 1;
      }
      k := i;
    }

    /** The sampler loop of `setBindings`. */
    method BindSamplers(unchangedSamplers: nat, samplers: seq<SamplerBinding>)
      requires gl.Valid()
      modifies gl
      ensures gl.Valid() && gl.nextName == old(gl.nextName)
      ensures gl.log == old(gl.log) + SamplerBindCommands(unchangedSamplers, samplers, |samplers|)
    {
      var k := 0;
      while k < |samplers|
        invariant 0 <= k <= |samplers|
        invariant gl.Valid() && gl.nextName == old(gl.nextName)
        invariant gl.log == old(gl.log) + SamplerBindCommands(unchangedSamplers, samplers, k)
      {
        var binding := samplers[k];
        var samplerIndex := unchangedSamplers + k;
        gl.Emit(GL.ActiveTexture(samplerIndex));
        gl.Emit(GL.BindSampler(samplerIndex, binding.sampler.glSampler));
        gl.Emit(GL.BindTexture(binding.texture.glTarget, binding.texture.glTexture));
        k := k + 1;
      }
    }

    method SetViewport(w: nat, h: nat)
      requires Valid()
      modifies gl
      ensures Valid()
      ensures gl.log == old(gl.log) + [GL.Viewport(0, 0, w, h)] && gl.nextName == old(gl.nextName)
    {
      gl.Emit(GL.Viewport(0, 0, w, h));
    }

    /** `setPipeline`: the pipeline becomes current, its flags are applied, its program used. */
    method SetPipeline(pipeline: RenderPipeline)
      requires Valid()
      modifies this`currentPipeline, this`lastAppliedFlags, gl
      ensures Valid()
      ensures currentPipeline == Some(pipeline) && lastAppliedFlags == Some(pipeline.renderFlags)
      ensures gl.nextName == old(gl.nextName)
      ensures gl.log == old(gl.log) + [GL.ApplyRenderFlags(pipeline.renderFlags, false), GL.UseProgram(pipeline.program.glProgram)]
    {
      currentPipeline := Some(pipeline);
      ApplyFlags(pipeline.renderFlags);
      gl.Emit(GL.UseProgram(pipeline.program.glProgram));
    }

    /** `setInputState`: only an input state built on the current pipeline's own layout
      * object is accepted. */
    method SetInputState(inputState: InputState) returns (r: Outcome)
      requires Valid()
      modifies this`currentInputState, gl
      ensures Valid()
      ensures r.Pass? <==> currentPipeline.Some? && inputState.inputLayout == currentPipeline.value.inputLayout
      ensures currentPipeline.None? ==> r == Fail(TypeError(NoCurrentPipeline))
      ensures currentPipeline.Some? && inputState.inputLayout != currentPipeline.value.inputLayout ==>
        r == Fail(AssertionFailed(InputLayoutIdentity))
      ensures r.Pass? ==> currentInputState == Some(inputState) && gl.log == old(gl.log) + [GL.BindVertexArray(Some(inputState.vao))]
      ensures r.Fail? ==> currentInputState == old(currentInputState) && gl.log == old(gl.log)
      ensures gl.nextName == old(gl.nextName)
    {
      if currentPipeline.None? {
        return Fail(TypeError(NoCurrentPipeline));
      }
      if inputState.inputLayout != currentPipeline.value.inputLayout {
        return Fail(AssertionFailed(InputLayoutIdentity));
      }
      currentInputState := Some(inputState);
      gl.Emit(GL.BindVertexArray(Some(inputState.vao)));
      r := Pass;
    }

    method Draw(count: nat, firstVertex: nat) returns (r: Outcome)
      requires Valid()
      modifies gl
      ensures Valid()
      ensures r.Pass? <==> currentPipeline.Some?
      ensures r.Fail? ==> r.failure == TypeError(NoCurrentPipeline) && gl.log == old(gl.log)
      ensures r.Pass? ==> gl.log == old(gl.log) + [GL.DrawArrays(currentPipeline.value.drawMode, firstVertex, count)]
      ensures gl.nextName == old(gl.nextName)
    {
      if currentPipeline.None? {
        return Fail(TypeError(NoCurrentPipeline));
      }
      gl.Emit(GL.DrawArrays(currentPipeline.value.drawMode, firstVertex, count));
      r := Pass;
    }

    /** `drawIndexed`: the byte offset is `firstIndex` times the cached component size; an
      * input state without an index buffer passes a null type and offset 0 (JavaScript's
      * `n * null`). */
    method DrawIndexed(count: nat, firstIndex: nat) returns (r: Outcome)
      requires Valid()
      modifies gl
      ensures Valid()
      ensures r.Pass? <==> currentPipeline.Some? && currentInputState.Some?
      ensures currentPipeline.None? ==> r == Fail(TypeError(NoCurrentPipeline))
      ensures currentPipeline.Some? && currentInputState.None? ==> r == Fail(TypeError(NoCurrentInputState))
      ensures r.Fail? ==> gl.log == old(gl.log)
      ensures r.Pass? ==>
        var s := currentInputState.value;
        gl.log == old(gl.log) + [GL.DrawElements(currentPipeline.value.drawMode, count, s.indexBufferType,
                                                 firstIndex * s.indexBufferCompByteSize.GetOr(0))]
      ensures gl.nextName == old(gl.nextName)
    {
      if currentPipeline.None? {
        return Fail(TypeError(NoCurrentPipeline));
      }
      if currentInputState.None? {
        return Fail(TypeError(NoCurrentInputState));
      }
      var s := currentInputState.value;
      gl.Emit(GL.DrawElements(currentPipeline.value.drawMode, count, s.indexBufferType,
                              firstIndex * s.indexBufferCompByteSize.GetOr(0)));
      r := Pass;
    }

    /** `endPass`: with no texture, nothing; otherwise the pass framebuffers are created on
      * the first resolve only, and the colour attachment is blitted into the texture,
      * which must have its extent. */
    method EndPass(resolveColorTo: Option<Texture>) returns (r: Outcome)
      requires Valid()
      modifies this`passReadFramebuffer, this`passDrawFramebuffer, gl
      ensures Valid()
      ensures resolveColorTo.None? ==>
        r == Pass && gl.log == old(gl.log) && gl.nextName == old(gl.nextName)
        && passReadFramebuffer == old(passReadFramebuffer) && passDrawFramebuffer == old(passDrawFramebuffer)
      ensures resolveColorTo.Some? ==>
        r == ResolveOutcome(currentRenderTarget, resolveColorTo.value)
        && (old(passReadFramebuffer).Some? ==>
              passReadFramebuffer == old(passReadFramebuffer) && passDrawFramebuffer == old(passDrawFramebuffer)
              && gl.nextName == old(gl.nextName))
        && (old(passReadFramebuffer).None? ==>
              passReadFramebuffer == Some(old(gl.nextName)) && passDrawFramebuffer == Some(old(gl.nextName) + 1)
              && gl.nextName == old(gl.nextName) + 2)
        && gl.log == old(gl.log) + PassFramebufferCreation(old(passReadFramebuffer), old(gl.nextName))
           + (if r.Pass? then ResolveCommands(passReadFramebuffer.value, passDrawFramebuffer.value,
                                              currentRenderTarget.value.colorAttachment, resolveColorTo.value)
              else [])
    {
      if resolveColorTo.None? {
        return Pass;
      }
      CreatePassFramebuffers();
      var to := resolveColorTo.value;
      if currentRenderTarget.None? {
        return Fail(TypeError(NoCurrentRenderTarget));
      }
      var from := currentRenderTarget.value.colorAttachment;
      if !(from.width == to.width && from.height == to.height) {
        return Fail(AssertionFailed(ResolveExtent));
      }
      Resolve(passReadFramebuffer.value, passDrawFramebuffer.value, from, to);
      r := Pass;
    }

    /** The two resolve framebuffers, created on first use. */
    method CreatePassFramebuffers()
      requires Valid()
      modifies this`passReadFramebuffer, this`passDrawFramebuffer, gl
      ensures Valid()
      ensures old(passReadFramebuffer).Some? ==>
        passReadFramebuffer == old(passReadFramebuffer) && passDrawFramebuffer == old(passDrawFramebuffer)
        && gl.nextName == old(gl.nextName)
      ensures old(passReadFramebuffer).None? ==>
        passReadFramebuffer == Some(old(gl.nextName)) && passDrawFramebuffer == Some(old(gl.nextName) + 1)
        && gl.nextName == old(gl.nextName) + 2
      ensures gl.log == old(gl.log) + PassFramebufferCreation(old(passReadFramebuffer), old(gl.nextName))
    {
      if passReadFramebuffer.None? {
        var readFb := gl.CreateObject(GL.FramebufferObject);
        var drawFb := gl.CreateObject(GL.FramebufferObject);
        passReadFramebuffer, passDrawFramebuffer := Some(readFb), Some(drawFb);
      }
    }

    /** The blit of `endPass`: colour attachment into texture through the pass framebuffers,
      * which are unbound afterwards. */
    method Resolve(readFb: nat, drawFb: nat, from: ColorAttachment, to: Texture)
      requires gl.Valid()
      modifies gl
      ensures gl.Valid() && gl.nextName == old(gl.nextName)
      ensures gl.log == old(gl.log) + ResolveCommands(readFb, drawFb, from, to)
    {
      gl.Emit(GL.BindFramebuffer(GL.ReadFramebuffer, Some(readFb)));
      gl.Emit(GL.FramebufferRenderbuffer(GL.ReadFramebuffer, GL.ColorAttachment0, from.glRenderbuffer));
      gl.Emit(GL.BindFramebuffer(GL.DrawFramebuffer, Some(drawFb)));
      gl.Emit(GL.FramebufferTexture2D(GL.DrawFramebuffer, GL.ColorAttachment0, GL.Texture2D, to.glTexture, 0));
      gl.Emit(GL.BlitFramebuffer(0, 0, from.width, from.height, 0, 0, to.width, to.height, GL.COLOR_BUFFER_BIT, GL.Linear));
      gl.Emit(GL.BindFramebuffer(GL.ReadFramebuffer, None));
      gl.Emit(GL.BindFramebuffer(GL.DrawFramebuffer, None));
    }

    // ------------------------------------------------------------ host uploader

    /** `uploadBufferData`: the data goes at byte offset `4 * dstWordOffset` of the buffer. */
    method UploadBufferData(buffer: Buffer, dstWordOffset: nat, data: GL.Bytes)
      requires Valid()
      modifies gl
      ensures Valid()
      ensures gl.nextName == old(gl.nextName)
      ensures gl.log == old(gl.log) + [GL.BindBuffer(buffer.glTarget, buffer.glBuffer),
                                       GL.BufferSubData(buffer.glTarget, 4 * dstWordOffset, data)]
    {
      var dstByteOffset := dstWordOffset * 4;
      gl.Emit(GL.BindBuffer(buffer.glTarget, buffer.glBuffer));
      gl.Emit(GL.BufferSubData(buffer.glTarget, dstByteOffset, data));
    }

    /** `uploadTextureData`: binds the texture, then writes the levels in order, halving
      * the extent (floored at 1) after each. */
    method UploadTextureData(texture: Texture, mipLevels: seq<GL.Bytes>)
      requires Valid()
      modifies gl
      ensures Valid()
      ensures gl.nextName == old(gl.nextName)
      ensures gl.log == old(gl.log) + [GL.BindTexture(texture.glTarget, texture.glTexture)]
                                    + MipUploadCommands(texture, mipLevels, |mipLevels|)
    {
      gl.Emit(GL.BindTexture(texture.glTarget, texture.glTexture));
      ghost var start := gl.log;
      var w, h := texture.width, texture.height;
      var i := 0;
      while i < |mipLevels|
        invariant 0 <= i <= |mipLevels|
        invariant w == MipChain.LevelExtent(texture.width, i) && h == MipChain.LevelExtent(texture.height, i)
        invariant gl.Valid() && gl.nextName == old(gl.nextName)
        invariant gl.log == start + MipUploadCommands(texture, mipLevels, i)
      {
        gl.Emit(GL.TexSubImage2D(texture.glTarget, i, 0, 0, w, h, texture.glFormat, texture.glType, mipLevels[i]));
        w := MipChain.Max1(w / 2);
        h := MipChain.Max1(h / 2);
        i := i + 1;
      }
    }
  }
}
