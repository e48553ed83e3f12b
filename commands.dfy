/**
 * The command sequences the device issues, as functions of their inputs.
 *
 * Each imperative operation of the device is proved to append exactly the
 * sequence one of these functions describes (and to fail exactly when the
 * matching outcome function says so); the lemmas here then state what those
 * sequences are, entry by entry.
 */
module GfxCommands {

  import opened GfxErrors
  import GL = WebGL2
  import opened GfxFormat
  import opened GfxTranslate
  import opened GfxResources
  import MipChain

  // ---------------------------------------------------------------- textures

  /** The handle `createTexture` returns, or the throw of one of its three format lookups. */
  function TextureResult(codes: FormatCodes, name: nat, fmt: Format, w: nat, h: nat): Result<Texture> {
    match TranslateTextureFormats(codes, fmt)
    case Err(e) => Err(e)
    case Ok(tf) => Ok(Texture(name, GL.Texture2D, tf.transfer, tf.glType, w, h))
  }

  /** The calls `createTexture` makes; a failed lookup stops it after `bindTexture`. */
  function TextureCommands(codes: FormatCodes, name: nat, fmt: Format, w: nat, h: nat, mipmapped: bool): seq<GL.Command> {
    [GL.Create(GL.TextureObject, name), GL.BindTexture(GL.Texture2D, name)]
    + TextureStorageCommands(codes, fmt, w, h, MipChain.MipLevelCount(mipmapped, w, h))
  }

  /** The calls after `bindTexture`: none when a format lookup throws. */
  function TextureStorageCommands(codes: FormatCodes, fmt: Format, w: nat, h: nat, levels: nat): seq<GL.Command> {
    match TranslateTextureFormats(codes, fmt)
    case Err(_) => []
    case Ok(tf) =>
      [GL.TexParameteri(GL.Texture2D, GL.TextureMaxLevel, GL.IntValue(levels)),
       GL.TexStorage2D(GL.Texture2D, levels, tf.internalFormat, w, h)]
  }

  /** The parameters `configureSwapChain` gives a new swap-chain texture: linear filtering,
    * clamped on both axes. */
  function SwapTextureCommands(name: nat): seq<GL.Command> {
    [GL.BindTexture(GL.Texture2D, name),
     GL.TexParameteri(GL.Texture2D, GL.TextureMagFilter, GL.FilterValue(GL.Linear)),
     GL.TexParameteri(GL.Texture2D, GL.TextureMinFilter, GL.FilterValue(GL.Linear)),
     GL.TexParameteri(GL.Texture2D, GL.TextureWrapS, GL.WrapValue(GL.ClampToEdge)),
     GL.TexParameteri(GL.Texture2D, GL.TextureWrapT, GL.WrapValue(GL.ClampToEdge))]
  }

  /** Texture creation succeeds exactly for U8_RGBA; the texture has the requested
    * extent and is stored with the level count of the (integer) halving loop. */
  lemma {:induction false} TextureCreation(codes: FormatCodes, name: nat, fmt: Format, w: nat, h: nat, mipmapped: bool)
    requires ValidCodes(codes)
    ensures TextureResult(codes, name, fmt, w, h).Ok? <==> fmt == FormatCode(codes, U8_RGBA)
    ensures fmt == FormatCode(codes, U8_RGBA) ==>
      TextureResult(codes, name, fmt, w, h) == Ok(Texture(name, GL.Texture2D, Some(GL.RGBA), GL.UnsignedByte, w, h))
    ensures fmt == FormatCode(codes, U8_RGBA) ==>
      TextureCommands(codes, name, fmt, w, h, mipmapped) ==
        [GL.Create(GL.TextureObject, name), GL.BindTexture(GL.Texture2D, name),
         GL.TexParameteri(GL.Texture2D, GL.TextureMaxLevel, GL.IntValue(MipChain.MipLevelCount(mipmapped, w, h))),
         GL.TexStorage2D(GL.Texture2D, MipChain.MipLevelCount(mipmapped, w, h), GL.RGBA8, w, h)]
    ensures fmt != FormatCode(codes, U8_RGBA) ==>
      TextureCommands(codes, name, fmt, w, h, mipmapped) == [GL.Create(GL.TextureObject, name), GL.BindTexture(GL.Texture2D, name)]
  {
    TextureFormatsIffU8RGBA(codes, fmt);
  }

  /** The first n writes of `uploadTextureData`: level i gets `levels[i]` at the level-i extent. */
  function MipUploadCommands(tex: Texture, levels: seq<GL.Bytes>, n: nat): seq<GL.Command>
    requires n <= |levels|
  {
    if n == 0 then []
    else
      MipUploadCommands(tex, levels, n - 1)
      + [GL.TexSubImage2D(tex.glTarget, n - 1, 0, 0, MipChain.LevelExtent(tex.width, n - 1),
                          MipChain.LevelExtent(tex.height, n - 1), tex.glFormat, tex.glType, levels[n - 1])]
  }

  /** Entry i of the upload is level i, with extent max(floor(w / 2^i), 1) x max(floor(h / 2^i), 1)
    * after the base level: one write per level, in increasing level order. */
  lemma {:induction false} MipUploadCommandsAt(tex: Texture, levels: seq<GL.Bytes>, n: nat, i: nat)
    requires i < n <= |levels|
    ensures |MipUploadCommands(tex, levels, n)| == n
    ensures MipUploadCommands(tex, levels, n)[i] ==
      GL.TexSubImage2D(tex.glTarget, i, 0, 0,
                       if i == 0 then tex.width else MipChain.Max1(tex.width / MipChain.Pow2(i)),
                       if i == 0 then tex.height else MipChain.Max1(tex.height / MipChain.Pow2(i)),
                       tex.glFormat, tex.glType, levels[i])
  {
    MipUploadLength(tex, levels, n - 1);
    if i < n - 1 {
      MipUploadCommandsAt(tex, levels, n - 1, i);
    } else {
      MipChain.LevelExtentClosedForm(tex.width, i);
      MipChain.LevelExtentClosedForm(tex.height, i);
    }
  }

  lemma {:induction false} MipUploadLength(tex: Texture, levels: seq<GL.Bytes>, n: nat)
    requires n <= |levels|
    ensures |MipUploadCommands(tex, levels, n)| == n
  {
    if n > 0 {
      MipUploadLength(tex, levels, n - 1);
    }
  }

  // ---------------------------------------------------------------- samplers

  /** The handle `createSampler` returns, or the throw of one of its two filter lookups. */
  function SamplerResult(name: nat, desc: SamplerDescriptor): (r: Result<Sampler>)
    ensures r.Ok? <==>
      ListedTexFilter(desc.minFilter) && ListedMipFilter(desc.mipFilter) && ListedTexFilter(desc.magFilter)
    ensures r.Ok? ==> r.value.glSampler == name
    ensures r.Err? ==> r.failure == UnknownTextureFilterMode
  {
    match TranslateFilterMode(desc.minFilter, desc.mipFilter)
    case Err(e) => Err(e)
    case Ok(_) =>
      match TranslateFilterMode(desc.magFilter, NoMip)
      case Err(e) => Err(e)
      case Ok(_) => Ok(Sampler(name))
  }

  /** The calls `createSampler` makes: wraps first, then each filter as it is translated. */
  function SamplerCommands(name: nat, desc: SamplerDescriptor): seq<GL.Command> {
    [GL.Create(GL.SamplerObject, name),
     GL.SamplerParameteri(name, GL.TextureWrapS, GL.WrapValue(TranslateWrapMode(desc.wrapS))),
     GL.SamplerParameteri(name, GL.TextureWrapT, GL.WrapValue(TranslateWrapMode(desc.wrapT)))]
    + SamplerFilterCommands(name, desc)
  }

  /** The calls after the two wraps: none when the minification lookup throws, and only
    * the minification filter when the magnification lookup does. */
  function SamplerFilterCommands(name: nat, desc: SamplerDescriptor): seq<GL.Command> {
    match TranslateFilterMode(desc.minFilter, desc.mipFilter)
    case Err(_) => []
    case Ok(minF) =>
      [GL.SamplerParameteri(name, GL.TextureMinFilter, GL.FilterValue(minF))]
      + match TranslateFilterMode(desc.magFilter, NoMip)
        case Err(_) => []
        case Ok(magF) =>
          [GL.SamplerParameteri(name, GL.TextureMagFilter, GL.FilterValue(magF)),
           GL.SamplerParameterf(name, GL.TextureMinLod, desc.minLOD),
           GL.SamplerParameterf(name, GL.TextureMaxLod, desc.maxLOD)]
  }

  /** A created sampler's wraps and filters are those of its descriptor, and its
    * magnification filter is NEAREST or LINEAR, never a mipmap filter. */
  lemma {:induction false} SamplerParameters(name: nat, desc: SamplerDescriptor)
    requires SamplerResult(name, desc).Ok?
    ensures |SamplerCommands(name, desc)| == 7
    ensures WrapModeOf(SamplerCommands(name, desc)[1].value.wrap) == desc.wrapS
    ensures WrapModeOf(SamplerCommands(name, desc)[2].value.wrap) == desc.wrapT
    ensures SamplerCommands(name, desc)[3].value.FilterValue? &&
            FilterModesOf(SamplerCommands(name, desc)[3].value.filter) == (desc.minFilter, desc.mipFilter)
    ensures SamplerCommands(name, desc)[4].pname == GL.TextureMagFilter &&
            SamplerCommands(name, desc)[4].value in {GL.FilterValue(GL.Nearest), GL.FilterValue(GL.Linear)}
    ensures FilterModesOf(SamplerCommands(name, desc)[4].value.filter).0 == desc.magFilter
  {
    var minF := TranslateFilterMode(desc.minFilter, desc.mipFilter);
    var magF := TranslateFilterMode(desc.magFilter, NoMip);
    assert minF.Ok? && magF.Ok?;
    assert SamplerCommands(name, desc)[3] == GL.SamplerParameteri(name, GL.TextureMinFilter, GL.FilterValue(minF.value));
    assert SamplerCommands(name, desc)[4] == GL.SamplerParameteri(name, GL.TextureMagFilter, GL.FilterValue(magF.value));
  }

  // ---------------------------------------------------------------- render targets

  /** `clearBits`: one bit per aspect whose load disposition is CLEAR. */
  function ClearMask(color: bool, depth: bool, stencil: bool): (m: bv32)
    ensures (m & GL.COLOR_BUFFER_BIT != 0) <==> color
    ensures (m & GL.DEPTH_BUFFER_BIT != 0) <==> depth
    ensures (m & GL.STENCIL_BUFFER_BIT != 0) <==> stencil
    ensures m == 0 <==> !color && !depth && !stencil
    ensures m & !(GL.COLOR_BUFFER_BIT | GL.DEPTH_BUFFER_BIT | GL.STENCIL_BUFFER_BIT) == 0
  {
    (if color then GL.COLOR_BUFFER_BIT else 0)
    | (if depth then GL.DEPTH_BUFFER_BIT else 0)
    | (if stencil then GL.STENCIL_BUFFER_BIT else 0)
  }

  function ClearBitsOf(desc: RenderTargetDescriptor): bv32 {
    ClearMask(desc.colorLoadDisposition == DispositionClear,
              desc.depthLoadDisposition == DispositionClear,
              desc.stencilLoadDisposition == DispositionClear)
  }

  /** `[cmd]` when `issued`, else nothing. */
  function IssuedIf(issued: bool, cmd: GL.Command): seq<GL.Command> {
    if issued then [cmd] else []
  }

  /** The clears `_setRenderTarget` issues after binding the framebuffer. The clear
    * colour is passed as (r, b, g, a), as the backend writes it. */
  function ClearCommands(rt: RenderTarget): seq<GL.Command> {
    var c := rt.colorClearColor;
    IssuedIf(rt.clearBits & GL.COLOR_BUFFER_BIT != 0, GL.ClearColor(c.r, c.b, c.g, c.a))
    + IssuedIf(rt.clearBits & GL.DEPTH_BUFFER_BIT != 0, GL.ClearDepth(rt.depthClearValue))
    + IssuedIf(rt.clearBits & GL.STENCIL_BUFFER_BIT != 0, GL.ClearStencil(rt.stencilClearValue))
    + [GL.Clear(rt.clearBits)]
  }

  /** The clears end with exactly one `clear`, of the target's mask. */
  lemma {:induction false} ClearCommandsEndInOneClear(rt: RenderTarget)
    ensures |ClearCommands(rt)| >= 1 && ClearCommands(rt)[|ClearCommands(rt)| - 1] == GL.Clear(rt.clearBits)
    ensures forall i :: 0 <= i < |ClearCommands(rt)| - 1 ==> !ClearCommands(rt)[i].Clear?
  {
    var c := rt.colorClearColor;
    var front := IssuedIf(rt.clearBits & GL.COLOR_BUFFER_BIT != 0, GL.ClearColor(c.r, c.b, c.g, c.a))
      + IssuedIf(rt.clearBits & GL.DEPTH_BUFFER_BIT != 0, GL.ClearDepth(rt.depthClearValue))
      + IssuedIf(rt.clearBits & GL.STENCIL_BUFFER_BIT != 0, GL.ClearStencil(rt.stencilClearValue));
    assert ClearCommands(rt) == front + [GL.Clear(rt.clearBits)];
    assert forall i :: 0 <= i < |front| ==> !front[i].Clear?;
  }

  /** The colour is set exactly when the mask clears colour, and to the target's colour. */
  lemma {:induction false} ClearColorIssued(rt: RenderTarget)
    ensures (exists i :: 0 <= i < |ClearCommands(rt)| && ClearCommands(rt)[i].ClearColor?) <==> rt.clearBits & GL.COLOR_BUFFER_BIT != 0
    ensures forall i :: 0 <= i < |ClearCommands(rt)| && ClearCommands(rt)[i].ClearColor? ==>
      var c := rt.colorClearColor; ClearCommands(rt)[i] == GL.ClearColor(c.r, c.b, c.g, c.a)
  {
    var c := rt.colorClearColor;
    var head := IssuedIf(rt.clearBits & GL.COLOR_BUFFER_BIT != 0, GL.ClearColor(c.r, c.b, c.g, c.a));
    var rest := IssuedIf(rt.clearBits & GL.DEPTH_BUFFER_BIT != 0, GL.ClearDepth(rt.depthClearValue))
      + IssuedIf(rt.clearBits & GL.STENCIL_BUFFER_BIT != 0, GL.ClearStencil(rt.stencilClearValue))
      + [GL.Clear(rt.clearBits)];
    assert ClearCommands(rt) == head + rest;
    assert forall i :: 0 <= i < |rest| ==> !rest[i].ClearColor?;
    if head != [] {
      assert ClearCommands(rt)[0] == head[0];
    }
  }

  /** The depth value is set exactly when the mask clears depth, and to the target's value. */
  lemma {:induction false} ClearDepthIssued(rt: RenderTarget)
    ensures (exists i :: 0 <= i < |ClearCommands(rt)| && ClearCommands(rt)[i].ClearDepth?) <==> rt.clearBits & GL.DEPTH_BUFFER_BIT != 0
    ensures forall i :: 0 <= i < |ClearCommands(rt)| && ClearCommands(rt)[i].ClearDepth? ==>
      ClearCommands(rt)[i] == GL.ClearDepth(rt.depthClearValue)
  {
    var c := rt.colorClearColor;
    var front := IssuedIf(rt.clearBits & GL.COLOR_BUFFER_BIT != 0, GL.ClearColor(c.r, c.b, c.g, c.a));
    var mid := IssuedIf(rt.clearBits & GL.DEPTH_BUFFER_BIT != 0, GL.ClearDepth(rt.depthClearValue));
    var rest := IssuedIf(rt.clearBits & GL.STENCIL_BUFFER_BIT != 0, GL.ClearStencil(rt.stencilClearValue))
      + [GL.Clear(rt.clearBits)];
    assert ClearCommands(rt) == front + mid + rest;
    assert forall i :: 0 <= i < |front| ==> !front[i].ClearDepth?;
    assert forall i :: 0 <= i < |rest| ==> !rest[i].ClearDepth?;
    if mid != [] {
      assert ClearCommands(rt)[|front|] == mid[0];
    }
  }

  /** The stencil value is set exactly when the mask clears stencil, and to the target's value. */
  lemma {:induction false} ClearStencilIssued(rt: RenderTarget)
    ensures (exists i :: 0 <= i < |ClearCommands(rt)| && ClearCommands(rt)[i].ClearStencil?) <==> rt.clearBits & GL.STENCIL_BUFFER_BIT != 0
    ensures forall i :: 0 <= i < |ClearCommands(rt)| && ClearCommands(rt)[i].ClearStencil? ==>
      ClearCommands(rt)[i] == GL.ClearStencil(rt.stencilClearValue)
  {
    var c := rt.colorClearColor;
    var front := IssuedIf(rt.clearBits & GL.COLOR_BUFFER_BIT != 0, GL.ClearColor(c.r, c.b, c.g, c.a))
      + IssuedIf(rt.clearBits & GL.DEPTH_BUFFER_BIT != 0, GL.ClearDepth(rt.depthClearValue));
    var mid := IssuedIf(rt.clearBits & GL.STENCIL_BUFFER_BIT != 0, GL.ClearStencil(rt.stencilClearValue));
    assert ClearCommands(rt) == front + mid + [GL.Clear(rt.clearBits)];
    assert forall i :: 0 <= i < |front| ==> !front[i].ClearStencil?;
    if mid != [] {
      assert ClearCommands(rt)[|front|] == mid[0];
    }
  }

  /** A target whose three aspects are all loaded still gets one `clear`, of no buffers. */
  lemma AllLoadClearsNothing(desc: RenderTargetDescriptor, rt: RenderTarget)
    requires desc.colorLoadDisposition == DispositionLoad
    requires desc.depthLoadDisposition == DispositionLoad
    requires desc.stencilLoadDisposition == DispositionLoad
    requires rt.clearBits == ClearBitsOf(desc)
    ensures rt.clearBits == 0
    ensures ClearCommands(rt) == [GL.Clear(0)]
  {
  }

  // ---------------------------------------------------------------- bindings

  /** Index of the first binding whose buffer is not of the uniform class (|ubs| if none). */
  function FirstNonUniform(ubs: seq<BufferBinding>): (k: nat)
    ensures k <= |ubs|
    ensures forall j :: 0 <= j < k ==> ubs[j].buffer.usage == UniformUsage
    ensures k < |ubs| ==> ubs[k].buffer.usage != UniformUsage
  {
    if |ubs| == 0 then 0
    else if ubs[0].buffer.usage != UniformUsage then 0
    else 1 + FirstNonUniform(ubs[1..])
  }

  /** The first n `bindBufferRange` calls of the uniform loop: binding i goes to slot
    * `base + i`, ranges in bytes. */
  function UniformBindCommands(base: nat, ubs: seq<BufferBinding>, n: nat): seq<GL.Command>
    requires n <= |ubs|
  {
    if n == 0 then []
    else
      UniformBindCommands(base, ubs, n - 1)
      + [GL.BindBufferRange(GL.UniformBuffer, base + n - 1, ubs[n - 1].buffer.glBuffer,
                            ubs[n - 1].wordOffset * 4, ubs[n - 1].wordCount * 4)]
  }

  /** Uniform binding i lands in slot `base + i` with byte range [4 * wordOffset, 4 * wordCount]. */
  lemma {:induction false} UniformBindCommandsAt(base: nat, ubs: seq<BufferBinding>, n: nat, i: nat)
    requires i < n <= |ubs|
    ensures |UniformBindCommands(base, ubs, n)| == n
    ensures UniformBindCommands(base, ubs, n)[i] ==
      GL.BindBufferRange(GL.UniformBuffer, base + i, ubs[i].buffer.glBuffer, 4 * ubs[i].wordOffset, 4 * ubs[i].wordCount)
  {
    UniformBindLength(base, ubs, n - 1);
    if i < n - 1 {
      UniformBindCommandsAt(base, ubs, n - 1, i);
    }
  }

  lemma {:induction false} UniformBindLength(base: nat, ubs: seq<BufferBinding>, n: nat)
    requires n <= |ubs|
    ensures |UniformBindCommands(base, ubs, n)| == n
  {
    if n > 0 {
      UniformBindLength(base, ubs, n - 1);
    }
  }

  /** The three calls binding sampler `unit`: texture unit, sampler object, texture. */
  function SamplerBlock(unit: nat, b: SamplerBinding): seq<GL.Command> {
    [GL.ActiveTexture(unit), GL.BindSampler(unit, b.sampler.glSampler), GL.BindTexture(b.texture.glTarget, b.texture.glTexture)]
  }

  /** The first n blocks of the sampler loop. */
  function SamplerBindCommands(base: nat, ss: seq<SamplerBinding>, n: nat): seq<GL.Command>
    requires n <= |ss|
  {
    if n == 0 then []
    else SamplerBindCommands(base, ss, n - 1) + SamplerBlock(base + n - 1, ss[n - 1])
  }

  /** Sampler binding i goes to texture unit and sampler unit `base + i`. */
  lemma {:induction false} SamplerBindCommandsAt(base: nat, ss: seq<SamplerBinding>, n: nat, i: nat)
    requires i < n <= |ss|
    ensures |SamplerBindCommands(base, ss, n)| == 3 * n
    ensures SamplerBindCommands(base, ss, n)[3 * i] == GL.ActiveTexture(base + i)
    ensures SamplerBindCommands(base, ss, n)[3 * i + 1] == GL.BindSampler(base + i, ss[i].sampler.glSampler)
    ensures SamplerBindCommands(base, ss, n)[3 * i + 2] == GL.BindTexture(ss[i].texture.glTarget, ss[i].texture.glTexture)
  {
    SamplerBindLength(base, ss, n - 1);
    var prev := SamplerBindCommands(base, ss, n - 1);
    assert SamplerBindCommands(base, ss, n) == prev + SamplerBlock(base + n - 1, ss[n - 1]);
    if i < n - 1 {
      SamplerBindCommandsAt(base, ss, n - 1, i);
      assert 3 * i + 2 < |prev|;
    } else {
      assert |prev| == 3 * i;
    }
  }

  lemma {:induction false} SamplerBindLength(base: nat, ss: seq<SamplerBinding>, n: nat)
    requires n <= |ss|
    ensures |SamplerBindCommands(base, ss, n)| == 3 * n
  {
    if n > 0 {
      SamplerBindLength(base, ss, n - 1);
    }
  }

  /** Whether `setBindings` returns or throws, and with what. */
  function BindingsOutcome(pipeline: Option<RenderPipeline>, unchangedUniformBuffers: nat, ubs: seq<BufferBinding>,
                           unchangedSamplers: nat, ss: seq<SamplerBinding>): (r: Outcome)
    ensures r.Pass? <==>
      pipeline.Some?
      && unchangedUniformBuffers + |ubs| == pipeline.value.bindingLayout.numUniformBuffers
      && unchangedSamplers + |ss| == pipeline.value.bindingLayout.numSamplers
      && forall j :: 0 <= j < |ubs| ==> ubs[j].buffer.usage == UniformUsage
    ensures pipeline.None? ==> r == Fail(TypeError(NoCurrentPipeline))
    ensures pipeline.Some? && unchangedUniformBuffers + |ubs| != pipeline.value.bindingLayout.numUniformBuffers ==>
      r == Fail(AssertionFailed(UniformBufferCount))
  {
    if pipeline.None? then Fail(TypeError(NoCurrentPipeline))
    else if unchangedUniformBuffers + |ubs| != pipeline.value.bindingLayout.numUniformBuffers then
      Fail(AssertionFailed(UniformBufferCount))
    else if unchangedSamplers + |ss| != pipeline.value.bindingLayout.numSamplers then
      Fail(AssertionFailed(SamplerCount))
    else if FirstNonUniform(ubs) < |ubs| then Fail(AssertionFailed(UniformBufferUsage))
    else Pass
  }

  /** The calls `setBindings` makes: none when a count check fails, the uniform bindings
    * up to the first non-uniform buffer, and the samplers only when every buffer passed. */
  function BindingsCommands(pipeline: Option<RenderPipeline>, unchangedUniformBuffers: nat, ubs: seq<BufferBinding>,
                            unchangedSamplers: nat, ss: seq<SamplerBinding>): seq<GL.Command> {
    if pipeline.None?
       || unchangedUniformBuffers + |ubs| != pipeline.value.bindingLayout.numUniformBuffers
       || unchangedSamplers + |ss| != pipeline.value.bindingLayout.numSamplers
    then []
    else
      var k := FirstNonUniform(ubs);
      UniformBindCommands(unchangedUniformBuffers, ubs, k)
      + if k < |ubs| then [] else SamplerBindCommands(unchangedSamplers, ss, |ss|)
  }

  /** A successful `setBindings` binds every uniform buffer and then every sampler. */
  lemma BindingsOnPass(pipeline: Option<RenderPipeline>, unchangedUniformBuffers: nat, ubs: seq<BufferBinding>,
                       unchangedSamplers: nat, ss: seq<SamplerBinding>)
    requires BindingsOutcome(pipeline, unchangedUniformBuffers, ubs, unchangedSamplers, ss).Pass?
    ensures BindingsCommands(pipeline, unchangedUniformBuffers, ubs, unchangedSamplers, ss)
         == UniformBindCommands(unchangedUniformBuffers, ubs, |ubs|) + SamplerBindCommands(unchangedSamplers, ss, |ss|)
  {
    assert FirstNonUniform(ubs) == |ubs|;
  }

  // ---------------------------------------------------------------- input states

  /** Attribute `attr` names an existing vertex buffer of the vertex class. */
  predicate AttributeUsable(attr: VertexAttribute, vbs: seq<VertexBufferDescriptor>) {
    attr.bufferIndex < |vbs| && vbs[attr.bufferIndex].buffer.usage == VertexUsage
  }

  /** What reading a missing vertex buffer or asserting its class throws. */
  function AttributeFailure(attr: VertexAttribute, vbs: seq<VertexBufferDescriptor>): Failure {
    if attr.bufferIndex < |vbs| then AssertionFailed(VertexBufferUsage) else TypeError(NoVertexBuffer)
  }

  /** Index of the first attribute that is not usable (|attrs| if none). */
  function FirstUnusable(attrs: seq<VertexAttribute>, vbs: seq<VertexBufferDescriptor>): (k: nat)
    ensures k <= |attrs|
    ensures forall j :: 0 <= j < k ==> AttributeUsable(attrs[j], vbs)
    ensures k < |attrs| ==> !AttributeUsable(attrs[k], vbs)
  {
    if |attrs| == 0 then 0
    else if !AttributeUsable(attrs[0], vbs) then 0
    else 1 + FirstUnusable(attrs[1..], vbs)
  }

  /** The three calls that set up one attribute from its vertex buffer. */
  function AttributeBlock(codes: FormatCodes, attr: VertexAttribute, vb: VertexBufferDescriptor): seq<GL.Command> {
    var vf := TranslateVertexFormat(codes, attr.format);
    [GL.BindBuffer(GL.ArrayBuffer, vb.buffer.glBuffer),
     GL.VertexAttribPointer(attr.location, vf.size, vf.glType, vf.normalized, vb.stride, vb.offset + attr.bufferOffset),
     GL.EnableVertexAttribArray(attr.location)]
  }

  /** The first n blocks of the attribute loop; each of those attributes is usable. */
  function AttributeCommands(codes: FormatCodes, attrs: seq<VertexAttribute>, vbs: seq<VertexBufferDescriptor>, n: nat)
    : seq<GL.Command>
    requires n <= FirstUnusable(attrs, vbs)
  {
    if n == 0 then []
    else
      var a := attrs[n - 1];
      AttributeCommands(codes, attrs, vbs, n - 1) + AttributeBlock(codes, a, vbs[a.bufferIndex])
  }

  /** Attribute i is set up from the vertex buffer it names: entries 3i .. 3i+2 are its block. */
  lemma {:induction false} AttributeCommandsAt(codes: FormatCodes, attrs: seq<VertexAttribute>, vbs: seq<VertexBufferDescriptor>,
                                               n: nat, i: nat)
    requires i < n <= FirstUnusable(attrs, vbs)
    ensures |AttributeCommands(codes, attrs, vbs, n)| == 3 * n
    ensures AttributeCommands(codes, attrs, vbs, n)[3 * i] == AttributeBlock(codes, attrs[i], vbs[attrs[i].bufferIndex])[0]
    ensures AttributeCommands(codes, attrs, vbs, n)[3 * i + 1] == AttributeBlock(codes, attrs[i], vbs[attrs[i].bufferIndex])[1]
    ensures AttributeCommands(codes, attrs, vbs, n)[3 * i + 2] == AttributeBlock(codes, attrs[i], vbs[attrs[i].bufferIndex])[2]
  {
    AttributeLength(codes, attrs, vbs, n - 1);
    var prev := AttributeCommands(codes, attrs, vbs, n - 1);
    var block := AttributeBlock(codes, attrs[n - 1], vbs[attrs[n - 1].bufferIndex]);
    assert AttributeCommands(codes, attrs, vbs, n) == prev + block;
    if i < n - 1 {
      AttributeCommandsAt(codes, attrs, vbs, n - 1, i);
      assert 3 * i + 2 < |prev|;
    } else {
      assert |prev| == 3 * i;
    }
  }

  /** The block of an attribute whose format packs type t, layout c and flags f: bind its
    * buffer, point the attribute at the buffer's offset plus its own with c's component
    * count, t's GL type and f's NORMALIZED bit, then enable it. */
  lemma AttributeBlockContents(codes: FormatCodes, attr: VertexAttribute, vb: VertexBufferDescriptor,
                               t: TypeFlag, c: CompFlag, f: bv8)
    requires ValidCodes(codes)
    requires attr.format == MakeFormat(codes.typeCode(t), codes.compCode(c), f)
    ensures |AttributeBlock(codes, attr, vb)| == 3
    ensures AttributeBlock(codes, attr, vb)[0] == GL.BindBuffer(GL.ArrayBuffer, vb.buffer.glBuffer)
    ensures AttributeBlock(codes, attr, vb)[1] ==
      GL.VertexAttribPointer(attr.location, Some(ComponentCount(c)), Some(TranslateType(t)),
                             f & codes.normalizedBit != 0, vb.stride, vb.offset + attr.bufferOffset)
    ensures AttributeBlock(codes, attr, vb)[2] == GL.EnableVertexAttribArray(attr.location)
  {
    VertexFormatOfFields(codes, t, c, f);
  }

  lemma {:induction false} AttributeLength(codes: FormatCodes, attrs: seq<VertexAttribute>, vbs: seq<VertexBufferDescriptor>, n: nat)
    requires n <= FirstUnusable(attrs, vbs)
    ensures |AttributeCommands(codes, attrs, vbs, n)| == 3 * n
  {
    if n > 0 {
      AttributeLength(codes, attrs, vbs, n - 1);
    }
  }

  /** The input state `createInputState` returns, or what it throws. */
  function InputStateResult(codes: FormatCodes, layout: InputLayout, vbs: seq<VertexBufferDescriptor>,
                            indexBuffer: Option<Buffer>, vao: nat): Result<InputState> {
    var attrs := layout.attributes;
    var k := FirstUnusable(attrs, vbs);
    if k < |attrs| then Err(AttributeFailure(attrs[k], vbs))
    else IndexedInputState(codes, layout, indexBuffer, vao)
  }

  /** `createInputState` succeeds exactly when every attribute names a vertex-class buffer
    * and any index buffer is index-class with a U16_R layout format; the state then
    * records the vertex array, the layout and, with an index buffer, UNSIGNED_SHORT and the
    * component size of U16_R. A missing or wrong-class vertex buffer throws what reading
    * or asserting it throws; once the attributes pass, an index buffer that is not of the
    * index class fails its assert, and a layout index format other than U16_R throws
    * `"whoops"`. */
  lemma InputStateResultCases(codes: FormatCodes, layout: InputLayout, vbs: seq<VertexBufferDescriptor>,
                              indexBuffer: Option<Buffer>, vao: nat)
    ensures var r := InputStateResult(codes, layout, vbs, indexBuffer, vao);
      && (r.Ok? <==>
            (forall j :: 0 <= j < |layout.attributes| ==> AttributeUsable(layout.attributes[j], vbs))
            && (indexBuffer.Some? ==>
                  indexBuffer.value.usage == IndexUsage && layout.indexBufferFormat == Some(FormatCode(codes, U16_R))))
      && (r.Ok? ==> r.value.vao == vao && r.value.inputLayout == layout)
      && (r.Ok? && indexBuffer.None? ==> r.value.indexBufferType == None && r.value.indexBufferCompByteSize == None)
      && (r.Ok? && indexBuffer.Some? ==>
            r.value.indexBufferType == Some(GL.UnsignedShort)
            && r.value.indexBufferCompByteSize == FormatCompByteSize(codes, FormatCode(codes, U16_R)))
      && (r.Err? && FirstUnusable(layout.attributes, vbs) < |layout.attributes| ==>
            r.failure in {AssertionFailed(VertexBufferUsage), TypeError(NoVertexBuffer)})
      && (FirstUnusable(layout.attributes, vbs) == |layout.attributes| && indexBuffer.Some?
          && indexBuffer.value.usage != IndexUsage ==>
            r == Err(AssertionFailed(IndexBufferUsage)))
      && (FirstUnusable(layout.attributes, vbs) == |layout.attributes| && indexBuffer.Some?
          && indexBuffer.value.usage == IndexUsage && layout.indexBufferFormat != Some(FormatCode(codes, U16_R)) ==>
            r == Err(Whoops))
  {
  }

  /** What `createInputState` returns once every attribute is set up: the index buffer
    * must be of the index class and the layout's index format U16_R. */
  function IndexedInputState(codes: FormatCodes, layout: InputLayout, indexBuffer: Option<Buffer>, vao: nat): Result<InputState> {
    match indexBuffer
    case None => Ok(InputState(vao, None, None, layout))
    case Some(b) =>
      if b.usage != IndexUsage then Err(AssertionFailed(IndexBufferUsage))
      else
        match TranslateIndexFormat(codes, layout.indexBufferFormat)
        case Err(e) => Err(e)
        case Ok(t) => Ok(InputState(vao, Some(t), FormatCompByteSize(codes, layout.indexBufferFormat.value), layout))
  }

  /** The calls `createInputState` makes after its attribute loop, up to its first throw. */
  function IndexBufferCommands(codes: FormatCodes, layout: InputLayout, indexBuffer: Option<Buffer>): seq<GL.Command> {
    match indexBuffer
    case None => [GL.BindVertexArray(None)]
    case Some(b) =>
      if b.usage != IndexUsage then []
      else if TranslateIndexFormat(codes, layout.indexBufferFormat).Err? then [GL.BindBuffer(GL.ElementArrayBuffer, b.glBuffer)]
      else [GL.BindBuffer(GL.ElementArrayBuffer, b.glBuffer), GL.BindVertexArray(None)]
  }

  /** The calls `createInputState` makes, up to its first throw. */
  function InputStateCommands(codes: FormatCodes, layout: InputLayout, vbs: seq<VertexBufferDescriptor>,
                              indexBuffer: Option<Buffer>, vao: nat): seq<GL.Command> {
    [GL.Create(GL.VertexArrayObject, vao)] + InputStateSetupCommands(codes, layout, vbs, indexBuffer, vao)
  }

  /** The calls after the vertex array is created: bind it, set up the attributes, and
    * (when they all succeed) the index buffer. */
  function InputStateSetupCommands(codes: FormatCodes, layout: InputLayout, vbs: seq<VertexBufferDescriptor>,
                                   indexBuffer: Option<Buffer>, vao: nat): seq<GL.Command> {
    var attrs := layout.attributes;
    var k := FirstUnusable(attrs, vbs);
    [GL.BindVertexArray(Some(vao))] + AttributeCommands(codes, attrs, vbs, k)
    + if k < |attrs| then [] else IndexBufferCommands(codes, layout, indexBuffer)
  }

  /** On success the vertex array is bound, every attribute is set up, the index buffer
    * (if any) is bound into it, and the vertex array is unbound last. */
  lemma InputStateOnSuccess(codes: FormatCodes, layout: InputLayout, vbs: seq<VertexBufferDescriptor>,
                            indexBuffer: Option<Buffer>, vao: nat)
    requires InputStateResult(codes, layout, vbs, indexBuffer, vao).Ok?
    ensures InputStateCommands(codes, layout, vbs, indexBuffer, vao) ==
      [GL.Create(GL.VertexArrayObject, vao), GL.BindVertexArray(Some(vao))]
      + AttributeCommands(codes, layout.attributes, vbs, |layout.attributes|)
      + (if indexBuffer.Some? then [GL.BindBuffer(GL.ElementArrayBuffer, indexBuffer.value.glBuffer)] else [])
      + [GL.BindVertexArray(None)]
  {
    assert FirstUnusable(layout.attributes, vbs) == |layout.attributes|;
  }

  // ---------------------------------------------------------------- resolve

  /** Whether `endPass(tex)` gets past reading the render target and its extent check. */
  function ResolveOutcome(rt: Option<RenderTarget>, to: Texture): (r: Outcome)
    ensures r.Pass? <==>
      rt.Some? && rt.value.colorAttachment.width == to.width && rt.value.colorAttachment.height == to.height
  {
    match rt
    case None => Fail(TypeError(NoCurrentRenderTarget))
    case Some(t) =>
      if t.colorAttachment.width == to.width && t.colorAttachment.height == to.height then Pass
      else Fail(AssertionFailed(ResolveExtent))
  }

  /** The two framebuffers `endPass` creates on its first resolve, and none after that. */
  function PassFramebufferCreation(existing: Option<nat>, next: nat): seq<GL.Command> {
    if existing.None? then [GL.Create(GL.FramebufferObject, next), GL.Create(GL.FramebufferObject, next + 1)] else []
  }

  /** The calls of a resolve from a colour attachment into a texture through the pass framebuffers. */
  function ResolveCommands(readFb: nat, drawFb: nat, from: ColorAttachment, to: Texture): seq<GL.Command> {
    [GL.BindFramebuffer(GL.ReadFramebuffer, Some(readFb)),
     GL.FramebufferRenderbuffer(GL.ReadFramebuffer, GL.ColorAttachment0, from.glRenderbuffer),
     GL.BindFramebuffer(GL.DrawFramebuffer, Some(drawFb)),
     GL.FramebufferTexture2D(GL.DrawFramebuffer, GL.ColorAttachment0, GL.Texture2D, to.glTexture, 0),
     GL.BlitFramebuffer(0, 0, from.width, from.height, 0, 0, to.width, to.height, GL.COLOR_BUFFER_BIT, GL.Linear),
     GL.BindFramebuffer(GL.ReadFramebuffer, None),
     GL.BindFramebuffer(GL.DrawFramebuffer, None)]
  }

  /** A resolve blits exactly once, the whole attachment onto the whole texture, linearly
    * filtered, and leaves both framebuffer bindings cleared. */
  lemma {:induction false} ResolveBlitsOnce(readFb: nat, drawFb: nat, from: ColorAttachment, to: Texture)
    ensures var cmds := ResolveCommands(readFb, drawFb, from, to);
      && |cmds| >= 2
      && (exists i :: 0 <= i < |cmds| && cmds[i].BlitFramebuffer?)
      && (forall i, j :: 0 <= i < j < |cmds| && cmds[i].BlitFramebuffer? ==> !cmds[j].BlitFramebuffer?)
      && (forall i :: 0 <= i < |cmds| && cmds[i].BlitFramebuffer? ==>
            cmds[i] == GL.BlitFramebuffer(0, 0, from.width, from.height, 0, 0, to.width, to.height, GL.COLOR_BUFFER_BIT, GL.Linear))
      && cmds[|cmds| - 2..] == [GL.BindFramebuffer(GL.ReadFramebuffer, None), GL.BindFramebuffer(GL.DrawFramebuffer, None)]
  {
    var cmds := ResolveCommands(readFb, drawFb, from, to);
    assert cmds[4].BlitFramebuffer?;
  }
}
