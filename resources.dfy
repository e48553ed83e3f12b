/**
 * Resource handles and descriptors of the WebGL2 backend.
 *
 * Each handle kind of the backend (the `_T` tag of its record) is its own
 * Dafny type, so every downcast the backend makes is checked statically.
 * Handles are values, except the input layout: `setInputState` compares
 * layouts by object identity, so it is a class with constant fields.
 */
module GfxResources {

  import opened GfxErrors
  import GL = WebGL2
  import GfxFormat
  import GfxTranslate

  datatype Buffer = Buffer(glBuffer: nat, glTarget: GL.BufferTarget, usage: GfxTranslate.BufferUsage)

  datatype Texture = Texture(
    glTexture: nat,
    glTarget: GL.TextureTarget,
    glFormat: Option<GL.TransferFormat>,
    glType: GL.GLType,
    width: nat,
    height: nat)

  datatype ColorAttachment = ColorAttachment(glRenderbuffer: nat, width: nat, height: nat)
  datatype DepthStencilAttachment = DepthStencilAttachment(glRenderbuffer: nat, width: nat, height: nat)

  datatype Sampler = Sampler(glSampler: nat)

  datatype SamplerDescriptor = SamplerDescriptor(
    wrapS: GfxTranslate.WrapMode,
    wrapT: GfxTranslate.WrapMode,
    minFilter: GfxTranslate.TexFilterMode,
    magFilter: GfxTranslate.TexFilterMode,
    mipFilter: GfxTranslate.MipFilterMode,
    minLOD: real,
    maxLOD: real)

  /** A shader description; only the number of its uniform-buffer layouts is seen here. */
  datatype DeviceProgram = DeviceProgram(uniformBufferLayoutCount: nat)

  datatype Program = Program(glProgram: nat, deviceProgram: DeviceProgram)

  datatype Color = Color(r: real, g: real, b: real, a: real)

  datatype LoadDisposition = DispositionClear | DispositionLoad

  datatype RenderTargetDescriptor = RenderTargetDescriptor(
    colorAttachment: ColorAttachment,
    depthStencilAttachment: DepthStencilAttachment,
    colorLoadDisposition: LoadDisposition,
    depthLoadDisposition: LoadDisposition,
    stencilLoadDisposition: LoadDisposition,
    colorClearColor: Color,
    depthClearValue: real,
    stencilClearValue: int)

  datatype RenderTarget = RenderTarget(
    glFramebuffer: nat,
    colorAttachment: ColorAttachment,
    depthAttachment: DepthStencilAttachment,
    clearBits: bv32,
    colorClearColor: Color,
    depthClearValue: real,
    stencilClearValue: int)

  datatype VertexAttribute = VertexAttribute(location: nat, format: GfxFormat.Format, bufferIndex: nat, bufferOffset: nat)

  /** An input layout; its identity is that of the object. */
  class InputLayout {
    const attributes: seq<VertexAttribute>
    const indexBufferFormat: Option<GfxFormat.Format>

    constructor (attributes: seq<VertexAttribute>, indexBufferFormat: Option<GfxFormat.Format>)
      ensures this.attributes == attributes && this.indexBufferFormat == indexBufferFormat
    {
      this.attributes := attributes;
      this.indexBufferFormat := indexBufferFormat;
    }
  }

  datatype VertexBufferDescriptor = VertexBufferDescriptor(buffer: Buffer, stride: nat, offset: nat)

  datatype InputState = InputState(
    vao: nat,
    indexBufferType: Option<GL.GLType>,
    indexBufferCompByteSize: Option<nat>,
    inputLayout: InputLayout)

  datatype BindingLayout = BindingLayout(numUniformBuffers: nat, numSamplers: nat)

  datatype RenderPipelineDescriptor = RenderPipelineDescriptor(
    bindingLayout: BindingLayout,
    program: Program,
    topology: GfxTranslate.PrimitiveTopology,
    renderFlags: GL.RenderFlags,
    inputLayout: InputLayout)

  datatype RenderPipeline = RenderPipeline(
    bindingLayout: BindingLayout,
    program: Program,
    drawMode: GL.DrawMode,
    renderFlags: GL.RenderFlags,
    inputLayout: InputLayout)

  datatype BufferBinding = BufferBinding(buffer: Buffer, wordOffset: nat, wordCount: nat)
  datatype SamplerBinding = SamplerBinding(sampler: Sampler, texture: Texture)
}
