/**
 * An abstract WebGL2 rendering context.
 *
 * Native objects are integer names handed out by the context, and every
 * `gl.*` call the backend makes is appended, as a `Command` value, to the
 * context's log. What the GPU does with a command is not modelled. GL enums
 * are datatypes; the only numeric GL values kept are the three clear bits,
 * because the backend computes a bitmask from them.
 */
module WebGL2 {

  import opened GfxErrors

  type Bytes = seq<bv8>

  datatype GLType = UnsignedByte | UnsignedShort | UnsignedInt | Byte | Short | Int | Float
  datatype BufferTarget = ArrayBuffer | ElementArrayBuffer | UniformBuffer
  datatype UsageHint = StaticDraw | DynamicDraw
  /** Sized internal formats accepted by `texStorage2D`. */
  datatype InternalFormat = R32F | RG32F | RGB32F | RGBA32F | R16UI | RGBA8
  /** Sized internal formats accepted by `renderbufferStorageMultisample`. */
  datatype RenderbufferFormat = RenderbufferRGBA8 | Depth24Stencil8
  /** Unsized pixel-transfer formats of `texSubImage2D`. */
  datatype TransferFormat = Red | RG | RGB | RGBA
  datatype Wrap = ClampToEdge | Repeat | MirroredRepeat
  datatype Filter =
    | Nearest | Linear
    | NearestMipmapNearest | LinearMipmapNearest
    | NearestMipmapLinear | LinearMipmapLinear
  datatype DrawMode = Triangles
  datatype TextureTarget = Texture2D
  datatype FramebufferTarget = DrawFramebuffer | ReadFramebuffer
  datatype Attachment = ColorAttachment0 | DepthStencilAttachment
  datatype ObjectKind =
    | BufferObject | TextureObject | SamplerObject
    | RenderbufferObject | FramebufferObject | VertexArrayObject
  datatype ParamName = TextureMaxLevel | TextureMagFilter | TextureMinFilter | TextureWrapS | TextureWrapT
  datatype ParamValue = IntValue(n: nat) | FilterValue(filter: Filter) | WrapValue(wrap: Wrap)
  datatype LodName = TextureMinLod | TextureMaxLod

  /** The render-flags value of the renderer (blend, depth, cull state); opaque here. */
  datatype RenderFlags = RenderFlags(token: nat)

  const COLOR_BUFFER_BIT: bv32 := 0x4000
  const DEPTH_BUFFER_BIT: bv32 := 0x0100
  const STENCIL_BUFFER_BIT: bv32 := 0x0400

  /** One call on the rendering context. Floating-point arguments are carried as `real`. */
  datatype Command =
    | Create(kind: ObjectKind, name: nat)
    | Delete(kind: ObjectKind, name: nat)
    | BindBuffer(target: BufferTarget, buffer: nat)
    | BufferData(target: BufferTarget, byteSize: nat, hint: UsageHint)
    | BufferSubData(target: BufferTarget, dstByteOffset: nat, data: Bytes)
    | BindBufferRange(target: BufferTarget, index: nat, buffer: nat, byteOffset: nat, byteSize: nat)
    | BindTexture(texTarget: TextureTarget, texture: nat)
    | TexParameteri(texTarget: TextureTarget, pname: ParamName, value: ParamValue)
    | TexStorage2D(texTarget: TextureTarget, levels: nat, internalFormat: InternalFormat, width: nat, height: nat)
    | TexSubImage2D(texTarget: TextureTarget, level: nat, x: nat, y: nat, width: nat, height: nat,
                    format: Option<TransferFormat>, glType: GLType, pixels: Bytes)
    | SamplerParameteri(sampler: nat, pname: ParamName, value: ParamValue)
    | SamplerParameterf(sampler: nat, lod: LodName, lodValue: real)
    | BindRenderbuffer(renderbuffer: nat)
    | RenderbufferStorageMultisample(samples: nat, rbFormat: RenderbufferFormat, width: nat, height: nat)
    | BindFramebuffer(fbTarget: FramebufferTarget, framebuffer: Option<nat>)
    | FramebufferRenderbuffer(fbTarget: FramebufferTarget, attachment: Attachment, renderbuffer: nat)
    | FramebufferTexture2D(fbTarget: FramebufferTarget, attachment: Attachment, texTarget: TextureTarget,
                           texture: nat, level: nat)
    | BlitFramebuffer(srcX0: nat, srcY0: nat, srcX1: nat, srcY1: nat,
                      dstX0: nat, dstY0: nat, dstX1: nat, dstY1: nat, mask: bv32, filter: Filter)
    | ClearColor(red: real, green: real, blue: real, alpha: real)
    | ClearDepth(depth: real)
    | ClearStencil(stencil: int)
    | Clear(mask: bv32)
    | BindVertexArray(vao: Option<nat>)
    | VertexAttribPointer(location: nat, size: Option<nat>, attribType: Option<GLType>, normalized: bool,
                          stride: nat, offset: nat)
    | EnableVertexAttribArray(location: nat)
    | ActiveTexture(unit: nat)                        // TEXTURE0 + unit
    | BindSampler(unit: nat, sampler: nat)
    | UseProgram(program: nat)
    | ApplyRenderFlags(flags: RenderFlags, forceDisableCulling: bool)
    | DrawArrays(mode: DrawMode, first: nat, count: nat)
    | DrawElements(mode: DrawMode, count: nat, indexType: Option<GLType>, byteOffset: nat)
    | Viewport(vx: nat, vy: nat, vw: nat, vh: nat)

  /** The names handed out by the `Create` commands of a log. */
  ghost function CreatedNames(log: seq<Command>): set<nat>
    decreases |log|
  {
    if |log| == 0 then {}
    else CreatedNames(log[..|log| - 1]) + (if log[|log| - 1].Create? then {log[|log| - 1].name} else {})
  }

  /** The rendering context: the commands issued so far and the next unused object name. */
  class Context {
    var log: seq<Command>
    var nextName: nat

    /** Every name that a `Create` command handed out is below `nextName`. */
    ghost predicate Valid()
      reads this
    {
      forall n :: n in CreatedNames(log) ==> n < nextName
    }

    constructor ()
      ensures Valid() && log == [] && nextName == 0
    {
      log := [];
      nextName := 0;
    }

    /** `gl.createBuffer()`, `gl.createTexture()`, ...: a name never handed out before. */
    method CreateObject(kind: ObjectKind) returns (name: nat)
      requires Valid()
      modifies this
      ensures Valid()
      ensures name == old(nextName) && nextName == old(nextName) + 1
      ensures log == old(log) + [Create(kind, name)]
      ensures name !in CreatedNames(old(log))
    {
      name := nextName;
      assert (log + [Create(kind, name)])[..|log|] == log;
      log := log + [Create(kind, name)];
      nextName := nextName + 1;
    }

    /** Any other call: appended to the log, no name handed out. */
    method Emit(c: Command)
      requires Valid() && !c.Create?
      modifies this
      ensures Valid()
      ensures log == old(log) + [c] && nextName == old(nextName)
    {
      assert (log + [c])[..|log|] == log;
      log := log + [c];
    }
  }
}
