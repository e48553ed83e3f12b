/**
 * The backend's enumerations and their translation to WebGL2 enums:
 * buffer usage and frequency hints, wrap and filter modes, topology.
 *
 * `translateFilterMode` throws when no case matches; since a TypeScript
 * numeric enum parameter can hold any number, the two filter enumerations
 * carry an `Unlisted...` member standing for every value outside the
 * declared ones, so that the throw can be stated. Its `code` is meant to be a
 * number that is none of the declared members' values; the model does not
 * constrain it, so it over-approximates the values that reach the throw.
 */
module GfxTranslate {

  import opened GfxErrors
  import WebGL2

  datatype BufferUsage = IndexUsage | VertexUsage | UniformUsage
  datatype BufferFrequencyHint = StaticHint | DynamicHint
  datatype WrapMode = WrapClamp | WrapRepeat | WrapMirror
  datatype TexFilterMode = Point | Bilinear | UnlistedTexFilter(code: int)
  datatype MipFilterMode = NoMip | MipNearest | MipLinear | UnlistedMipFilter(code: int)
  datatype PrimitiveTopology = TopologyTriangles

  function TranslateBufferHint(hint: BufferFrequencyHint): (r: WebGL2.UsageHint)
    ensures r == WebGL2.StaticDraw <==> hint == StaticHint
  {
    match hint
    case StaticHint => WebGL2.StaticDraw
    case DynamicHint => WebGL2.DynamicDraw
  }

  /** The usage class served by a binding target. */
  function UsageOfTarget(target: WebGL2.BufferTarget): BufferUsage {
    match target
    case ElementArrayBuffer => IndexUsage
    case ArrayBuffer => VertexUsage
    case UniformBuffer => UniformUsage
  }

  /** `translateBufferUsageToTarget`: every usage class has its own target. */
  function TranslateBufferUsageToTarget(usage: BufferUsage): (r: WebGL2.BufferTarget)
    ensures UsageOfTarget(r) == usage
  {
    match usage
    case IndexUsage => WebGL2.ElementArrayBuffer
    case VertexUsage => WebGL2.ArrayBuffer
    case UniformUsage => WebGL2.UniformBuffer
  }

  function WrapModeOf(w: WebGL2.Wrap): WrapMode {
    match w
    case ClampToEdge => WrapClamp
    case Repeat => WrapRepeat
    case MirroredRepeat => WrapMirror
  }

  /** `translateWrapMode`: every wrap mode has its own GL wrap. */
  function TranslateWrapMode(wrapMode: WrapMode): (r: WebGL2.Wrap)
    ensures WrapModeOf(r) == wrapMode
  {
    match wrapMode
    case WrapClamp => WebGL2.ClampToEdge
    case WrapRepeat => WebGL2.Repeat
    case WrapMirror => WebGL2.MirroredRepeat
  }

  predicate ListedTexFilter(f: TexFilterMode) { !f.UnlistedTexFilter? }
  predicate ListedMipFilter(m: MipFilterMode) { !m.UnlistedMipFilter? }

  /** The (base filter, mip filter) pair a GL filter stands for. */
  function FilterModesOf(g: WebGL2.Filter): (TexFilterMode, MipFilterMode) {
    match g
    case LinearMipmapLinear => (Bilinear, MipLinear)
    case NearestMipmapLinear => (Point, MipLinear)
    case LinearMipmapNearest => (Bilinear, MipNearest)
    case NearestMipmapNearest => (Point, MipNearest)
    case Linear => (Bilinear, NoMip)
    case Nearest => (Point, NoMip)
  }

  /** `translateFilterMode`: the six listed pairs map to six distinct GL filters
    * (distinct because `FilterModesOf` recovers the pair); anything else throws.
    * Without mipmapping the filter is NEAREST or LINEAR. */
  function TranslateFilterMode(filter: TexFilterMode, mipFilter: MipFilterMode): (r: Result<WebGL2.Filter>)
    ensures r.Ok? <==> ListedTexFilter(filter) && ListedMipFilter(mipFilter)
    ensures r.Ok? ==> FilterModesOf(r.value) == (filter, mipFilter)
    ensures r.Err? ==> r.failure == UnknownTextureFilterMode
    ensures r.Ok? && mipFilter == NoMip ==> r.value == WebGL2.Nearest || r.value == WebGL2.Linear
  {
    if mipFilter == MipLinear && filter == Bilinear then Ok(WebGL2.LinearMipmapLinear)
    else if mipFilter == MipLinear && filter == Point then Ok(WebGL2.NearestMipmapLinear)
    else if mipFilter == MipNearest && filter == Bilinear then Ok(WebGL2.LinearMipmapNearest)
    else if mipFilter == MipNearest && filter == Point then Ok(WebGL2.NearestMipmapNearest)
    else if mipFilter == NoMip && filter == Bilinear then Ok(WebGL2.Linear)
    else if mipFilter == NoMip && filter == Point then Ok(WebGL2.Nearest)
    else Err(UnknownTextureFilterMode)
  }

  /** Every GL filter is reached, so the translation is a bijection onto the six filters. */
  lemma {:induction false} EveryFilterIsTranslated(g: WebGL2.Filter)
    ensures TranslateFilterMode(FilterModesOf(g).0, FilterModesOf(g).1) == Ok(g)
  {
    match g
    case LinearMipmapLinear =>
    case NearestMipmapLinear =>
    case LinearMipmapNearest =>
    case NearestMipmapNearest =>
    case Linear =>
    case Nearest =>
  }

  function TranslatePrimitiveTopology(topology: PrimitiveTopology): WebGL2.DrawMode {
    match topology
    case TopologyTriangles => WebGL2.Triangles
  }
}
