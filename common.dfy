/**
 * Failure values of the WebGL2 backend.
 *
 * The backend has no recoverable error channel: every failure below is a
 * thrown exception in the original (an unsupported format, an unknown filter
 * mode, a failed `assert`, or a property read through `undefined`/`null`).
 * The model returns them as values so that the error paths can be stated.
 */
module GfxErrors {

  datatype Option<T> = None | Some(value: T) {
    function GetOr(default: T): T {
      match this
      case Some(v) => v
      case None => default
    }
  }

  /** The `assert(...)` call sites of the backend. */
  datatype Check =
    | VertexBufferUsage        // createInputState: attribute buffer must be VERTEX
    | IndexBufferUsage         // createInputState: index buffer must be INDEX
    | UniformBufferLayoutCount // createRenderPipeline: program layouts == numUniformBuffers
    | UniformBufferCount       // setBindings: unchanged + bound == numUniformBuffers
    | SamplerCount             // setBindings: unchanged + bound == numSamplers
    | UniformBufferUsage       // setBindings: bound buffer must be UNIFORM
    | InputLayoutIdentity      // setInputState: same layout object as the pipeline's
    | ResolveExtent            // endPass: resolve source and destination sizes agree

  /** What was `undefined` or `null` when a property was read through it. */
  datatype Missing =
    | NoCurrentPipeline
    | NoCurrentInputState
    | NoCurrentRenderTarget
    | NoSwapChainTexture
    | NoVertexBuffer           // `vertexBuffers[attr.bufferIndex]` out of range

  datatype Failure =
    | Whoops                   // `throw "whoops"`: unsupported format
    | UnknownTextureFilterMode // `throw new Error("Unknown texture filter mode")`
    | AssertionFailed(check: Check)
    | TypeError(missing: Missing)

  datatype Result<T> = Ok(value: T) | Err(failure: Failure)

  /** The result of an operation that returns nothing. */
  datatype Outcome = Pass | Fail(failure: Failure)
}
